/**
  The path that an exception prints for a JSON value (exception::diagnostics in
  detail/exceptions.hpp, JSON_DIAGNOSTICS build) and the checked lookup that follows
  such a path (json_pointer::get_checked).
*/
module JsonDiagnostics {
  import opened Common
  import opened StringEscape
  import opened JsonPointer

  datatype Member = Member(key: string, value: JsonNode)

  datatype Content = Array(elements: seq<JsonNode>) | Object(members: seq<Member>) | Scalar

  class JsonNode {
    var parent: JsonNode?
    var content: Content

    constructor (content: Content)
      ensures this.parent == null && this.content == content
    {
      this.parent, this.content := null, content;
    }
  }

  // ---------------------------------------------------------------- well-formed trees

  /**
    A tree whose parent links agree with its containers: rank grows away from the root, children
    have distinct addresses, and the keys of an object are distinct.
  */
  ghost predicate ParentLinked(root: JsonNode, nodes: set<JsonNode>, rank: map<JsonNode, nat>)
    reads nodes
  {
    && root in nodes && nodes <= rank.Keys
    && (forall n | n in nodes :: n.parent == null <==> n == root)
    && (forall n | n in nodes && n.parent != null ::
            n.parent in nodes && rank[n.parent] < rank[n] && IsChild(n.parent.content, n))
    && (forall n | n in nodes :: Children(n.content) <= nodes)
    && (forall n, c | n in nodes && c in nodes && IsChild(n.content, c) :: c.parent == n)
    && (forall n | n in nodes :: Tidy(n.content))
  }

  ghost function Children(content: Content): set<JsonNode> {
    match content
    case Array(es) => set c | c in es
    case Object(ms) => set m | m in ms :: m.value
    case Scalar => {}
  }

  ghost predicate IsChild(content: Content, c: JsonNode) {
    match content
    case Array(es) => c in es
    case Object(ms) => exists i :: 0 <= i < |ms| && ms[i].value == c
    case Scalar => false
  }

  ghost predicate Tidy(content: Content) {
    match content
    case Array(es) => |es| < SIZE_MAX && forall i, j | 0 <= i < j < |es| :: es[i] != es[j]
    case Object(ms) => forall i, j | 0 <= i < j < |ms| :: ms[i].key != ms[j].key && ms[i].value != ms[j].value
    case Scalar => true
  }

  // ---------------------------------------------------------------- the printer

  /** What is left of a string that passes through a C string. */
  function CString(s: string): string {
    if s == "" || s[0] == '\0' then "" else [s[0]] + CString(s[1..])
  }

  lemma {:induction false} CStringIff(s: string)
    ensures CString(s) == s <==> '\0' !in s
  {
    if s != "" && s[0] != '\0' {
      CStringIff(s[1..]);
      assert s == [s[0]] + s[1..];
      assert CString(s)[1..] == CString(s[1..]);
    }
  }

  ghost function IndexOf(es: seq<JsonNode>, c: JsonNode): (i: nat)
    requires c in es
    ensures i < |es| && es[i] == c && c !in es[..i]
  {
    if es[0] == c then 0 else 1 + IndexOf(es[1..], c)
  }

  ghost function SlotOf(ms: seq<Member>, c: JsonNode): (i: nat)
    requires exists i :: 0 <= i < |ms| && ms[i].value == c
    ensures i < |ms| && ms[i].value == c && forall j | 0 <= j < i :: ms[j].value != c
  {
    if ms[0].value == c then 0
    else
      assert exists i :: 0 <= i < |ms[1..]| && ms[1..][i].value == c by {
        var i :| 0 <= i < |ms| && ms[i].value == c;
        assert ms[1..][i - 1].value == c;
      }
      1 + SlotOf(ms[1..], c)
  }

  /** The reference token of a child, and what the printer makes of it. */
  ghost function TokenOf(content: Content, c: JsonNode): string
    requires IsChild(content, c)
  {
    match content
    case Array(es) => Decimal(IndexOf(es, c))
    case Object(ms) => ms[SlotOf(ms, c)].key
  }

  ghost function PrintedTokenOf(content: Content, c: JsonNode): string
    requires IsChild(content, c)
  {
    if content.Object? then CString(TokenOf(content, c)) else TokenOf(content, c)
  }

  /** Root-to-leaf tokens of n. */
  ghost function Tokens(root: JsonNode, nodes: set<JsonNode>, rank: map<JsonNode, nat>, n: JsonNode): seq<string>
    requires ParentLinked(root, nodes, rank) && n in nodes
    reads nodes
    decreases rank[n]
  {
    if n.parent == null then [] else Tokens(root, nodes, rank, n.parent) + [TokenOf(n.parent.content, n)]
  }

  ghost function PrintedTokens(root: JsonNode, nodes: set<JsonNode>, rank: map<JsonNode, nat>, n: JsonNode): seq<string>
    requires ParentLinked(root, nodes, rank) && n in nodes
    reads nodes
    decreases rank[n]
  {
    if n.parent == null then []
    else PrintedTokens(root, nodes, rank, n.parent) + [PrintedTokenOf(n.parent.content, n)]
  }

  function Reversed(ts: seq<string>): seq<string> {
    if ts == [] then [] else Reversed(ts[1..]) + [ts[0]]
  }

  lemma {:induction false} ReversedSnoc(ts: seq<string>, t: string)
    ensures Reversed(ts + [t]) == [t] + Reversed(ts)
  {
    if ts != [] {
      assert (ts + [t])[1..] == ts[1..] + [t];
      ReversedSnoc(ts[1..], t);
    }
  }

  /** The token found by scanning the parent for the address of the child. */
  method FindToken(content: Content, current: JsonNode) returns (token: string)
    requires IsChild(content, current)
    ensures token == PrintedTokenOf(content, current)
  {
    if content.Array? {
      var es := content.elements;
      var i := 0;
      while i < |es| && es[i] != current
        invariant i <= IndexOf(es, current)
      {
        i := i + 1;
      }
      token := Decimal(i);
    } else {
      var ms := content.members;
      var i := 0;
      while i < |ms| && ms[i].value != current
        invariant i <= SlotOf(ms, current)
      {
        i := i + 1;
      }
      token := CString(ms[i].key);
    }
  }

  /** The walk up the parent links; the tokens come out leaf first. */
  method CollectTokens(leaf: JsonNode, ghost root: JsonNode, ghost nodes: set<JsonNode>, ghost rank: map<JsonNode, nat>)
      returns (tokens: seq<string>)
    requires ParentLinked(root, nodes, rank) && leaf in nodes
    ensures Reversed(tokens) == PrintedTokens(root, nodes, rank, leaf)
  {
    tokens := [];
    var current := leaf;
    while current.parent != null
      invariant current in nodes
      invariant PrintedTokens(root, nodes, rank, leaf) == PrintedTokens(root, nodes, rank, current) + Reversed(tokens)
      decreases rank[current]
    {
      var token := FindToken(current.parent.content, current);
      ReversedSnoc(tokens, token);
      Reassociate(PrintedTokens(root, nodes, rank, current.parent), token, Reversed(tokens));
      tokens := tokens + [token];
      current := current.parent;
    }
    assert [] + Reversed(tokens) == Reversed(tokens);
  }

  lemma Reassociate(a: seq<string>, t: string, b: seq<string>)
    ensures a + [t] + b == a + ([t] + b)
  {
  }

  method Diagnostics(leaf: JsonNode?, ghost root: JsonNode, ghost nodes: set<JsonNode>, ghost rank: map<JsonNode, nat>)
      returns (text: string)
    requires ParentLinked(root, nodes, rank) && (leaf != null ==> leaf in nodes)
    ensures text == "" <==> leaf == null || leaf == root
    ensures leaf != null && leaf != root ==> text == "(" + PointerText(PrintedTokens(root, nodes, rank, leaf)) + ") "
  {
    if leaf == null {
      return "";
    }
    var tokens := CollectTokens(leaf, root, nodes, rank);
    if tokens == [] {
      return "";
    }
    var str := Accumulate(tokens);
    text := "(" + str + ") ";
  }

  /** The tokens were collected leaf first; the text is put together from the other end. */
  method Accumulate(tokens: seq<string>) returns (str: string)
    ensures str == PointerText(Reversed(tokens))
  {
    str := "";
    var k := |tokens|;
    while k > 0
      invariant 0 <= k <= |tokens|
      invariant str == PointerText(Reversed(tokens[k..]))
    {
      k := k - 1;
      var e := Escape(tokens[k]);
      assert tokens[k..][1..] == tokens[k + 1..];
      var before := Reversed(tokens[k + 1..]);
      assert (before + [tokens[k]])[..|before|] == before;
      str := str + "/" + e;
    }
    assert tokens[0..] == tokens;
  }

  // ---------------------------------------------------------------- the checked lookup

  function FindKey(ms: seq<Member>, key: string): Result<JsonNode, nat> {
    if ms == [] then Err(403) else if ms[0].key == key then Ok(ms[0].value) else FindKey(ms[1..], key)
  }

  /** One step of get_checked, or the number of the error it throws. */
  function Child(content: Content, token: string): Result<JsonNode, nat> {
    match content
    case Object(ms) => FindKey(ms, token)
    case Array(es) =>
      if token == "-" then Err(402)
      else
        var i := ArrayIndex(token);
        if i.Err? then Err(i.error) else if i.value < |es| then Ok(es[i.value]) else Err(401)
    case Scalar => Err(404)
  }

  lemma {:induction false} FoundKeyIsChild(ms: seq<Member>, key: string) returns (i: nat)
    requires FindKey(ms, key).Ok?
    ensures i < |ms| && ms[i].key == key && ms[i].value == FindKey(ms, key).value
  {
    if ms[0].key == key {
      i := 0;
    } else {
      i := FoundKeyIsChild(ms[1..], key);
      i := i + 1;
    }
  }

  lemma ChildIsChild(content: Content, token: string)
    requires Child(content, token).Ok?
    ensures IsChild(content, Child(content, token).value) && Child(content, token).value in Children(content)
  {
    if content.Object? {
      var i := FoundKeyIsChild(content.members, token);
      assert content.members[i] in content.members;
    }
  }

  /** The node reached from the root by the tokens. */
  ghost function Resolved(root: JsonNode, nodes: set<JsonNode>, rank: map<JsonNode, nat>,
    tokens: seq<string>): (r: Result<JsonNode, nat>)
    requires ParentLinked(root, nodes, rank)
    reads nodes
    ensures r.Ok? ==> r.value in nodes
    decreases |tokens|
  {
    if tokens == [] then Ok(root)
    else
      var p := Resolved(root, nodes, rank, tokens[..|tokens| - 1]);
      if p.Err? then p
      else
        var c := Child(p.value.content, tokens[|tokens| - 1]);
        if c.Ok? then (ChildIsChild(p.value.content, tokens[|tokens| - 1]); c) else c
  }

  lemma {:induction false} ErrorPersists(root: JsonNode, nodes: set<JsonNode>, rank: map<JsonNode, nat>,
    tokens: seq<string>, k: nat)
    requires ParentLinked(root, nodes, rank) && k <= |tokens|
    requires Resolved(root, nodes, rank, tokens[..k]).Err?
    ensures Resolved(root, nodes, rank, tokens) == Resolved(root, nodes, rank, tokens[..k])
  {
    if k < |tokens| {
      assert tokens[..|tokens| - 1][..k] == tokens[..k];
      ErrorPersists(root, nodes, rank, tokens[..|tokens| - 1], k);
    } else {
      assert tokens[..k] == tokens;
    }
  }

  method GetChecked(root: JsonNode, tokens: seq<string>, ghost nodes: set<JsonNode>, ghost rank: map<JsonNode, nat>)
      returns (r: Result<JsonNode, nat>)
    requires ParentLinked(root, nodes, rank)
    ensures r == Resolved(root, nodes, rank, tokens)
  {
    var ptr := root;
    var i := 0;
    while i < |tokens|
      invariant i <= |tokens|
      invariant ptr in nodes && Resolved(root, nodes, rank, tokens[..i]) == Ok(ptr)
    {
      assert tokens[..i + 1][..i] == tokens[..i];
      var c := Child(ptr.content, tokens[i]);
      if c.Err? {
        ErrorPersists(root, nodes, rank, tokens, i + 1);
        return c;
      }
      ChildIsChild(ptr.content, tokens[i]);
      ptr := c.value;
      i := i + 1;
    }
    assert tokens[..i] == tokens;
    r := Ok(ptr);
  }

  // ---------------------------------------------------------------- errors of the lookup

  ghost predicate HasKey(ms: seq<Member>, key: string) {
    exists m :: m in ms && m.key == key
  }

  lemma {:induction false} FindKeyIff(ms: seq<Member>, key: string)
    ensures FindKey(ms, key) == Err(403) <==> !HasKey(ms, key)
    ensures FindKey(ms, key).Err? ==> FindKey(ms, key) == Err(403)
  {
    if ms != [] && ms[0].key != key {
      FindKeyIff(ms[1..], key);
      assert forall m :: m in ms <==> m == ms[0] || m in ms[1..];
    }
  }

  /** Each error of one step down by its own condition; a token that is no index has the error of its syntax. */
  lemma ChildErrorsIff(content: Content, token: string)
    ensures Child(content, token) == Err(403) <==> content.Object? && !HasKey(content.members, token)
    ensures Child(content, token) == Err(402) <==> content.Array? && token == "-"
    ensures Child(content, token) == Err(401) <==>
            && content.Array?
            && exists i: nat :: |content.elements| <= i < 0xFFFF_FFFF_FFFF_FFFF && token == Decimal(i)
    ensures Child(content, token) == Err(404) <==>
            content.Scalar? || (content.Array? && token != "-" && ArrayIndex(token) == Err(404))
    ensures forall e | e in {106, 109, 410} ::
              Child(content, token) == Err(e) <==> content.Array? && ArrayIndex(token) == Err(e)
    ensures Child(content, token).Err? ==> Child(content, token).error in {106, 109, 401, 402, 403, 404, 410}
  {
    match content
    case Object(ms) => FindKeyIff(ms, token);
    case Array(es) => ElementErrorsIff(es, token);
    case Scalar =>
  }

  lemma ElementErrorsIff(es: seq<JsonNode>, token: string)
    ensures var r := Child(Array(es), token);
            && (r == Err(402) <==> token == "-")
            && (r == Err(401) <==>
                  exists i: nat :: |es| <= i < 0xFFFF_FFFF_FFFF_FFFF && token == Decimal(i))
            && (r == Err(404) <==> token != "-" && ArrayIndex(token) == Err(404))
            && (forall e | e in {106, 109, 410} :: r == Err(e) <==> ArrayIndex(token) == Err(e))
            && (r.Err? ==> r.error in {106, 109, 401, 402, 404, 410})
  {
    DashIsNoIndex();
    IndexErrorNumbers(token);
    BeyondIff(|es|, token);
  }

  lemma IndexErrorNumbers(token: string)
    ensures ArrayIndex(token).Err? ==> ArrayIndex(token).error in {106, 109, 404, 410}
  {
  }

  lemma BeyondIff(n: nat, token: string)
    ensures ArrayIndex(token).Ok? && n <= ArrayIndex(token).value <==>
            exists i: nat :: n <= i < 0xFFFF_FFFF_FFFF_FFFF && token == Decimal(i)
  {
    if ArrayIndex(token).Ok? {
      ArrayIndexIff(token, ArrayIndex(token).value);
    }
    forall i: nat | i < 0xFFFF_FFFF_FFFF_FFFF && token == Decimal(i)
      ensures ArrayIndex(token) == Ok(i)
    {
      ArrayIndexIff(token, i);
    }
  }

  lemma DashIsNoIndex()
    ensures ArrayIndex("-") == Err(404)
  {
    assert '-' in "-";
  }

  /** A lookup fails with the error of the first step that fails. */
  lemma {:induction false} FirstErrorDecides(root: JsonNode, nodes: set<JsonNode>, rank: map<JsonNode, nat>,
    tokens: seq<string>, e: nat)
    requires ParentLinked(root, nodes, rank)
    ensures Resolved(root, nodes, rank, tokens) == Err(e) <==> Fails(root, nodes, rank, tokens, e)
    decreases |tokens|
  {
    if tokens != [] {
      FirstErrorDecides(root, nodes, rank, tokens[..|tokens| - 1], e);
      FailsSnoc(root, nodes, rank, tokens, e);
    }
  }

  ghost predicate Fails(root: JsonNode, nodes: set<JsonNode>, rank: map<JsonNode, nat>, tokens: seq<string>, e: nat)
    requires ParentLinked(root, nodes, rank)
    reads nodes
  {
    exists k :: 0 <= k < |tokens| && FailsAt(root, nodes, rank, tokens, k, e)
  }

  lemma FailsAtFront(root: JsonNode, nodes: set<JsonNode>, rank: map<JsonNode, nat>,
    tokens: seq<string>, k: nat, e: nat)
    requires ParentLinked(root, nodes, rank) && k < |tokens| - 1
    ensures FailsAt(root, nodes, rank, tokens[..|tokens| - 1], k, e) <==> FailsAt(root, nodes, rank, tokens, k, e)
  {
    assert tokens[..|tokens| - 1][..k] == tokens[..k];
  }

  lemma FailsSnoc(root: JsonNode, nodes: set<JsonNode>, rank: map<JsonNode, nat>, tokens: seq<string>, e: nat)
    requires ParentLinked(root, nodes, rank) && tokens != []
    ensures Fails(root, nodes, rank, tokens, e) <==>
            || Fails(root, nodes, rank, tokens[..|tokens| - 1], e)
            || FailsAt(root, nodes, rank, tokens, |tokens| - 1, e)
  {
    var front := tokens[..|tokens| - 1];
    if Fails(root, nodes, rank, tokens, e) {
      var k :| 0 <= k < |tokens| && FailsAt(root, nodes, rank, tokens, k, e);
      if k < |front| {
        FailsAtFront(root, nodes, rank, tokens, k, e);
      }
    }
    if Fails(root, nodes, rank, front, e) {
      var k :| 0 <= k < |front| && FailsAt(root, nodes, rank, front, k, e);
      FailsAtFront(root, nodes, rank, tokens, k, e);
    }
  }

  /** The tokens before k lead to a node, and from there token k gives error e. */
  ghost predicate FailsAt(root: JsonNode, nodes: set<JsonNode>, rank: map<JsonNode, nat>,
    tokens: seq<string>, k: nat, e: nat)
    requires ParentLinked(root, nodes, rank) && k < |tokens|
    reads nodes
  {
    var p := Resolved(root, nodes, rank, tokens[..k]);
    p.Ok? && Child(p.value.content, tokens[k]) == Err(e)
  }

  // ---------------------------------------------------------------- printed paths lead back to the value

  /** No object key on the way from the root to n contains the NUL character. */
  ghost predicate NulFree(root: JsonNode, nodes: set<JsonNode>, rank: map<JsonNode, nat>, n: JsonNode)
    requires ParentLinked(root, nodes, rank) && n in nodes
    reads nodes
    decreases rank[n]
  {
    n.parent != null ==>
      && NulFree(root, nodes, rank, n.parent)
      && (n.parent.content.Object? ==> '\0' !in TokenOf(n.parent.content, n))
  }

  lemma {:induction false} FindKeyAt(ms: seq<Member>, i: nat)
    requires i < |ms| && forall i, j | 0 <= i < j < |ms| :: ms[i].key != ms[j].key
    ensures FindKey(ms, ms[i].key) == Ok(ms[i].value)
  {
    if i > 0 {
      assert ms[0].key != ms[i].key;
      FindKeyAt(ms[1..], i - 1);
    }
  }

  /** From the parent, exactly the child's own token leads to the child. */
  lemma OwnTokenIff(content: Content, c: JsonNode, token: string)
    requires Tidy(content) && IsChild(content, c)
    ensures Child(content, token) == Ok(c) <==> token == TokenOf(content, c)
  {
    match content
    case Array(es) =>
      var i := IndexOf(es, c);
      ArrayIndexIff(token, i);
      DecimalFacts(i);
      if Child(content, token) == Ok(c) {
        assert es[ArrayIndex(token).value] == es[i];
      }
    case Object(ms) =>
      var i := SlotOf(ms, c);
      FindKeyAt(ms, i);
      if Child(content, token) == Ok(c) {
        var j := FoundKeyIsChild(ms, token);
        assert ms[j].value == ms[i].value;
      }
  }

  /** Following the printed tokens from the root reaches the value iff no key on the way contains NUL. */
  lemma {:induction false} PrintedPathReachesIff(root: JsonNode, nodes: set<JsonNode>,
    rank: map<JsonNode, nat>, n: JsonNode)
    requires ParentLinked(root, nodes, rank) && n in nodes
    ensures Resolved(root, nodes, rank, PrintedTokens(root, nodes, rank, n)) == Ok(n) <==> NulFree(root, nodes, rank, n)
    decreases rank[n]
  {
    if n.parent != null {
      var p := n.parent;
      PrintedPathReachesIff(root, nodes, rank, p);
      var above, token := PrintedTokens(root, nodes, rank, p), PrintedTokenOf(p.content, n);
      assert (above + [token])[..|above|] == above;
      CStringIff(TokenOf(p.content, n));
      OwnTokenIff(p.content, n, token);
      var q := Resolved(root, nodes, rank, above);
      if q.Ok? && Child(q.value.content, token) == Ok(n) {
        ChildIsChild(q.value.content, token);
        assert q.value == p;
      }
    }
  }

  /** The printed tokens are the true ones iff no key on the way contains NUL. */
  lemma {:induction false} PrintedTokensTrueIff(root: JsonNode, nodes: set<JsonNode>,
    rank: map<JsonNode, nat>, n: JsonNode)
    requires ParentLinked(root, nodes, rank) && n in nodes
    ensures PrintedTokens(root, nodes, rank, n) == Tokens(root, nodes, rank, n) <==> NulFree(root, nodes, rank, n)
    ensures |PrintedTokens(root, nodes, rank, n)| == |Tokens(root, nodes, rank, n)|
    decreases rank[n]
  {
    if n.parent != null {
      var p := n.parent;
      PrintedTokensTrueIff(root, nodes, rank, p);
      CStringIff(TokenOf(p.content, n));
      SnocEqual(PrintedTokens(root, nodes, rank, p), PrintedTokenOf(p.content, n),
                Tokens(root, nodes, rank, p), TokenOf(p.content, n));
    }
  }

  lemma SnocEqual(a: seq<string>, x: string, b: seq<string>, y: string)
    requires |a| == |b|
    ensures a + [x] == b + [y] <==> a == b && x == y
  {
    if a + [x] == b + [y] {
      assert (a + [x])[..|a|] == a && (b + [y])[..|b|] == b;
      assert (a + [x])[|a|] == x && (b + [y])[|b|] == y;
    }
  }

  /**
    The text that Diagnostics prints for a value below the root, without its brackets, is a JSON
    Pointer; parsing it and following it from the root reaches that value iff no key contains NUL.
  */
  lemma DiagnosticTextLeadsBackIff(root: JsonNode, nodes: set<JsonNode>, rank: map<JsonNode, nat>, n: JsonNode)
    requires ParentLinked(root, nodes, rank) && n in nodes && n != root
    ensures var text := "(" + PointerText(PrintedTokens(root, nodes, rank, n)) + ") ";
            && |text| > 3 && text[0] == '(' && text[|text| - 2..] == ") "
            && var path := Parsed(text[1..|text| - 2]);
               && path.Ok?
               && (Resolved(root, nodes, rank, path.value) == Ok(n) <==> NulFree(root, nodes, rank, n))
               && (path.value == Tokens(root, nodes, rank, n) <==> NulFree(root, nodes, rank, n))
  {
    var tokens := PrintedTokens(root, nodes, rank, n);
    var text := "(" + PointerText(tokens) + ") ";
    assert text[1..|text| - 2] == PointerText(tokens);
    ParseUndoesPrint(tokens);
    PrintedPathReachesIff(root, nodes, rank, n);
    PrintedTokensTrueIff(root, nodes, rank, n);
  }

  lemma TruncatedKey()
    ensures CString("a\0b") == "a"
  {
  }

  /** Below a key with NUL inside, the printed path names a key that does not exist. */
  lemma NulKeyLosesTheWay(root: JsonNode, nodes: set<JsonNode>, rank: map<JsonNode, nat>, leaf: JsonNode)
    requires ParentLinked(root, nodes, rank) && leaf in nodes
    requires leaf.parent == root && root.content == Object([Member("a\0b", leaf)])
    ensures PrintedTokens(root, nodes, rank, leaf) == ["a"] && Tokens(root, nodes, rank, leaf) == ["a\0b"]
    ensures Resolved(root, nodes, rank, ["a"]) == Err(403)
  {
    TruncatedKey();
    var ms := [Member("a\0b", leaf)];
    assert SlotOf(ms, leaf) == 0;
    assert PrintedTokens(root, nodes, rank, root) == [] && Tokens(root, nodes, rank, root) == [];
    assert ["a"][..0] == [] && ms[1..] == [];
    assert FindKey(ms, "a") == FindKey(ms[1..], "a");
  }

  /** Such a tree exists. */
  method NulKeyTree()
    returns (root: JsonNode, leaf: JsonNode, ghost nodes: set<JsonNode>, ghost rank: map<JsonNode, nat>)
    ensures ParentLinked(root, nodes, rank) && leaf in nodes
    ensures leaf.parent == root && root.content == Object([Member("a\0b", leaf)])
  {
    leaf := new JsonNode(Scalar);
    root := new JsonNode(Object([Member("a\0b", leaf)]));
    leaf.parent := root;
    nodes, rank := {root, leaf}, map[root := 0, leaf := 1];
    assert root.content.members[0].value == leaf;
    assert Children(root.content) == {leaf};
  }
}
