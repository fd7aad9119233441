/** Parsing and printing of JSON Pointers and array indices (detail/json_pointer.hpp, RFC 6901). */
module JsonPointer {
  import opened Common
  import opened StringEscape

  // ---------------------------------------------------------------- printing

  function PointerText(tokens: seq<string>): string {
    if tokens == [] then "" else PointerText(tokens[..|tokens| - 1]) + "/" + Escaped(tokens[|tokens| - 1])
  }

  method ToString(tokens: seq<string>) returns (text: string)
    ensures text == PointerText(tokens)
  {
    text := "";
    for i := 0 to |tokens|
      invariant text == PointerText(tokens[..i])
    {
      var e := Escape(tokens[i]);
      text := text + "/" + e;
      assert tokens[..i + 1][..i] == tokens[..i];
    }
    assert tokens[..|tokens|] == tokens;
  }

  // ---------------------------------------------------------------- parsing

  /** The stretches between slashes; there is always at least one. */
  function Pieces(s: string): (r: seq<string>)
    ensures r != []
  {
    if s == "" then [""]
    else if s[0] == '/' then [""] + Pieces(s[1..])
    else [[s[0]] + Pieces(s[1..])[0]] + Pieces(s[1..])[1..]
  }

  predicate TildeEscaped(s: string, i: nat) {
    i < |s| && s[i] == '~' ==> i + 1 < |s| && (s[i + 1] == '0' || s[i + 1] == '1')
  }

  /** Every '~' at or after position from is followed by '0' or '1'. */
  predicate TildesEscaped(s: string, from: nat := 0) {
    forall i | from <= i < |s| :: TildeEscaped(s, i)
  }

  function UnescapedAll(ps: seq<string>): seq<string> {
    if ps == [] then [] else UnescapedAll(ps[..|ps| - 1]) + [Unescaped(ps[|ps| - 1])]
  }

  /** What json_pointer makes of a text, or the number of the error it throws. */
  function Parsed(s: string): Result<seq<string>, nat> {
    if s == "" then Ok([])
    else if s[0] != '/' then Err(107)
    else
      var ps := Pieces(s[1..]);
      if AllEscaped(ps) then Ok(UnescapedAll(ps)) else Err(108)
  }

  predicate AllEscaped(ps: seq<string>) {
    forall p | p in ps :: TildesEscaped(p)
  }

  lemma SlashAt(s: string, i: nat)
    ensures IsAt(s, "/", i) <==> i < |s| && s[i] == '/'
  {
  }

  lemma TildeAt(s: string, i: nat)
    ensures IsAt(s, "~", i) <==> i < |s| && s[i] == '~'
  {
  }

  lemma {:induction false} FirstPiece(s: string, k: nat)
    requires k <= |s| && '/' !in s[..k] && (k < |s| ==> s[k] == '/')
    ensures Pieces(s) == [s[..k]] + if k < |s| then Pieces(s[k + 1..]) else []
  {
    if k > 0 {
      assert s[0] in s[..k];
      assert s[1..][..k - 1] == s[..k][1..];
      assert k < |s| ==> s[1..][k..] == s[k + 1..];
      FirstPiece(s[1..], k - 1);
      assert [s[0]] + s[1..][..k - 1] == s[..k];
    } else {
      assert s[..0] == "";
      assert s == "" ==> Pieces(s) == [""];
    }
  }

  /** The check that the parser makes on one stretch before unescaping it. */
  method CheckToken(token: string) returns (ok: bool)
    ensures ok <==> TildesEscaped(token)
  {
    var pos := Find(token, "~", 0);
    ghost var from := 0;
    while pos.Some?
      invariant from <= |token| && pos == Find(token, "~", from)
      invariant TildesEscaped(token) <==> TildesEscaped(token, from)
      decreases |token| - from
    {
      TildeAt(token, pos.value);
      SkipToTilde(token, from, pos.value);
      StepOver(token, pos.value);
      if pos.value == |token| - 1 || (token[pos.value + 1] != '0' && token[pos.value + 1] != '1') {
        return false;
      }
      from := pos.value + 1;
      pos := Find(token, "~", pos.value + 1);
    }
    SkipToTilde(token, from, |token|);
    ok := true;
  }

  lemma StepOver(s: string, i: nat)
    requires i < |s|
    ensures TildesEscaped(s, i) <==> TildeEscaped(s, i) && TildesEscaped(s, i + 1)
  {
  }

  lemma SkipToTilde(s: string, from: nat, to: nat)
    requires from <= to <= |s| && forall i | from <= i < to :: !IsAt(s, "~", i)
    ensures TildesEscaped(s, from) <==> TildesEscaped(s, to)
  {
    forall i | from <= i < to
      ensures TildeEscaped(s, i)
    {
      TildeAt(s, i);
    }
  }

  method Split(s: string) returns (r: Result<seq<string>, nat>)
    ensures r == Parsed(s)
  {
    var result: seq<string> := [];
    if s == "" {
      return Ok(result);
    }
    if s[0] != '/' {
      return Err(107);
    }
    ghost var all, done: seq<string> := Pieces(s[1..]), [];
    var slash, start := Find(s, "/", 1), 1;
    while start != 0
      invariant start <= |s|
      invariant start != 0 ==> slash == Find(s, "/", start)
      invariant all == done + Remaining(s, start)
      invariant AllEscaped(done)
      invariant result == UnescapedAll(done)
      decreases if start == 0 then 0 else |s| + 1 - start
    {
      var token := s[start..if slash.Some? then slash.value else |s|];
      NextPiece(s, start, slash);
      var ok := CheckToken(token);
      if !ok {
        Regrouped(done, token, if slash.Some? then Remaining(s, slash.value + 1) else []);
        NotAllEscaped(all, token);
        return Err(108);
      }
      Snoc(done, token);
      Regrouped(done, token, if slash.Some? then Remaining(s, slash.value + 1) else []);
      done := done + [token];
      token := Unescape(token);
      result := result + [token];
      start := if slash.None? then 0 else slash.value + 1;
      slash := Find(s, "/", start);
    }
    assert all == done;
    r := Ok(result);
  }

  function Remaining(s: string, start: nat): seq<string>
    requires start <= |s|
  {
    if start == 0 then [] else Pieces(s[start..])
  }

  lemma Regrouped(done: seq<string>, token: string, rest: seq<string>)
    ensures done + ([token] + rest) == done + [token] + rest
    ensures token in done + ([token] + rest)
  {
  }

  lemma NotAllEscaped(ps: seq<string>, p: string)
    requires p in ps && !TildesEscaped(p)
    ensures !AllEscaped(ps)
  {
  }

  lemma Snoc(ps: seq<string>, p: string)
    requires AllEscaped(ps) && TildesEscaped(p)
    ensures AllEscaped(ps + [p])
    ensures UnescapedAll(ps + [p]) == UnescapedAll(ps) + [Unescaped(p)]
  {
  }

  lemma NextPiece(s: string, start: nat, slash: Option<nat>)
    requires 0 < start <= |s| && slash == Find(s, "/", start)
    ensures Remaining(s, start) ==
            [s[start..if slash.Some? then slash.value else |s|]]
             + if slash.Some? then Remaining(s, slash.value + 1) else []
  {
    var end := if slash.Some? then slash.value else |s|;
    forall i | start <= i < end
      ensures s[i] != '/'
    {
      SlashAt(s, i);
    }
    SlashAt(s, end);
    assert s[start..][..end - start] == s[start..end];
    assert end < |s| ==> s[start..][end - start + 1..] == s[end + 1..];
    FirstPiece(s[start..], end - start);
  }

  // ---------------------------------------------------------------- round trips

  function Joined(ps: seq<string>): string {
    if ps == [] then "" else Joined(ps[..|ps| - 1]) + "/" + ps[|ps| - 1]
  }

  lemma {:induction false} JoinedFront(p: string, ps: seq<string>)
    ensures Joined([p] + ps) == "/" + p + Joined(ps)
  {
    if ps == [] {
      assert [p] + ps == [p] && [p][..0] == [];
    } else {
      var n := |ps|;
      assert ([p] + ps)[..n] == [p] + ps[..n - 1];
      JoinedFront(p, ps[..n - 1]);
    }
  }

  lemma Regain(c: char, p: string, rest: string, s: string)
    requires "/" + p + rest == "/" + s
    ensures "/" + ([c] + p) + rest == "/" + ([c] + s)
  {
    assert ("/" + p + rest)[1..] == p + rest && ("/" + s)[1..] == s;
  }

  lemma {:induction false} JoinedPieces(s: string)
    ensures Joined(Pieces(s)) == "/" + s
  {
    if s == "" {
      assert [""][..0] == [];
    } else {
      var ps := Pieces(s[1..]);
      JoinedPieces(s[1..]);
      if s[0] == '/' {
        JoinedFront("", ps);
      } else {
        JoinedFront(ps[0], ps[1..]);
        JoinedFront([s[0]] + ps[0], ps[1..]);
        assert ps == [ps[0]] + ps[1..];
        Regain(s[0], ps[0], Joined(ps[1..]), s[1..]);
        assert s == [s[0]] + s[1..];
      }
    }
  }

  lemma {:induction false} PiecesAppend(s: string, p: string)
    requires '/' !in p
    ensures Pieces(s + "/" + p) == Pieces(s) + [p]
  {
    if s == "" {
      assert s + "/" + p == "/" + p;
      assert p[..|p|] == p;
      FirstPiece(p, |p|);
      assert ("/" + p)[1..] == p;
    } else {
      assert (s + "/" + p)[1..] == s[1..] + "/" + p;
      PiecesAppend(s[1..], p);
    }
  }

  lemma JoinedTail(s: string, p: string)
    requires s != ""
    ensures (s + "/" + p)[1..] == s[1..] + "/" + p && (s + "/" + p)[0] == s[0]
  {
  }

  lemma {:induction false} PiecesOfJoined(ps: seq<string>)
    requires ps != [] && forall p | p in ps :: '/' !in p
    ensures Joined(ps) != "" && Joined(ps)[0] == '/' && Pieces(Joined(ps)[1..]) == ps
  {
    var front, last := ps[..|ps| - 1], ps[|ps| - 1];
    if front == [] {
      assert Joined(ps) == "/" + last;
      assert last[..|last|] == last;
      FirstPiece(last, |last|);
      assert ps == [last];
    } else {
      PiecesOfJoined(front);
      JoinedTail(Joined(front), last);
      PiecesAppend(Joined(front)[1..], last);
    }
  }

  /** A string without '/' is a reference token iff its tildes are escaped. */
  lemma {:induction false} ReferenceTokenIff(s: string)
    ensures IsReferenceToken(s) <==> '/' !in s && TildesEscaped(s)
  {
    if s == "" {
    } else if s[0] == '~' && |s| >= 2 {
      TildesHead(s[0], s[1..]);
      TildesHead(s[1], s[2..]);
      ReferenceTokenIff(s[2..]);
      assert s == [s[0]] + s[1..] && s[1..] == [s[1]] + s[2..];
    } else {
      TildesHead(s[0], s[1..]);
      ReferenceTokenIff(s[1..]);
      assert s == [s[0]] + s[1..];
    }
  }

  lemma TildesShift(s: string, k: nat)
    requires k <= |s|
    ensures TildesEscaped(s, k) <==> TildesEscaped(s[k..])
  {
    forall i | k <= i < |s|
      ensures TildeEscaped(s, i) <==> TildeEscaped(s[k..], i - k)
    {
    }
    if TildesEscaped(s, k) {
      forall i | 0 <= i < |s[k..]|
        ensures TildeEscaped(s[k..], i)
      {
        assert TildeEscaped(s, i + k);
      }
    }
  }

  lemma TildesHead(c: char, s: string)
    ensures TildesEscaped([c] + s) <==> (c == '~' ==> s != "" && (s[0] == '0' || s[0] == '1')) && TildesEscaped(s)
  {
    var t := [c] + s;
    TildesShift(t, 1);
    assert t[1..] == s;
    StepOver(t, 0);
  }

  function EscapedAll(tokens: seq<string>): seq<string> {
    if tokens == [] then [] else EscapedAll(tokens[..|tokens| - 1]) + [Escaped(tokens[|tokens| - 1])]
  }

  lemma {:induction false} EscapedAllFacts(tokens: seq<string>)
    ensures PointerText(tokens) == Joined(EscapedAll(tokens))
    ensures |EscapedAll(tokens)| == |tokens|
    ensures forall p | p in EscapedAll(tokens) :: '/' !in p && TildesEscaped(p)
    ensures UnescapedAll(EscapedAll(tokens)) == tokens
  {
    if tokens != [] {
      var front, last := tokens[..|tokens| - 1], tokens[|tokens| - 1];
      EscapedAllFacts(front);
      EscapedToken(last);
      JoinedSnoc(EscapedAll(front), Escaped(last));
      assert EscapedAll(tokens) == EscapedAll(front) + [Escaped(last)];
      assert tokens == front + [last];
    }
  }

  lemma JoinedSnoc(ps: seq<string>, p: string)
    ensures Joined(ps + [p]) == Joined(ps) + "/" + p
    ensures UnescapedAll(ps + [p]) == UnescapedAll(ps) + [Unescaped(p)]
  {
    assert (ps + [p])[..|ps|] == ps;
  }

  lemma EscapedToken(token: string)
    ensures '/' !in Escaped(token) && TildesEscaped(Escaped(token))
    ensures Unescaped(Escaped(token)) == token
  {
    UnescapeUndoesEscape(token);
    EscapeUndoesUnescapeIff(Escaped(token));
    ReferenceTokenIff(Escaped(token));
  }

  lemma {:induction false} EscapedAllOfUnescaped(ps: seq<string>)
    requires forall p | p in ps :: '/' !in p && TildesEscaped(p)
    ensures EscapedAll(UnescapedAll(ps)) == ps
  {
    if ps != [] {
      var front, last := ps[..|ps| - 1], ps[|ps| - 1];
      EscapedAllOfUnescaped(front);
      ReferenceTokenIff(last);
      EscapeUndoesUnescapeIff(last);
      assert ps == front + [last];
      EscapedSnoc(UnescapedAll(front), Unescaped(last));
    }
  }

  lemma EscapedSnoc(tokens: seq<string>, token: string)
    ensures EscapedAll(tokens + [token]) == EscapedAll(tokens) + [Escaped(token)]
  {
    assert (tokens + [token])[..|tokens|] == tokens;
  }

  /** Printing and parsing give back every token list. */
  lemma ParseUndoesPrint(tokens: seq<string>)
    ensures Parsed(PointerText(tokens)) == Ok(tokens)
  {
    EscapedAllFacts(tokens);
    if tokens != [] {
      PiecesOfJoined(EscapedAll(tokens));
    }
  }

  lemma {:induction false} PiecesHaveNoSlash(s: string)
    ensures forall p | p in Pieces(s) :: '/' !in p
  {
    if s != "" {
      PiecesHaveNoSlash(s[1..]);
    }
  }

  /** The pointer syntax of section 3 of RFC 6901. */
  predicate IsPointer(s: string) {
    s == "" || (s[0] == '/' && TildesEscaped(s))
  }

  lemma {:induction false} TildesOfPieces(s: string)
    ensures AllEscaped(Pieces(s)) <==> TildesEscaped(s)
  {
    if s != "" {
      var ps := Pieces(s[1..]);
      TildesOfPieces(s[1..]);
      assert s == [s[0]] + s[1..];
      TildesHead(s[0], s[1..]);
      if s[0] == '/' {
        assert forall p :: p in Pieces(s) <==> p == "" || p in ps;
      } else {
        var head := [s[0]] + ps[0];
        assert forall p :: p in Pieces(s) <==> p == head || p in ps[1..];
        assert forall p :: p in ps <==> p == ps[0] || p in ps[1..];
        TildesHead(s[0], ps[0]);
        HeadOfPieces(s[1..]);
      }
    }
  }

  lemma HeadOfPieces(s: string)
    ensures if s == "" || s[0] == '/' then Pieces(s)[0] == "" else Pieces(s)[0] != "" && Pieces(s)[0][0] == s[0]
  {
  }

  /** A text is accepted iff it is a JSON Pointer, and printing what was parsed gives it back. */
  lemma PrintUndoesParseIff(s: string)
    ensures Parsed(s).Ok? <==> IsPointer(s)
    ensures Parsed(s).Ok? ==> PointerText(Parsed(s).value) == s
  {
    if s != "" && s[0] == '/' {
      var ps := Pieces(s[1..]);
      TildesOfPieces(s[1..]);
      TildesHead(s[0], s[1..]);
      assert s == [s[0]] + s[1..];
      PiecesHaveNoSlash(s[1..]);
      JoinedPieces(s[1..]);
      if Parsed(s).Ok? {
        EscapedAllOfUnescaped(ps);
        EscapedAllFacts(UnescapedAll(ps));
        assert s == "/" + s[1..];
      }
    }
  }

  /** A '~' that is not followed by '0' or '1'. */
  ghost predicate StrayTilde(s: string) {
    exists i :: 0 <= i < |s| && s[i] == '~' && (i + 1 == |s| || s[i + 1] !in "01")
  }

  lemma StrayTildeIff(s: string)
    ensures StrayTilde(s) <==> !TildesEscaped(s)
  {
    if !TildesEscaped(s) {
      var i :| 0 <= i < |s| && !TildeEscaped(s, i);
      assert s[i] == '~';
    }
    if StrayTilde(s) {
      var i :| 0 <= i < |s| && s[i] == '~' && (i + 1 == |s| || s[i + 1] !in "01");
      assert !TildeEscaped(s, i);
    }
  }

  /** Each error of the parser by its own condition. */
  lemma ParseErrorsIff(s: string)
    ensures Parsed(s) == Err(107) <==> s != "" && s[0] != '/'
    ensures Parsed(s) == Err(108) <==> s != "" && s[0] == '/' && StrayTilde(s)
    ensures Parsed(s).Err? ==> Parsed(s).error in {107, 108}
  {
    StrayTildeIff(s);
    if s != "" && s[0] == '/' {
      TildesOfPieces(s[1..]);
      TildesHead(s[0], s[1..]);
      assert s == [s[0]] + s[1..];
    }
  }

  // ---------------------------------------------------------------- array indices

  const SIZE_MAX: nat := 0xFFFF_FFFF_FFFF_FFFF

  predicate IsDigit(c: char) {
    '0' <= c <= '9'
  }

  predicate AllDigits(s: string) {
    forall c | c in s :: IsDigit(c)
  }

  /** std::to_string of an unsigned number. */
  function Decimal(n: nat): string {
    if n < 10 then [('0' as int + n) as char] else Decimal(n / 10) + [('0' as int + n % 10) as char]
  }

  function ValueOf(s: string): nat
    requires AllDigits(s)
  {
    if s == "" then 0
    else
      assert s[|s| - 1] in s;
      10 * ValueOf(s[..|s| - 1]) + (s[|s| - 1] as int - '0' as int)
  }

  /** json_pointer::array_index, with the number of the error it throws. */
  function ArrayIndex(s: string): Result<nat, nat> {
    if |s| > 1 && s[0] == '0' then Err(106)
    else if |s| > 1 && !('1' <= s[0] <= '9') then Err(109)
    else if s == "" || !AllDigits(s) || ValueOf(s) > 0xFFFF_FFFF_FFFF_FFFF then Err(404)
    else if ValueOf(s) >= SIZE_MAX then Err(410)
    else Ok(ValueOf(s))
  }

  lemma {:induction false} DecimalFacts(n: nat)
    ensures Decimal(n) != "" && AllDigits(Decimal(n)) && ValueOf(Decimal(n)) == n
    ensures |Decimal(n)| > 1 ==> Decimal(n)[0] != '0'
    ensures n > 0 ==> Decimal(n)[0] != '0'
  {
    if n >= 10 {
      DecimalFacts(n / 10);
      assert Decimal(n)[..|Decimal(n)| - 1] == Decimal(n / 10);
    } else {
      assert Decimal(n)[..0] == "";
    }
  }

  lemma {:induction false} DecimalOfValue(s: string)
    requires s != "" && AllDigits(s) && (|s| > 1 ==> s[0] != '0')
    ensures Decimal(ValueOf(s)) == s
    ensures s[0] != '0' ==> ValueOf(s) > 0
  {
    var front, last := s[..|s| - 1], s[|s| - 1];
    assert s == front + [last];
    ValueSnoc(front, last);
    if front == "" {
      assert s == [last] && ('0' as int + ValueOf(s)) as char == last;
    } else {
      assert front[0] == s[0];
      DecimalOfValue(front);
      DecimalSnoc(ValueOf(front), last);
    }
  }

  lemma ValueSnoc(s: string, c: char)
    requires AllDigits(s + [c])
    ensures AllDigits(s) && IsDigit(c) && ValueOf(s + [c]) == 10 * ValueOf(s) + (c as int - '0' as int)
  {
    assert c in s + [c] && (s + [c])[..|s|] == s;
    forall d | d in s
      ensures IsDigit(d)
    {
      assert d in s + [c];
    }
  }

  lemma DecimalSnoc(n: nat, c: char)
    requires IsDigit(c) && n > 0
    ensures Decimal(10 * n + (c as int - '0' as int)) == Decimal(n) + [c]
  {
    var d := c as int - '0' as int;
    assert (10 * n + d) / 10 == n && (10 * n + d) % 10 == d;
  }

  /** The index syntax is canonical: the only text for i is its decimal form. */
  lemma ArrayIndexIff(s: string, i: nat)
    ensures ArrayIndex(s) == Ok(i) <==> s == Decimal(i) && i < 0xFFFF_FFFF_FFFF_FFFF
  {
    DecimalFacts(i);
    if ArrayIndex(s).Ok? {
      DecimalOfValue(s);
    }
    if s == Decimal(i) {
      assert s[0] in s;
    }
  }

  /** The decimal form, digit by digit. */
  lemma DecimalDigits(n: nat, d: nat)
    requires d < 10
    ensures Decimal(d) == ["0123456789"[d]]
    ensures n > 0 ==> Decimal(10 * n + d) == Decimal(n) + ["0123456789"[d]]
  {
    assert "0123456789"[d] == ('0' as int + d) as char;
    assert (10 * n + d) / 10 == n && (10 * n + d) % 10 == d;
  }

  /** The decimal form of some number. */
  predicate Canonical(s: string) {
    s != "" && AllDigits(s) && (|s| > 1 ==> s[0] != '0')
  }

  lemma CanonicalIff(s: string)
    ensures Canonical(s) ==> s == Decimal(ValueOf(s))
    ensures forall i: nat | s == Decimal(i) :: Canonical(s) && ValueOf(s) == i
  {
    if Canonical(s) {
      DecimalOfValue(s);
    }
    forall i: nat | s == Decimal(i)
      ensures Canonical(s) && ValueOf(s) == i
    {
      DecimalFacts(i);
    }
  }

  lemma BadStartIff(s: string)
    ensures ArrayIndex(s) == Err(106) <==> |s| > 1 && s[0] == '0'
    ensures ArrayIndex(s) == Err(109) <==> |s| > 1 && s[0] !in "0123456789"
    ensures ArrayIndex(s).Err? ==> ArrayIndex(s).error in {106, 109, 404, 410}
  {
    DigitIff(if s == "" then 'x' else s[0]);
  }

  lemma BadNumberIff(s: string)
    requires !(|s| > 1 && (s[0] == '0' || s[0] !in "0123456789"))
    ensures ArrayIndex(s) == Err(410) <==> Canonical(s) && ValueOf(s) == 0xFFFF_FFFF_FFFF_FFFF
    ensures ArrayIndex(s) == Err(404) <==> !(Canonical(s) && ValueOf(s) <= 0xFFFF_FFFF_FFFF_FFFF)
  {
    DigitIff(if s == "" then 'x' else s[0]);
  }

  /** Each error of the array index by its own condition; 64 bits are read, and the largest is no index. */
  lemma ArrayIndexErrorsIff(s: string)
    ensures ArrayIndex(s) == Err(106) <==> |s| > 1 && s[0] == '0'
    ensures ArrayIndex(s) == Err(109) <==> |s| > 1 && s[0] !in "0123456789"
    ensures ArrayIndex(s) == Err(410) <==> s == Decimal(0xFFFF_FFFF_FFFF_FFFF)
    ensures ArrayIndex(s) == Err(404) <==>
            && !(|s| > 1 && (s[0] == '0' || s[0] !in "0123456789"))
            && !exists i: nat :: i <= 0xFFFF_FFFF_FFFF_FFFF && s == Decimal(i)
    ensures ArrayIndex(s).Err? ==> ArrayIndex(s).error in {106, 109, 404, 410}
  {
    BadStartIff(s);
    CanonicalIff(s);
    if |s| > 1 && (s[0] == '0' || s[0] !in "0123456789") {
      NotCanonical(s);
    } else {
      BadNumberIff(s);
    }
  }

  lemma NotCanonical(s: string)
    requires |s| > 1 && (s[0] == '0' || s[0] !in "0123456789")
    ensures !Canonical(s)
  {
    DigitIff(s[0]);
    assert s[0] in s;
  }

  lemma DigitIff(c: char)
    ensures c in "0123456789" <==> IsDigit(c)
  {
    if IsDigit(c) {
      assert "0123456789"[c as int - '0' as int] == c;
    }
  }
}
