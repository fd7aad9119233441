/** The in-place string replacement and the JSON Pointer escaping built on it (detail/string_escape.hpp). */
module StringEscape {
  import opened Common

  predicate IsAt(s: string, f: string, i: nat) {
    i + |f| <= |s| && s[i..i + |f|] == f
  }

  /** std::string::find: the first occurrence of f in s at or after pos. */
  function Find(s: string, f: string, pos: nat): (r: Option<nat>)
    ensures r.Some? ==> pos <= r.value && IsAt(s, f, r.value)
    ensures forall i | pos <= i && (r.Some? ==> i < r.value) :: !IsAt(s, f, i)
    decreases |s| - pos
  {
    if pos + |f| > |s| then None
    else if IsAt(s, f, pos) then Some(pos)
    else Find(s, f, pos + 1)
  }

  /** Left-to-right replacement of non-overlapping occurrences, without any search. */
  function Replaced(s: string, f: string, t: string): string
    requires f != ""
  {
    if s == "" then ""
    else if IsAt(s, f, 0) then t + Replaced(s[|f|..], f, t)
    else [s[0]] + Replaced(s[1..], f, t)
  }

  function Occurrences(s: string, f: string): nat
    requires f != ""
  {
    if s == "" then 0
    else if IsAt(s, f, 0) then 1 + Occurrences(s[|f|..], f)
    else Occurrences(s[1..], f)
  }

  lemma OneMore(n: int, d: int)
    ensures (1 + n) * d == d + n * d
  {
  }

  lemma {:induction false} ReplacedLength(s: string, f: string, t: string)
    requires f != ""
    ensures |Replaced(s, f, t)| == |s| + Occurrences(s, f) * (|t| - |f|)
  {
    if s == "" {
    } else if IsAt(s, f, 0) {
      ReplacedLength(s[|f|..], f, t);
      OneMore(Occurrences(s[|f|..], f), |t| - |f|);
    } else {
      ReplacedLength(s[1..], f, t);
    }
  }

  /** Text before the first occurrence is copied. */
  lemma {:induction false} ReplacedSkips(s: string, f: string, t: string, k: nat)
    requires f != "" && k <= |s| && forall i | 0 <= i < k :: !IsAt(s, f, i)
    ensures Replaced(s, f, t) == s[..k] + Replaced(s[k..], f, t)
  {
    if k == 0 {
      assert s[0..] == s;
    } else {
      assert !IsAt(s, f, 0);
      forall i | 0 <= i < k - 1
        ensures !IsAt(s[1..], f, i)
      {
        IsAtSuffix(s, f, 1, i);
      }
      ReplacedSkips(s[1..], f, t, k - 1);
      assert s[1..][k - 1..] == s[k..];
      assert s[..k] == [s[0]] + s[1..][..k - 1];
    }
  }

  lemma IsAtSuffix(s: string, f: string, c: nat, i: nat)
    requires c <= |s|
    ensures IsAt(s[c..], f, i) <==> IsAt(s, f, c + i)
  {
  }

  lemma ReplacedFirst(s: string, f: string, t: string, k: nat)
    requires f != "" && IsAt(s, f, k) && forall i | 0 <= i < k :: !IsAt(s, f, i)
    ensures Replaced(s, f, t) == s[..k] + t + Replaced(s[k + |f|..], f, t)
  {
    ReplacedSkips(s, f, t, k);
    IsAtSuffix(s, f, k, 0);
    ReplacedHit(s[k..], f, t);
    SuffixOfSuffix(s, k, |f|);
    Regroup(s[..k], s[..k], t, Replaced(s[k + |f|..], f, t));
  }

  lemma ReplacedHit(u: string, f: string, t: string)
    requires f != "" && IsAt(u, f, 0)
    ensures Replaced(u, f, t) == t + Replaced(u[|f|..], f, t)
  {
  }

  lemma SuffixOfSuffix(s: string, k: nat, n: nat)
    requires k + n <= |s|
    ensures s[k..][n..] == s[k + n..]
  {
  }

  /** One turn of the loop: everything up to the end of the inserted text is final. */
  lemma Advance(s: string, f: string, t: string, c: nat, p: nat)
    requires f != "" && c <= p && IsAt(s, f, p) && forall i | c <= i < p :: !IsAt(s, f, i)
    ensures s[..c] + Replaced(s[c..], f, t) == s[..p] + t + Replaced(s[p + |f|..], f, t)
  {
    var u, q := s[c..], p - c;
    SuffixFirst(s, f, c, q);
    ReplacedFirst(u, f, t, q);
    SuffixParts(s, c, q, |f|);
    Append(s[..c], u[..q], t, Replaced(u[q + |f|..], f, t), s[..p]);
  }

  lemma Append(a: string, b: string, c: string, d: string, ab: string)
    requires a + b == ab
    ensures a + (b + c + d) == ab + c + d
  {
    Regroup(a, b, c, d);
  }

  lemma SuffixFirst(s: string, f: string, c: nat, q: nat)
    requires IsAt(s, f, c + q) && forall i | c <= i < c + q :: !IsAt(s, f, i)
    ensures IsAt(s[c..], f, q) && forall i | 0 <= i < q :: !IsAt(s[c..], f, i)
  {
    IsAtSuffix(s, f, c, q);
    forall i | 0 <= i < q
      ensures !IsAt(s[c..], f, i)
    {
      IsAtSuffix(s, f, c, i);
    }
  }

  lemma SuffixParts(s: string, c: nat, q: nat, n: nat)
    requires c + q + n <= |s|
    ensures s[..c] + s[c..][..q] == s[..c + q] && s[c..][q + n..] == s[c + q + n..]
  {
  }

  lemma Regroup(a: string, b: string, c: string, d: string)
    ensures a + (b + c + d) == a + b + c + d && b + (c + d) == b + c + d
  {
  }

  /** No occurrence is left behind the point the loop has reached. */
  lemma NothingLeft(s: string, f: string, t: string, c: nat)
    requires f != "" && c <= |s| && forall i | c <= i :: !IsAt(s, f, i)
    ensures s[..c] + Replaced(s[c..], f, t) == s
  {
    forall i | 0 <= i < |s| - c
      ensures !IsAt(s[c..], f, i)
    {
      IsAtSuffix(s, f, c, i);
    }
    ReplacedSkips(s[c..], f, t, |s| - c);
    assert s[c..][|s| - c..] == "";
  }

  method ReplaceSubstring(s0: string, f: string, t: string) returns (s: string)
    requires f != ""
    ensures s == Replaced(s0, f, t)
  {
    s := s0;
    ghost var c := 0;
    var pos := Find(s, f, 0);
    while pos.Some?
      invariant c <= |s| && pos == Find(s, f, c)
      invariant Replaced(s0, f, t) == s[..c] + Replaced(s[c..], f, t)
      decreases |s| - c
    {
      Advance(s, f, t, c, pos.value);
      ghost var before := s;
      s := s[..pos.value] + t + s[pos.value + |f|..];
      c := pos.value + |t|;
      assert s[..c] == before[..pos.value] + t && s[c..] == before[pos.value + |f|..];
      pos := Find(s, f, pos.value + |t|);
    }
    NothingLeft(s, f, t, c);
  }

  /** The two passes of escape and of unescape. */
  function Escaped(s: string): string {
    Replaced(Replaced(s, "~", "~0"), "/", "~1")
  }

  function Unescaped(s: string): string {
    Replaced(Replaced(s, "~1", "/"), "~0", "~")
  }

  // ---------------------------------------------------------------- one-pass readings, section 4 of RFC 6901

  function EscapedChar(c: char): string {
    if c == '~' then "~0" else if c == '/' then "~1" else [c]
  }

  function EscapedByChar(s: string): string {
    if s == "" then "" else EscapedChar(s[0]) + EscapedByChar(s[1..])
  }

  /** Reads each two-character escape once, from left to right. */
  function Decoded(s: string): string {
    if s == "" then ""
    else if |s| >= 2 && s[0] == '~' && s[1] == '1' then "/" + Decoded(s[2..])
    else if |s| >= 2 && s[0] == '~' && s[1] == '0' then "~" + Decoded(s[2..])
    else [s[0]] + Decoded(s[1..])
  }

  /** The reference-token form of section 3 of RFC 6901: no '/', and '~' only before '0' or '1'. */
  predicate IsReferenceToken(s: string) {
    s == "" ||
    if s[0] == '~' then |s| >= 2 && (s[1] == '0' || s[1] == '1') && IsReferenceToken(s[2..])
    else s[0] != '/' && IsReferenceToken(s[1..])
  }

  lemma ReplacedOne(c: char, s: string, f: char, t: string)
    ensures Replaced([c] + s, [f], t) == (if c == f then t else [c]) + Replaced(s, [f], t)
  {
  }

  lemma ReplacedTwo(c: char, s: string, f: char, g: char, t: string)
    requires c != f || s == "" || s[0] != g
    ensures Replaced([c] + s, [f, g], t) == [c] + Replaced(s, [f, g], t)
  {
    var w := [c] + s;
    assert w[0] == c && w[1..] == s && (s != "" ==> w[1] == s[0]);
    assert !IsAt(w, [f, g], 0);
  }

  lemma ReplacedTwoHit(s: string, f: char, g: char, t: string)
    ensures Replaced([f, g] + s, [f, g], t) == t + Replaced(s, [f, g], t)
  {
    var w := [f, g] + s;
    assert w[0..0 + 2] == [f, g] && w[2..] == s;
    ReplacedHit(w, [f, g], t);
  }

  /** The second pass over what the first made of one character. */
  lemma SecondPass(c: char, rest: string)
    ensures Replaced((if c == '~' then "~0" else [c]) + rest, "/", "~1") ==
            EscapedChar(c) + Replaced(rest, "/", "~1")
  {
    if c == '~' {
      assert "~0" + rest == ['~'] + (['0'] + rest);
      ReplacedOne('~', ['0'] + rest, '/', "~1");
      ReplacedOne('0', rest, '/', "~1");
      assert ['~'] + (['0'] + Replaced(rest, "/", "~1")) == "~0" + Replaced(rest, "/", "~1");
    } else {
      ReplacedOne(c, rest, '/', "~1");
    }
  }

  lemma {:induction false} EscapeIsCharwise(s: string)
    ensures Escaped(s) == EscapedByChar(s)
  {
    if s != "" {
      assert s == [s[0]] + s[1..];
      ReplacedOne(s[0], s[1..], '~', "~0");
      SecondPass(s[0], Replaced(s[1..], "~", "~0"));
      EscapeIsCharwise(s[1..]);
    }
  }

  /** The first pass never creates or hides a '0' right after the head. */
  lemma FirstPassHead(s: string)
    ensures var r := Replaced(s, "~1", "/"); r == "" <==> s == ""
    ensures var r := Replaced(s, "~1", "/"); s != "" ==> r[0] == s[0] || r[0] == '/'
  {
  }

  /** The two passes of unescape together decode each escape exactly once. */
  lemma {:induction false} UnescapeDecodes(s: string)
    ensures Unescaped(s) == Decoded(s)
  {
    if s == "" {
    } else if |s| >= 2 && s[0] == '~' && s[1] == '1' {
      assert s == ['~', '1'] + s[2..];
      ReplacedTwoHit(s[2..], '~', '1', "/");
      ReplacedTwo('/', Replaced(s[2..], "~1", "/"), '~', '0', "~");
      UnescapeDecodes(s[2..]);
    } else if |s| >= 2 && s[0] == '~' && s[1] == '0' {
      var rest := Replaced(s[2..], "~1", "/");
      assert s == ['~'] + (['0'] + s[2..]);
      ReplacedTwo('~', ['0'] + s[2..], '~', '1', "/");
      ReplacedTwo('0', s[2..], '~', '1', "/");
      assert ['~'] + (['0'] + rest) == ['~', '0'] + rest;
      ReplacedTwoHit(rest, '~', '0', "~");
      UnescapeDecodes(s[2..]);
    } else {
      assert s == [s[0]] + s[1..];
      ReplacedTwo(s[0], s[1..], '~', '1', "/");
      FirstPassHead(s[1..]);
      ReplacedTwo(s[0], Replaced(s[1..], "~1", "/"), '~', '0', "~");
      UnescapeDecodes(s[1..]);
    }
  }

  lemma {:induction false} DecodedEscapedByChar(s: string)
    ensures Decoded(EscapedByChar(s)) == s && IsReferenceToken(EscapedByChar(s))
  {
    if s != "" {
      DecodedEscapedByChar(s[1..]);
      var e := EscapedByChar(s);
      if s[0] == '~' || s[0] == '/' {
        assert e[2..] == EscapedByChar(s[1..]);
      } else {
        assert e[1..] == EscapedByChar(s[1..]);
      }
    }
  }

  lemma {:induction false} EscapedByCharDecoded(s: string)
    requires IsReferenceToken(s)
    ensures EscapedByChar(Decoded(s)) == s
  {
    if s == "" {
    } else if s[0] == '~' {
      EscapedByCharDecoded(s[2..]);
      assert Decoded(s)[1..] == Decoded(s[2..]);
      assert s == [s[0], s[1]] + s[2..];
    } else {
      EscapedByCharDecoded(s[1..]);
      assert Decoded(s)[1..] == Decoded(s[1..]);
    }
  }

  method Escape(s: string) returns (r: string)
    ensures r == Escaped(s) == EscapedByChar(s)
  {
    r := ReplaceSubstring(s, "~", "~0");
    r := ReplaceSubstring(r, "/", "~1");
    EscapeIsCharwise(s);
  }

  method Unescape(s: string) returns (r: string)
    ensures r == Unescaped(s) == Decoded(s)
  {
    r := ReplaceSubstring(s, "~1", "/");
    r := ReplaceSubstring(r, "~0", "~");
    UnescapeDecodes(s);
  }

  /** What becomes of each character, as section 3 of RFC 6901 has it, and of a string put together from two. */
  lemma {:induction false} EscapeOfEach(a: string, b: string, c: char)
    ensures Escaped("~") == "~0" && Escaped("/") == "~1" && (c !in "~/" ==> Escaped([c]) == [c])
    ensures Escaped(a + b) == Escaped(a) + Escaped(b)
  {
    EscapeIsCharwise("~");
    EscapeIsCharwise("/");
    EscapeIsCharwise([c]);
    EscapeIsCharwise(a);
    EscapeIsCharwise(b);
    EscapeIsCharwise(a + b);
    ByCharConcat(a, b);
  }

  lemma {:induction false} ByCharConcat(a: string, b: string)
    ensures EscapedByChar(a + b) == EscapedByChar(a) + EscapedByChar(b)
  {
    if a == "" {
      assert a + b == b;
    } else {
      assert (a + b)[1..] == a[1..] + b;
      ByCharConcat(a[1..], b);
    }
  }

  /** The law of section 4 of RFC 6901, on every string. */
  lemma UnescapeUndoesEscape(s: string)
    ensures Unescaped(Escaped(s)) == s
  {
    EscapeIsCharwise(s);
    UnescapeDecodes(Escaped(s));
    DecodedEscapedByChar(s);
  }

  /** The other way round it holds exactly for reference tokens, which are exactly the image of escape. */
  lemma EscapeUndoesUnescapeIff(t: string)
    ensures Escaped(Unescaped(t)) == t <==> IsReferenceToken(t)
    ensures (exists s :: Escaped(s) == t) <==> IsReferenceToken(t)
  {
    UnescapeDecodes(t);
    EscapeIsCharwise(Unescaped(t));
    DecodedEscapedByChar(Unescaped(t));
    if IsReferenceToken(t) {
      EscapedByCharDecoded(t);
    }
    forall s | Escaped(s) == t
      ensures IsReferenceToken(t)
    {
      EscapeIsCharwise(s);
      DecodedEscapedByChar(s);
    }
  }

  /** Swapping the two passes of either function loses the law, on the string "~1" and on "/". */
  lemma PassOrderMatters()
    ensures Replaced(Replaced(Escaped("~1"), "~0", "~"), "~1", "/") != "~1"
    ensures Unescaped(Replaced(Replaced("/", "/", "~1"), "~", "~0")) != "/"
  {
  }
}
