/**
 * The JavaScript string operations the source relies on: `indexOf`, `includes`,
 * `split(sep)[0]` / `split(sep)[1]`, `trim` and `toLowerCase`. Strings are
 * sequences of characters; lowercasing covers ASCII letters only.
 */
module Text {
  import opened Wrappers

  /** `pat` occurs in `s` starting at index `i`. */
  predicate OccursAt(s: string, pat: string, i: int) {
    0 <= i && i + |pat| <= |s| && s[i..i + |pat|] == pat
  }

  /** `s.indexOf(pat)`: the first index where `pat` occurs, or -1. */
  function IndexOf(s: string, pat: string): (r: int)
    ensures -1 <= r <= |s|
    ensures r >= 0 ==> OccursAt(s, pat, r) && forall i :: 0 <= i < r ==> !OccursAt(s, pat, i)
    ensures r == -1 ==> forall i :: !OccursAt(s, pat, i)
    decreases |s|
  {
    if |s| < |pat| then -1
    else if s[..|pat|] == pat then 0
    else
      var k := IndexOf(s[1..], pat);
      assert forall i :: 1 <= i ==> (OccursAt(s, pat, i) <==> OccursAt(s[1..], pat, i - 1));
      if k == -1 then -1 else k + 1
  }

  /** `s.includes(pat)`. */
  predicate Contains(s: string, pat: string) {
    IndexOf(s, pat) >= 0
  }

  /** `s.split(sep)[0]`: the text before the first `sep`, or all of `s`. */
  function SplitHead(s: string, sep: string): (r: string)
    requires |sep| > 0
    ensures r <= s
    ensures !Contains(r, sep)
    ensures r == s || OccursAt(s, sep, |r|)
  {
    var i := IndexOf(s, sep);
    if i < 0 then s
    else
      assert forall j :: OccursAt(s[..i], sep, j) ==> OccursAt(s, sep, j);
      s[..i]
  }

  /** `s.split(sep)[1]`: the text between the first and the second `sep`; none when `sep` does not occur. */
  function SplitSecond(s: string, sep: string): (r: Option<string>)
    requires |sep| > 0
    ensures r.None? <==> !Contains(s, sep)
    ensures r.Some? ==> !Contains(r.value, sep)
  {
    var i := IndexOf(s, sep);
    if i < 0 then None else Some(SplitHead(s[i + |sep|..], sep))
  }

  /** When `pat` does not occur in `a` and `b` does not start with a character of
      `pat`, no occurrence of `pat` in `a + b` starts inside `a`. */
  lemma NoOccurrenceAcross(a: string, b: string, pat: string)
    requires |pat| > 0 && !Contains(a, pat)
    requires b == [] || b[0] !in pat
    ensures forall i :: 0 <= i < |a| ==> !OccursAt(a + b, pat, i)
  {
    forall i | 0 <= i < |a|
      ensures !OccursAt(a + b, pat, i)
    {
      if i + |pat| <= |a| {
        assert (a + b)[i..i + |pat|] == a[i..i + |pat|];
        assert !OccursAt(a, pat, i);
      } else if i + |pat| <= |a + b| {
        assert (a + b)[i..i + |pat|][|a| - i] == b[0];
      }
    }
  }

  /** A character absent from two strings is absent from their concatenation. */
  lemma AbsentFromBoth(a: string, b: string, c: char)
    requires forall i :: 0 <= i < |a| ==> a[i] != c
    requires forall i :: 0 <= i < |b| ==> b[i] != c
    ensures forall i :: 0 <= i < |a + b| ==> (a + b)[i] != c
  {
    forall i | 0 <= i < |a + b|
      ensures (a + b)[i] != c
    {
      if i >= |a| {
        assert (a + b)[i] == b[i - |a|];
      }
    }
  }

  /** `pat` does not occur in a string that lacks one of its characters. */
  lemma AbsentCharExcludes(s: string, pat: string, c: char)
    requires c in pat
    requires forall i :: 0 <= i < |s| ==> s[i] != c
    ensures !Contains(s, pat)
  {
    var k :| 0 <= k < |pat| && pat[k] == c;
    forall i | 0 <= i
      ensures !OccursAt(s, pat, i)
    {
      if i + |pat| <= |s| {
        assert s[i..i + |pat|][k] == s[i + k];
      }
    }
  }

  /** No occurrence of `pat` in `a + b` starts inside `a` when `a` lacks `pat`'s first character. */
  lemma NoStartInside(a: string, b: string, pat: string)
    requires |pat| > 0
    requires forall i :: 0 <= i < |a| ==> a[i] != pat[0]
    ensures forall i :: 0 <= i < |a| ==> !OccursAt(a + b, pat, i)
  {
    forall i | 0 <= i < |a|
      ensures !OccursAt(a + b, pat, i)
    {
      if i + |pat| <= |a + b| {
        assert (a + b)[i..i + |pat|][0] == a[i];
      }
    }
  }

  /** The first occurrence of `pat` in `a + b`, when none starts inside `a`. */
  lemma IndexOfShift(a: string, b: string, pat: string)
    requires forall i :: 0 <= i < |a| ==> !OccursAt(a + b, pat, i)
    ensures IndexOf(a + b, pat) == if IndexOf(b, pat) < 0 then -1 else |a| + IndexOf(b, pat)
  {
    forall i | 0 <= i
      ensures OccursAt(a + b, pat, |a| + i) <==> OccursAt(b, pat, i)
    {
      if OccursAt(b, pat, i) || OccursAt(a + b, pat, |a| + i) {
        assert (a + b)[|a| + i..|a| + i + |pat|] == b[i..i + |pat|];
      }
    }
    var k := IndexOf(a + b, pat);
    if k >= 0 {
      assert OccursAt(b, pat, k - |a|);
    }
  }

  /** `a + b` split at `sep` keeps `a` whole when `sep` cannot start inside `a`
      and `b` is empty or starts with `sep`. */
  lemma SplitHeadStopsAt(a: string, b: string, sep: string)
    requires |sep| > 0 && !Contains(a, sep)
    requires b == [] || sep <= b
    requires b == [] || b[0] !in sep[1..]
    ensures SplitHead(a + b, sep) == a
  {
    forall i | 0 <= i < |a|
      ensures !OccursAt(a + b, sep, i)
    {
      if i + |sep| <= |a| {
        assert (a + b)[i..i + |sep|] == a[i..i + |sep|];
        assert !OccursAt(a, sep, i);
      } else if i + |sep| <= |a + b| {
        assert (a + b)[i..i + |sep|][|a| - i] == b[0];
        assert sep[|a| - i] == sep[1..][|a| - i - 1];
      }
    }
    if b == [] {
      assert a + b == a;
    } else {
      assert (a + b)[|a|..|a| + |sep|] == b[..|sep|];
      assert OccursAt(a + b, sep, |a|);
    }
  }

  // ----- trimming -----

  /** The characters `String.prototype.trim` removes: WhiteSpace and LineTerminator. */
  predicate IsWhitespace(c: char) {
    c == ' ' || c == '\t' || c == '\n' || c == '\r' || c == '\U{000B}' || c == '\U{000C}'
    || c == '\U{00A0}' || c == '\U{1680}' || ('\U{2000}' <= c <= '\U{200A}')
    || c == '\U{2028}' || c == '\U{2029}' || c == '\U{202F}' || c == '\U{205F}'
    || c == '\U{3000}' || c == '\U{FEFF}'
  }

  predicate AllWhitespace(s: string) {
    forall i :: 0 <= i < |s| ==> IsWhitespace(s[i])
  }

  /** `s.trimStart()`. */
  function TrimStart(s: string): string {
    if s != [] && IsWhitespace(s[0]) then TrimStart(s[1..]) else s
  }

  /** `s.trimEnd()`. */
  function TrimEnd(s: string): string {
    if s != [] && IsWhitespace(s[|s| - 1]) then TrimEnd(s[..|s| - 1]) else s
  }

  /** `trimStart` removes a whitespace prefix, and only that: what it leaves is a suffix that does not start with whitespace. */
  lemma {:induction false} TrimStartShape(s: string)
    ensures |TrimStart(s)| <= |s| && TrimStart(s) == s[|s| - |TrimStart(s)|..]
    ensures AllWhitespace(s[..|s| - |TrimStart(s)|])
    ensures TrimStart(s) == [] || !IsWhitespace(TrimStart(s)[0])
  {
    if s != [] && IsWhitespace(s[0]) {
      TrimStartShape(s[1..]);
      var r := TrimStart(s);
      assert s[1..][|s| - 1 - |r|..] == s[|s| - |r|..];
      forall i | 0 <= i < |s| - |r|
        ensures IsWhitespace(s[i])
      {
        if i > 0 {
          assert s[1..][..|s| - 1 - |r|][i - 1] == s[i];
        }
      }
    } else {
      assert s[0..] == s;
    }
  }

  /** `trimEnd` removes a whitespace suffix, and only that: what it leaves is a prefix that does not end with whitespace. */
  lemma {:induction false} TrimEndShape(s: string)
    ensures TrimEnd(s) <= s
    ensures AllWhitespace(s[|TrimEnd(s)|..])
    ensures TrimEnd(s) == [] || !IsWhitespace(TrimEnd(s)[|TrimEnd(s)| - 1])
  {
    if s != [] && IsWhitespace(s[|s| - 1]) {
      var init := s[..|s| - 1];
      TrimEndShape(init);
      var r := TrimEnd(s);
      assert r <= init;
      forall i | |r| <= i < |s|
        ensures IsWhitespace(s[i])
      {
        if i < |s| - 1 {
          assert init[|r|..][i - |r|] == s[i];
        }
      }
    } else {
      assert s[|s|..] == [];
    }
  }

  /** `s.trim()`. */
  function Trim(s: string): string {
    TrimEnd(TrimStart(s))
  }

  /** `!s.trim()`: nothing but whitespace. */
  predicate IsBlank(s: string) {
    Trim(s) == ""
  }

  lemma {:induction false} TrimStartWhitespace(p: string, s: string)
    requires AllWhitespace(p)
    ensures TrimStart(p + s) == TrimStart(s)
  {
    if p != [] {
      assert (p + s)[1..] == p[1..] + s;
      TrimStartWhitespace(p[1..], s);
    } else {
      assert p + s == s;
    }
  }

  lemma {:induction false} TrimEndWhitespace(s: string, q: string)
    requires AllWhitespace(q)
    ensures TrimEnd(s + q) == TrimEnd(s)
  {
    if q != [] {
      assert (s + q)[..|s + q| - 1] == s + q[..|q| - 1];
      TrimEndWhitespace(s, q[..|q| - 1]);
    } else {
      assert s + q == s;
    }
  }

  lemma {:induction false} TrimStartKeepsTail(s: string, q: string)
    requires TrimStart(s) != []
    ensures TrimStart(s + q) == TrimStart(s) + q
  {
    assert (s + q)[0] == s[0];
    if IsWhitespace(s[0]) {
      assert TrimStart(s) == TrimStart(s[1..]);
      assert (s + q)[1..] == s[1..] + q;
      assert TrimStart(s + q) == TrimStart(s[1..] + q);
      TrimStartKeepsTail(s[1..], q);
    } else {
      assert TrimStart(s) == s;
      assert TrimStart(s + q) == s + q;
    }
  }

  /** Leading and trailing whitespace do not change what `trim` leaves. */
  lemma TrimIgnoresPadding(p: string, s: string, q: string)
    requires AllWhitespace(p) && AllWhitespace(q)
    ensures Trim(p + s + q) == Trim(s)
  {
    assert p + s + q == p + (s + q);
    TrimStartWhitespace(p, s + q);
    if TrimStart(s) == [] {
      TrimStartShape(s);
      assert s == s[..|s|];
      assert AllWhitespace(s + q);
      assert s + q == (s + q) + [];
      TrimStartWhitespace(s + q, []);
    } else {
      TrimStartKeepsTail(s, q);
      TrimEndWhitespace(TrimStart(s), q);
    }
  }

  /** A string is blank exactly when every character is whitespace. */
  lemma BlankIffAllWhitespace(s: string)
    ensures IsBlank(s) <==> AllWhitespace(s)
  {
    if AllWhitespace(s) {
      assert s == s + [];
      TrimStartWhitespace(s, []);
    }
    if IsBlank(s) {
      var t := TrimStart(s);
      TrimStartShape(s);
      TrimEndShape(t);
      assert t[0..] == t;
      assert t == [];
      forall i | 0 <= i < |s|
        ensures IsWhitespace(s[i])
      {
        assert s[..|s|][i] == s[i];
      }
    }
  }

  // ----- lowercasing -----

  /** `toLowerCase` on one character, for ASCII letters. */
  function LowerChar(c: char): char {
    if 'A' <= c <= 'Z' then (c as int + 32) as char else c
  }

  /** `s.toLowerCase()` restricted to ASCII letters. */
  function ToLower(s: string): (r: string)
    ensures |r| == |s|
    ensures forall i :: 0 <= i < |s| ==> r[i] == LowerChar(s[i])
  {
    seq(|s|, i requires 0 <= i < |s| => LowerChar(s[i]))
  }

  lemma ToLowerIdempotent(s: string)
    ensures ToLower(ToLower(s)) == ToLower(s)
  {
  }

  lemma {:induction false} TrimStartLower(s: string)
    ensures ToLower(TrimStart(s)) == TrimStart(ToLower(s))
  {
    if s != [] {
      assert ToLower(s)[1..] == ToLower(s[1..]);
      assert IsWhitespace(LowerChar(s[0])) == IsWhitespace(s[0]);
      TrimStartLower(s[1..]);
    }
  }

  lemma {:induction false} TrimEndLower(s: string)
    ensures ToLower(TrimEnd(s)) == TrimEnd(ToLower(s))
  {
    if s != [] {
      assert ToLower(s)[..|s| - 1] == ToLower(s[..|s| - 1]);
      assert IsWhitespace(LowerChar(s[|s| - 1])) == IsWhitespace(s[|s| - 1]);
      TrimEndLower(s[..|s| - 1]);
    }
  }

  /** Lowercasing never creates or removes whitespace, so it commutes with `trim`. */
  lemma TrimLower(s: string)
    ensures ToLower(Trim(s)) == Trim(ToLower(s))
  {
    TrimStartLower(s);
    TrimEndLower(TrimStart(s));
  }
}
