/** Text helpers the session engine relies on: Python's decimal rendering of
    integers inside f-strings, `str.strip()`, `str.lower()` and the substring
    test `pat in s`.  Python's versions are Unicode-aware; these are the ASCII
    parts of them. */
module Text {

  // ----- Decimal rendering (str(int) inside an f-string) -----

  predicate IsDigit(c: char) {
    '0' <= c <= '9'
  }

  predicate AllDigits(s: string) {
    forall k :: 0 <= k < |s| ==> IsDigit(s[k])
  }

  function DigitChar(d: nat): (c: char)
    requires d < 10
    ensures IsDigit(c) && DigitValue(c) == d
  {
    ('0' as int + d) as char
  }

  function DigitValue(c: char): nat
    requires IsDigit(c)
  {
    c as int - '0' as int
  }

  /** The decimal digits of `n`, most significant first, no leading zero. */
  function NatToString(n: nat): (r: string)
    ensures r != [] && AllDigits(r)
    ensures |r| > 1 ==> r[0] != '0'
    ensures r[0] == '0' <==> n == 0
  {
    if n < 10 then [DigitChar(n)] else NatToString(n / 10) + [DigitChar(n % 10)]
  }

  /** The value of a string of decimal digits (the inverse of NatToString). */
  function ParseDigits(s: string): nat
    requires AllDigits(s)
  {
    if s == [] then 0 else 10 * ParseDigits(s[..|s| - 1]) + DigitValue(s[|s| - 1])
  }

  lemma {:induction false} ParseNatToString(n: nat)
    ensures ParseDigits(NatToString(n)) == n
  {
    var r := NatToString(n);
    if n < 10 {
      assert r[..|r| - 1] == [];
    } else {
      ParseNatToString(n / 10);
      assert r[..|r| - 1] == NatToString(n / 10);
    }
  }

  lemma NatToStringInjective(m: nat, n: nat)
    requires NatToString(m) == NatToString(n)
    ensures m == n
  {
    ParseNatToString(m);
    ParseNatToString(n);
  }

  /** Two texts built as `x + [sep] + y`, where `sep` is not a digit and `x`,
      `x'` are digit strings, are split at the same place. */
  lemma {:induction false} SplitAfterDigits(x: string, y: string, x': string, y': string, sep: char)
    requires AllDigits(x) && AllDigits(x') && !IsDigit(sep)
    requires x + [sep] + y == x' + [sep] + y'
    ensures x == x' && y == y'
  {
    var t := x + [sep] + y;
    assert t[|x|] == sep && t[|x'|] == sep;
    assert |x| == |x'|;
    assert x == t[..|x|] == x';
    assert y == t[|x| + 1..] == y';
  }

  // ----- Whitespace stripping (str.strip() with no argument) -----

  /** The characters below 128 for which Python's `str.isspace()` holds. */
  predicate IsSpace(c: char)
    ensures IsSpace(c) ==> c <= ' '
  {
    c == ' ' || c == '\t' || c == '\n' || c == '\r' || c == '\U{B}' || c == '\U{C}'
    || ('\U{1C}' <= c <= '\U{1F}')
  }

  predicate AllSpace(s: string) {
    forall k :: 0 <= k < |s| ==> IsSpace(s[k])
  }

  /** `s` without its leading whitespace. */
  function TrimLeft(s: string): string {
    if s != [] && IsSpace(s[0]) then TrimLeft(s[1..]) else s
  }

  /** `s` without its trailing whitespace. */
  function TrimRight(s: string): string {
    if s != [] && IsSpace(s[|s| - 1]) then TrimRight(s[..|s| - 1]) else s
  }

  /** `s.strip()`: at most as long as `s`, and neither end of the result is
      whitespace (StripIsMiddle says which slice of `s` it is). */
  function Strip(s: string): (r: string)
    ensures |r| <= |s|
    ensures r != [] ==> !IsSpace(r[0]) && !IsSpace(r[|r| - 1])
  {
    TrimLeftSpec(s);
    TrimRightSpec(TrimLeft(s));
    TrimRight(TrimLeft(s))
  }

  /** TrimLeft returns a suffix of `s`; what it dropped is whitespace, and
      what it kept does not start with whitespace. */
  lemma {:induction false} TrimLeftSpec(s: string)
    ensures var r := TrimLeft(s);
      |r| <= |s| && r == s[|s| - |r|..] && AllSpace(s[..|s| - |r|])
      && (r != [] ==> !IsSpace(r[0]))
  {
    if s != [] && IsSpace(s[0]) {
      TrimLeftSpec(s[1..]);
      var r := TrimLeft(s[1..]);
      assert s[1..][|s| - 1 - |r|..] == s[|s| - |r|..];
      assert s[..|s| - |r|] == [s[0]] + s[1..][..|s| - 1 - |r|];
    } else {
      assert s[..0] == [];
    }
  }

  /** TrimRight returns a prefix of `s`; what it dropped is whitespace, and
      what it kept does not end with whitespace. */
  lemma {:induction false} TrimRightSpec(s: string)
    ensures var r := TrimRight(s);
      |r| <= |s| && r == s[..|r|] && AllSpace(s[|r|..])
      && (r != [] ==> !IsSpace(r[|r| - 1]))
  {
    if s != [] && IsSpace(s[|s| - 1]) {
      var t := s[..|s| - 1];
      TrimRightSpec(t);
      var r := TrimRight(t);
      assert t[..|r|] == s[..|r|];
      assert s[|r|..] == t[|r|..] + [s[|s| - 1]];
    } else {
      assert s[..|s|] == s;
    }
  }

  /** Strip keeps exactly the middle of `s` between its leading and trailing
      whitespace: a slice s[i..j] with only whitespace outside it and no
      whitespace at either end of it. */
  lemma StripIsMiddle(s: string)
    ensures var r := Strip(s);
      exists i, j :: 0 <= i <= j <= |s| && r == s[i..j]
        && AllSpace(s[..i]) && AllSpace(s[j..])
        && (r != [] ==> !IsSpace(r[0]) && !IsSpace(r[|r| - 1]))
  {
    var l := TrimLeft(s);
    TrimLeftSpec(s);
    var r := TrimRight(l);
    TrimRightSpec(l);
    var i := |s| - |l|;
    var j := i + |r|;
    assert l == s[i..];
    assert r == l[..|r|] == s[i..j];
    assert s[j..] == l[|r|..];
    assert r != [] ==> r[0] == l[0];
    assert 0 <= i <= j <= |s| && r == s[i..j] && AllSpace(s[..i]) && AllSpace(s[j..])
      && (r != [] ==> !IsSpace(r[0]) && !IsSpace(r[|r| - 1]));
  }

  /** Padding a text that has no whitespace at its ends with whitespace on
      either side does not change what Strip returns. */
  lemma {:induction false} StripPadded(p: string, t: string, q: string)
    requires AllSpace(p) && AllSpace(q)
    requires t != [] ==> !IsSpace(t[0]) && !IsSpace(t[|t| - 1])
    ensures Strip(p + t + q) == t
  {
    if t == [] {
      assert p + t + q == p + q;
      assert AllSpace(p + q);
      TrimLeftSpec(p + q);
    } else {
      TrimLeftPadded(p, t + q);
      assert p + t + q == p + (t + q);
      TrimRightPadded(t, q);
    }
  }

  lemma {:induction false} TrimLeftPadded(p: string, u: string)
    requires AllSpace(p)
    requires u != [] ==> !IsSpace(u[0])
    ensures TrimLeft(p + u) == u
  {
    if p != [] {
      assert (p + u)[1..] == p[1..] + u;
      TrimLeftPadded(p[1..], u);
    } else {
      assert p + u == u;
    }
  }

  lemma {:induction false} TrimRightPadded(t: string, q: string)
    requires AllSpace(q)
    requires t != [] ==> !IsSpace(t[|t| - 1])
    ensures TrimRight(t + q) == t
  {
    if q != [] {
      assert (t + q)[..|t + q| - 1] == t + q[..|q| - 1];
      TrimRightPadded(t, q[..|q| - 1]);
    } else {
      assert t + q == t;
    }
  }

  // ----- Lower-casing (str.lower()) -----

  function LowerChar(c: char): char {
    if 'A' <= c <= 'Z' then (c as int - 'A' as int + 'a' as int) as char else c
  }

  /** Every character of `s` lower-cased; the length is kept (LowerSpec gives
      the character at each position). */
  function Lower(s: string): (r: string)
    ensures |r| == |s|
  {
    if s == [] then [] else [LowerChar(s[0])] + Lower(s[1..])
  }

  /** Lower works position by position. */
  lemma {:induction false} LowerSpec(s: string)
    ensures |Lower(s)| == |s|
    ensures forall k :: 0 <= k < |s| ==> Lower(s)[k] == LowerChar(s[k])
  {
    if s != [] {
      LowerSpec(s[1..]);
    }
  }

  /** Equal up to ASCII case, character by character. */
  predicate EqualIgnoringCase(x: string, y: string) {
    |x| == |y| && forall k :: 0 <= k < |x| ==> LowerChar(x[k]) == LowerChar(y[k])
  }

  lemma LowerEqIff(x: string, y: string)
    ensures Lower(x) == Lower(y) <==> EqualIgnoringCase(x, y)
  {
    LowerSpec(x);
    LowerSpec(y);
    if EqualIgnoringCase(x, y) {
      assert forall k :: 0 <= k < |x| ==> Lower(x)[k] == Lower(y)[k];
    }
    if Lower(x) == Lower(y) {
      assert forall k :: 0 <= k < |x| ==> LowerChar(x[k]) == Lower(x)[k];
    }
  }

  // ----- Substring test (`pat in s`) -----

  /** `pat` occurs in `s` starting at position `i`. */
  predicate OccursAt(s: string, pat: string, i: int) {
    0 <= i <= |s| - |pat| && s[i..i + |pat|] == pat
  }

  /** Whether `pat` occurs somewhere in `s`, scanning start positions left to right. */
  function Contains(s: string, pat: string): (r: bool)
    ensures r ==> |pat| <= |s|
    ensures pat == [] ==> r
    decreases |s|
  {
    if |pat| <= |s| && s[..|pat|] == pat then true
    else if s == [] then false
    else Contains(s[1..], pat)
  }

  /** Contains holds exactly when `pat` occurs in `s` at some position. */
  lemma {:induction false} ContainsIff(s: string, pat: string)
    ensures Contains(s, pat) <==> exists i :: OccursAt(s, pat, i)
    decreases |s|
  {
    if |pat| <= |s| && s[..|pat|] == pat {
      assert OccursAt(s, pat, 0);
    } else if s == [] {
      assert forall i :: !OccursAt(s, pat, i);
    } else {
      ContainsIff(s[1..], pat);
      if exists i :: OccursAt(s, pat, i) {
        var i :| OccursAt(s, pat, i);
        assert i != 0;
        assert OccursAt(s[1..], pat, i - 1);
      }
      if exists i :: OccursAt(s[1..], pat, i) {
        var i :| OccursAt(s[1..], pat, i);
        assert OccursAt(s, pat, i + 1);
      }
    }
  }
}
