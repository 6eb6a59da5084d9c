/** Decimal text of integers as Python writes it (`str(n)`, `"%d"`, `"{:d}"`) and
    reads it back (`int(s)`), restricted to ASCII digits. */
module Decimal {
  import opened Wrappers

  predicate IsDigit(c: char) { '0' <= c <= '9' }

  /** Python's `str.isspace()`, the whitespace `str.strip()` removes: the ASCII
      controls `\t` to `\r` and the separators U+001C to U+001F, the space, and the
      non-ASCII spaces and line and paragraph separators. */
  predicate IsSpace(c: char) {
    ('\t' <= c <= '\r') || ('\U{1C}' <= c <= ' ')
    || c == '\U{85}' || c == '\U{A0}' || c == '\U{1680}'
    || ('\U{2000}' <= c <= '\U{200A}') || c == '\U{2028}' || c == '\U{2029}'
    || c == '\U{202F}' || c == '\U{205F}' || c == '\U{3000}'
  }

  /** The whitespace `int()` skips around the number: a non-ASCII space is read as a
      space, but the ASCII separators U+001C to U+001F are not whitespace to the
      number parser. */
  predicate IsIntSpace(c: char) {
    IsSpace(c) && !('\U{1C}' <= c <= '\U{1F}')
  }

  predicate AllDigits(s: string) {
    forall i | 0 <= i < |s| :: IsDigit(s[i])
  }

  function DigitChar(d: nat): (c: char)
    requires d < 10
    ensures IsDigit(c)
  {
    (48 + d) as char
  }

  function DigitValue(c: char): (d: nat)
    requires IsDigit(c)
    ensures d < 10
  {
    (c as int - 48) as nat
  }

  /** The decimal digits of `n`, most significant first, without leading zeros. */
  function NatToString(n: nat): (r: string)
    ensures |r| >= 1 && AllDigits(r)
    ensures n >= 10 ==> r[0] != '0'
    decreases n
  {
    if n < 10 then [DigitChar(n)] else NatToString(n / 10) + [DigitChar(n % 10)]
  }

  /** `str(n)` for a Python int. */
  function IntToString(n: int): (r: string)
    ensures |r| >= 1
    ensures n < 0 <==> r[0] == '-'
  {
    if n < 0 then "-" + NatToString(-n) else NatToString(n)
  }

  /** `"{:02d}".format(n)` for `0 <= n < 100`: always exactly two digits. */
  function Pad2(n: nat): (r: string)
    requires n < 100
    ensures |r| == 2 && AllDigits(r)
    ensures DigitsValue(r) == n
  {
    NatToStringValue(n);
    if n < 10 then "0" + NatToString(n) else NatToString(n)
  }

  /** The number a run of digits denotes. */
  function DigitsValue(s: string): nat
    requires AllDigits(s)
  {
    if s == [] then 0 else DigitsValue(s[..|s| - 1]) * 10 + DigitValue(s[|s| - 1])
  }

  lemma {:induction false} NatToStringValue(n: nat)
    ensures DigitsValue(NatToString(n)) == n
    ensures n < 10 ==> NatToString(n) == [DigitChar(n)]
    ensures n < 10 ==> |NatToString(n)| == 1
    ensures 10 <= n < 100 ==> |NatToString(n)| == 2
    decreases n
  {
    if n >= 10 {
      var s := NatToString(n);
      NatToStringValue(n / 10);
      assert s[..|s| - 1] == NatToString(n / 10);
    }
  }

  /** Removes the leading characters that `space` accepts. */
  function StripLeft(s: string, space: char -> bool): (r: string)
    ensures |r| <= |s|
    ensures r != [] ==> !space(r[0])
  {
    if s != [] && space(s[0]) then StripLeft(s[1..], space) else s
  }

  /** Removes the trailing characters that `space` accepts. */
  function StripRight(s: string, space: char -> bool): (r: string)
    ensures |r| <= |s|
    ensures r != [] ==> !space(r[|r| - 1])
  {
    if s != [] && space(s[|s| - 1]) then StripRight(s[..|s| - 1], space) else s
  }

  /** Stripping on the left keeps a suffix of the text and drops only spaces. */
  lemma {:induction false} StripLeftSuffix(s: string, space: char -> bool)
    ensures var k := |s| - |StripLeft(s, space)|;
      StripLeft(s, space) == s[k..] && AllSpace(s[..k], space)
    decreases |s|
  {
    if s != [] && space(s[0]) {
      StripLeftSuffix(s[1..], space);
      var k := |s| - |StripLeft(s, space)|;
      var dropped := s[..k];
      assert forall j | 1 <= j < k :: dropped[j] == s[1..][..k - 1][j - 1];
    }
  }

  /** Stripping on the right keeps a prefix of the text and drops only spaces. */
  lemma {:induction false} StripRightPrefix(s: string, space: char -> bool)
    ensures var k := |StripRight(s, space)|;
      StripRight(s, space) == s[..k] && AllSpace(s[k..], space)
    decreases |s|
  {
    if s != [] && space(s[|s| - 1]) {
      StripRightPrefix(s[..|s| - 1], space);
      var k := |StripRight(s, space)|;
      var dropped := s[k..];
      assert forall j | 0 <= j < |dropped| - 1 :: dropped[j] == s[..|s| - 1][k..][j];
    }
  }

  /** `str.strip()` with no argument: the text between the leading and trailing
      whitespace, which it neither starts nor ends with. */
  function Strip(s: string): (r: string)
    ensures r != [] ==> !IsSpace(r[0]) && !IsSpace(r[|r| - 1])
    ensures var a := |s| - |StripLeft(s, IsSpace)|;
      a + |r| <= |s| && r == s[a..a + |r|] && AllSpace(s[..a], IsSpace) && AllSpace(s[a + |r|..], IsSpace)
  {
    StripBy(s, IsSpace)
  }

  /** Stripping both sides keeps a contiguous middle, which neither starts nor ends
      with a space, and drops only spaces. */
  function StripBy(s: string, space: char -> bool): (r: string)
    ensures r != [] ==> !space(r[0]) && !space(r[|r| - 1])
    ensures var a := |s| - |StripLeft(s, space)|;
      a + |r| <= |s| && r == s[a..a + |r|] && AllSpace(s[..a], space) && AllSpace(s[a + |r|..], space)
  {
    var l := StripLeft(s, space);
    StripLeftSuffix(s, space);
    StripRightPrefix(l, space);
    var r := StripRight(l, space);
    var a := |s| - |l|;
    assert r == s[a..a + |r|];
    assert s[a + |r|..] == l[|r|..];
    r
  }

  /** Every character of `t` is a space in the given sense. */
  predicate AllSpace(t: string, space: char -> bool) {
    forall i | 0 <= i < |t| :: space(t[i])
  }

  /** `int(s)` for a base-10 string: surrounding whitespace, an optional sign and at
      least one digit; anything else is `None` (Python raises `ValueError`). Digit
      group underscores and non-ASCII digits are not modelled. */
  function ParseInt(s: string): (r: Option<int>)
    ensures r.Some? ==> exists i | 0 <= i < |s| :: IsDigit(s[i])
  {
    var l := StripLeft(s, IsIntSpace);
    var t := StripRight(l, IsIntSpace);
    var r := ParseSigned(t);
    assert r.Some? ==> t[|t| - 1] == s[|s| - |l| + |t| - 1] by {
      if r.Some? {
        StripLeftSuffix(s, IsIntSpace);
        StripRightPrefix(l, IsIntSpace);
        assert t == s[|s| - |l|..][..|t|];
      }
    }
    r
  }

  /** `int` after stripping: an optional sign, then digits only. */
  function ParseSigned(t: string): (r: Option<int>)
    ensures r.Some? ==> t != [] && IsDigit(t[|t| - 1])
  {
    if t == [] then None
    else
      var body := if t[0] == '-' || t[0] == '+' then t[1..] else t;
      if body == [] || !AllDigits(body) then None
      else
        assert body[|body| - 1] == t[|t| - 1];
        Some(if t[0] == '-' then -(DigitsValue(body) as int) else DigitsValue(body) as int)
  }

  /** Text that starts and ends with a non-space is its own `strip()`, for either
      notion of space. */
  lemma {:induction false} StripFixed(s: string)
    requires s != [] && !IsSpace(s[0]) && !IsSpace(s[|s| - 1])
    ensures Strip(s) == s
    ensures StripRight(StripLeft(s, IsIntSpace), IsIntSpace) == s
  {
    KeepsEnds(s, IsSpace);
    KeepsEnds(s, IsIntSpace);
  }

  lemma {:induction false} KeepsEnds(s: string, space: char -> bool)
    requires s != [] && !space(s[0]) && !space(s[|s| - 1])
    ensures StripLeft(s, space) == s && StripRight(s, space) == s
    ensures StripBy(s, space) == s
  {
  }

  /** `int` skips a leading space of its own kind, non-ASCII ones included. */
  lemma {:induction false} SpaceBeforeDigits(c: char, d: string)
    requires IsIntSpace(c) && d != [] && AllDigits(d)
    ensures ParseInt([c] + d) == Some(DigitsValue(d))
  {
    var s := [c] + d;
    assert s[1..] == d && IsDigit(d[0]) && IsDigit(d[|d| - 1]);
    assert StripLeft(d, IsIntSpace) == d;
    assert StripLeft(s, IsIntSpace) == d;
    assert StripRight(d, IsIntSpace) == d;
    SignedDigits(d);
  }

  /** A separator U+001C to U+001F is whitespace to `strip()` but not to `int()`. */
  lemma {:induction false} SeparatorBeforeDigits(c: char, d: string)
    requires '\U{1C}' <= c <= '\U{1F}' && d != [] && AllDigits(d)
    ensures Strip([c] + d) == d
    ensures ParseInt([c] + d) == None
  {
    var s := [c] + d;
    assert s[1..] == d && IsDigit(d[0]) && IsDigit(d[|d| - 1]);
    KeepsEnds(d, IsSpace);
    assert StripLeft(s, IsSpace) == StripLeft(d, IsSpace);
    assert s[|s| - 1] == d[|d| - 1];
    KeepsEnds(s, IsIntSpace);
    assert !IsDigit(s[0]);
  }

  /** `int` of a plain run of digits is the number they denote. */
  lemma {:induction false} ParseDigits(s: string)
    requires s != [] && AllDigits(s)
    ensures ParseInt(s) == Some(DigitsValue(s))
  {
    assert IsDigit(s[0]) && IsDigit(s[|s| - 1]);
    StripFixed(s);
    SignedDigits(s);
  }

  lemma {:induction false} SignedDigits(d: string)
    requires d != [] && AllDigits(d)
    ensures ParseSigned(d) == Some(DigitsValue(d))
  {
    assert IsDigit(d[0]);
  }

  lemma {:induction false} SignedNegative(d: string)
    requires d != [] && AllDigits(d)
    ensures ParseSigned("-" + d) == Some(-(DigitsValue(d) as int))
  {
    assert ("-" + d)[1..] == d;
  }

  /** Reading `str(n)` back with `int` gives `n`. */
  lemma {:induction false} IntToStringRoundTrip(n: int)
    ensures ParseInt(IntToString(n)) == Some(n)
  {
    if n < 0 {
      NegativeRoundTrip(n);
    } else {
      NatToStringValue(n);
      ParseDigits(NatToString(n));
    }
  }

  lemma {:induction false} NegativeRoundTrip(n: int)
    requires n < 0
    ensures ParseInt(IntToString(n)) == Some(n)
  {
    var d := NatToString(-n);
    var s := "-" + d;
    assert IntToString(n) == s;
    NatToStringValue(-n);
    assert s[|s| - 1] == d[|d| - 1] && IsDigit(d[|d| - 1]);
    StripFixed(s);
    SignedNegative(d);
  }
}
