/** Character classes and string helpers that the Python code gets from
    `str`: `isspace`, `strip`, `replace`, decimal `str(int)` and `int(str)`. */
module Text {
  import opened Wrappers

  /** CPython's whitespace table (`str.isspace`, and `\s` in a str pattern). */
  predicate IsSpace(c: char) {
    || ('\t' <= c <= '\r')
    || ('\U{1C}' <= c <= '\U{1F}')
    || c == ' '
    || c == '\U{85}'
    || c == '\U{A0}'
    || c == '\U{1680}'
    || ('\U{2000}' <= c <= '\U{200A}')
    || c == '\U{2028}'
    || c == '\U{2029}'
    || c == '\U{202F}'
    || c == '\U{205F}'
    || c == '\U{3000}'
  }

  /** `s.isspace()`: non-empty and made only of whitespace. */
  predicate IsSpaceString(s: string) {
    |s| > 0 && forall i :: 0 <= i < |s| ==> IsSpace(s[i])
  }

  predicate IsAsciiDigit(c: char) { '0' <= c <= '9' }

  predicate IsAsciiLetter(c: char) { 'A' <= c <= 'Z' || 'a' <= c <= 'z' }

  /** The first position from `i` on that is not whitespace. */
  function SkipSpaces(s: string, i: nat): (j: nat)
    requires i <= |s|
    ensures i <= j <= |s|
    ensures forall k :: i <= k < j ==> IsSpace(s[k])
    ensures j < |s| ==> !IsSpace(s[j])
    decreases |s| - i
  {
    if i < |s| && IsSpace(s[i]) then SkipSpaces(s, i + 1) else i
  }

  /** The end of `s[lo..e]` once its trailing whitespace is dropped. */
  function TrimEnd(s: string, lo: nat, e: nat): (r: nat)
    requires lo <= e <= |s|
    ensures lo <= r <= e
    ensures forall k :: r <= k < e ==> IsSpace(s[k])
    ensures r > lo ==> !IsSpace(s[r - 1])
    decreases e - lo
  {
    if e > lo && IsSpace(s[e - 1]) then TrimEnd(s, lo, e - 1) else e
  }

  /** `s.strip()`: the result is a slice of `s` that neither starts nor ends
      with whitespace, and everything cut off around it is whitespace. */
  function Strip(s: string): (r: string)
    ensures var i := SkipSpaces(s, 0);
      && i + |r| <= |s| && r == s[i..i + |r|]
      && (forall k :: 0 <= k < i ==> IsSpace(s[k]))
      && (forall k :: i + |r| <= k < |s| ==> IsSpace(s[k]))
    ensures r != "" ==> !IsSpace(r[0]) && !IsSpace(r[|r| - 1])
  {
    var i := SkipSpaces(s, 0);
    s[i..TrimEnd(s, i, |s|)]
  }

  /** `s.replace("/", "__")`. */
  function ReplaceSlashes(s: string): (r: string)
    ensures forall k :: 0 <= k < |r| ==> r[k] != '/'
    ensures |r| >= |s|
    ensures (forall k :: 0 <= k < |s| ==> s[k] != '/') ==> r == s
    ensures |s| == 1 ==> r == if s[0] == '/' then "__" else s
  {
    if s == "" then ""
    else (if s[0] == '/' then "__" else [s[0]]) + ReplaceSlashes(s[1..])
  }

  /** Replacing works character by character: each "/" becomes "__" and
      every other character is kept, in order. */
  lemma {:induction false} ReplaceSlashesAppend(a: string, b: string)
    ensures ReplaceSlashes(a + b) == ReplaceSlashes(a) + ReplaceSlashes(b)
  {
    if a != "" {
      assert (a + b)[0] == a[0];
      assert (a + b)[1..] == a[1..] + b;
      ReplaceSlashesAppend(a[1..], b);
    } else {
      assert a + b == b;
    }
  }

  function DigitChar(d: nat): (c: char)
    requires d < 10
    ensures IsAsciiDigit(c) && (c as int) - ('0' as int) == d
  {
    ('0' as int + d) as char
  }

  /** The value of a string of ASCII digits, most significant first. */
  function DigitsValue(s: string): nat
    requires forall k :: 0 <= k < |s| ==> IsAsciiDigit(s[k])
  {
    if s == "" then 0
    else DigitsValue(s[..|s| - 1]) * 10 + DigitValue(s[|s| - 1])
  }

  function DigitValue(c: char): nat
    requires IsAsciiDigit(c)
  {
    (c as int) - ('0' as int)
  }

  /** `str(n)` for a non-negative integer. */
  function NatToString(n: nat): (r: string)
    ensures r != ""
    ensures forall k :: 0 <= k < |r| ==> IsAsciiDigit(r[k])
  {
    if n < 10 then [DigitChar(n)] else NatToString(n / 10) + [DigitChar(n % 10)]
  }

  /** `str(i)` for any integer. */
  function IntToString(i: int): (r: string)
    ensures r != ""
  {
    if i < 0 then "-" + NatToString(-i) else NatToString(i)
  }

  /** The digits of a stripped numeral: without its sign, if it has one. */
  function Unsigned(t: string): (d: string)
    ensures |d| <= |t|
  {
    if t != "" && (t[0] == '-' || t[0] == '+') then t[1..] else t
  }

  predicate AllDigits(d: string) {
    forall k :: 0 <= k < |d| ==> IsAsciiDigit(d[k])
  }

  /** `int(s)` for a string: surrounding whitespace, one optional sign and
      a non-empty run of ASCII digits, read in base 10; anything else is
      rejected. */
  function ParseInt(s: string): (r: Option<int>)
    ensures r.Some? ==> Strip(s) != ""
    ensures var t := Strip(s); var d := Unsigned(t);
      && (r.Some? <==> d != "" && AllDigits(d))
      && (r.Some? ==> r.value == if t[0] == '-' then -(DigitsValue(d) as int) else DigitsValue(d))
  {
    var t := Strip(s);
    var digits := Unsigned(t);
    if digits == "" || !AllDigits(digits) then None
    else
      var v: int := DigitsValue(digits);
      Some(if t[0] == '-' then -v else v)
  }

  /** Whitespace, a sign and leading zeros are accepted, as `int(" +007 ")`
      accepts them. */
  lemma ParseIntPadded()
    ensures ParseInt(" +007 ") == Some(7)
  {
    var s := " +007 ";
    assert SkipSpaces(s, 0) == 1;
    assert TrimEnd(s, 1, 6) == 5;
    assert Strip(s) == s[1..5] == "+007";
    var d := Unsigned("+007");
    assert d == "007";
    assert AllDigits(d);
    assert d[..2] == "00" && d[..2][..1] == "0" && d[..2][..1][..0] == "";
    assert DigitsValue(d) == DigitsValue("00") * 10 + 7;
    assert DigitsValue("00") == DigitsValue("0") * 10;
    assert DigitsValue("0") == 0;
  }

  /** A sign alone and digits around a space are not numerals. */
  lemma ParseIntRefuses()
    ensures ParseInt(" - ") == None
    ensures ParseInt("1 2") == None
  {
    var s := " - ";
    assert SkipSpaces(s, 0) == 1;
    assert TrimEnd(s, 1, 3) == 2;
    assert Unsigned(s[1..2]) == "";
    var u := "1 2";
    assert SkipSpaces(u, 0) == 0;
    assert TrimEnd(u, 0, 3) == 3;
    assert Unsigned(u[0..3]) == u && !IsAsciiDigit(u[1]);
  }

  lemma {:induction false} DigitsOfNatToString(n: nat)
    ensures DigitsValue(NatToString(n)) == n
  {
    if n >= 10 {
      DigitsOfNatToString(n / 10);
      var s := NatToString(n / 10) + [DigitChar(n % 10)];
      assert s[..|s| - 1] == NatToString(n / 10);
    }
  }

  /** `int(str(i)) == i`: the decimal rendering and the parser agree. */
  lemma ParseIntToString(i: int)
    ensures ParseInt(IntToString(i)) == Some(i)
  {
    var s := IntToString(i);
    var n: nat := if i < 0 then -i else i;
    DigitsOfNatToString(n);
    StripOfSpaceFree(s);
    if i < 0 {
      assert s[1..] == NatToString(n);
    }
  }

  lemma StripOfSpaceFree(s: string)
    requires s != "" && !IsSpace(s[0]) && !IsSpace(s[|s| - 1])
    ensures Strip(s) == s
  {
  }
}
