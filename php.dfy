/**
 * The fragments of PHP's string semantics that the plugin's decisions depend on:
 * `empty()` and truthiness of strings, `strtolower`, `strtoupper`, `trim`,
 * `strpos(...) !== false`, `is_numeric`, the `(int)` / `intval` cast of a string,
 * and the decimal rendering of an integer used in string concatenation.
 */
module Php {
  import opened Options

  // ---------------------------------------------------------------------------
  // empty() and truthiness

  /** `empty($s)` for a string: both "" and "0" are empty in PHP. */
  predicate IsEmpty(s: string) {
    s == "" || s == "0"
  }

  /** `if ($x)` for a nullable string: null, "" and "0" are false. */
  predicate Truthy(x: Option<string>) {
    x.Some? && !IsEmpty(x.value)
  }

  // ---------------------------------------------------------------------------
  // Case mapping (PHP 8 `strtolower` / `strtoupper` are ASCII-only)

  function LowerChar(c: char): char {
    if 'A' <= c <= 'Z' then (c as int + 32) as char else c
  }

  function UpperChar(c: char): char {
    if 'a' <= c <= 'z' then (c as int - 32) as char else c
  }

  function ToLower(s: string): string {
    seq(|s|, i requires 0 <= i < |s| => LowerChar(s[i]))
  }

  function ToUpper(s: string): string {
    seq(|s|, i requires 0 <= i < |s| => UpperChar(s[i]))
  }

  /** Lower-casing twice is lower-casing once, so comparing lower-cased values is stable. */
  lemma ToLowerIdempotent(s: string)
    ensures ToLower(ToLower(s)) == ToLower(s)
  {
    assert forall i :: 0 <= i < |s| ==> LowerChar(LowerChar(s[i])) == LowerChar(s[i]);
  }

  /** Lower-casing works character by character, so it distributes over concatenation. */
  lemma ToLowerConcat(a: string, b: string)
    ensures ToLower(a + b) == ToLower(a) + ToLower(b)
  {
  }

  // ---------------------------------------------------------------------------
  // trim(): strips " \t\n\r\0\x0B" at both ends

  predicate IsTrimChar(c: char) {
    c == ' ' || c == '\t' || c == '\n' || c == '\r' || c == 0 as char || c == 11 as char
  }

  function TrimLeft(s: string): (r: string)
    ensures |r| <= |s| && r == s[|s| - |r|..]
    ensures r != [] ==> !IsTrimChar(r[0])
    ensures forall k :: 0 <= k < |s| - |r| ==> IsTrimChar(s[k])
  {
    if |s| > 0 && IsTrimChar(s[0]) then TrimLeft(s[1..]) else s
  }

  function TrimRight(s: string): (r: string)
    ensures |r| <= |s| && r == s[..|r|]
    ensures r != [] ==> !IsTrimChar(r[|r| - 1])
    ensures forall k :: |r| <= k < |s| ==> IsTrimChar(s[k])
  {
    if |s| > 0 && IsTrimChar(s[|s| - 1]) then TrimRight(s[..|s| - 1]) else s
  }

  /**
   * `trim($s)`: the contiguous middle of `s` left after removing every leading
   * and trailing trim character; it neither starts nor ends with one.
   */
  function Trim(s: string): (r: string)
    ensures Contains(s, r)
    ensures r != [] ==> !IsTrimChar(r[0]) && !IsTrimChar(r[|r| - 1])
  {
    TrimOccurs(s, TrimLeft(s), TrimRight(TrimLeft(s)));
    TrimRight(TrimLeft(s))
  }

  /** A prefix of a suffix of `s` occurs in `s`. */
  lemma TrimOccurs(s: string, l: string, r: string)
    requires |l| <= |s| && l == s[|s| - |l|..]
    requires |r| <= |l| && r == l[..|r|]
    ensures Contains(s, r)
  {
    assert OccursAt(s, r, |s| - |l|);
  }

  /** A prefix `r` of a suffix `l` of `s` sits at `|s| - |l|` in `s`, and what follows `r` in `l` follows it in `s`. */
  lemma TrimMiddle(s: string, l: string, r: string)
    requires |l| <= |s| && l == s[|s| - |l|..]
    requires |r| <= |l| && r == l[..|r|]
    requires forall k :: |r| <= k < |l| ==> IsTrimChar(l[k])
    ensures var i := |s| - |l|;
      && i + |r| <= |s|
      && (forall k :: 0 <= k < |r| ==> r[k] == s[i + k])
      && (forall k :: i + |r| <= k < |s| ==> IsTrimChar(s[k]))
  {
    var i := |s| - |l|;
    forall k | 0 <= k < |r|
      ensures r[k] == s[i + k]
    {
      assert r[k] == l[k];
    }
    forall k | i + |r| <= k < |s|
      ensures IsTrimChar(s[k])
    {
      assert s[k] == l[k - i];
    }
  }

  /**
   * Trim removes exactly the outer trim characters: character by character the
   * result is `s` from the end of the leading run of trim characters on, and
   * only trim characters follow it.
   */
  lemma TrimRemovesOuter(s: string)
    ensures var i := |s| - |TrimLeft(s)|;
      && i + |Trim(s)| <= |s|
      && (forall k :: 0 <= k < |Trim(s)| ==> Trim(s)[k] == s[i + k])
      && (forall k :: 0 <= k < i ==> IsTrimChar(s[k]))
      && (forall k :: i + |Trim(s)| <= k < |s| ==> IsTrimChar(s[k]))
  {
    var l := TrimLeft(s);
    TrimMiddle(s, l, TrimRight(l));
    assert Trim(s) == TrimRight(l);
  }

  /** Trimming an already trimmed string changes nothing. */
  lemma TrimIdempotent(s: string)
    ensures Trim(Trim(s)) == Trim(s)
  {
    var t := Trim(s);
    if t != [] {
      assert TrimLeft(t) == t;
      assert TrimRight(t) == t;
    }
  }

  // ---------------------------------------------------------------------------
  // strpos($haystack, $needle) !== false

  predicate OccursAt(haystack: string, needle: string, i: int) {
    0 <= i <= |haystack| - |needle| && haystack[i..i + |needle|] == needle
  }

  predicate Contains(haystack: string, needle: string) {
    exists i | 0 <= i <= |haystack| - |needle| :: OccursAt(haystack, needle, i)
  }

  lemma ContainsSuffix(s: string, t: string)
    ensures Contains(s + t, t)
  {
    var i := |s|;
    assert OccursAt(s + t, t, i);
  }

  // ---------------------------------------------------------------------------
  // Numeric strings

  predicate IsDigit(c: char) {
    '0' <= c <= '9'
  }

  /** The white space PHP allows around a numeric string: " \t\n\r\v\f". */
  predicate IsNumericSpace(c: char) {
    c == ' ' || c == '\t' || c == '\n' || c == '\r' || c == 11 as char || c == 12 as char
  }

  predicate AllDigits(s: string) {
    forall k :: 0 <= k < |s| ==> IsDigit(s[k])
  }

  function DigitValue(c: char): nat
    requires IsDigit(c)
  {
    c as int - '0' as int
  }

  /** The value of a run of decimal digits. */
  function DigitsValue(s: string): nat
    requires AllDigits(s)
  {
    if |s| == 0 then 0 else DigitsValue(s[..|s| - 1]) * 10 + DigitValue(s[|s| - 1])
  }

  function Pow10(n: nat): (r: nat)
    ensures r >= 1
  {
    if n == 0 then 1 else 10 * Pow10(n - 1)
  }

  /** The first index at or after `i` that is not numeric white space. */
  function SkipSpace(s: string, i: nat): (j: nat)
    requires i <= |s|
    ensures i <= j <= |s|
    ensures j < |s| ==> !IsNumericSpace(s[j])
    ensures forall k :: i <= k < j ==> IsNumericSpace(s[k])
    decreases |s| - i
  {
    if i < |s| && IsNumericSpace(s[i]) then SkipSpace(s, i + 1) else i
  }

  /** The end of the run of digits that starts at `i`. */
  function DigitRun(s: string, i: nat): (j: nat)
    requires i <= |s|
    ensures i <= j <= |s|
    ensures j < |s| ==> !IsDigit(s[j])
    ensures AllDigits(s[i..j])
    decreases |s| - i
  {
    if i < |s| && IsDigit(s[i]) then DigitRun(s, i + 1) else i
  }

  /**
   * The longest numeric prefix from position `start`: `[+-]? (digits | digits "." digits? |
   * "." digits) ([eE] [+-]? digits)?`.  Its value is
   * (-1 if negative) * mantissa * 10^(exponent - fracLen).
   */
  datatype NumPrefix = NumPrefix(negative: bool, mantissa: nat, fracLen: nat, exponent: int, end: nat)

  function ScanNumber(s: string, start: nat): (r: Option<NumPrefix>)
    requires start <= |s|
    ensures r.Some? ==> start < r.value.end <= |s|
  {
    var hasSign := start < |s| && (s[start] == '+' || s[start] == '-');
    var i1 := if hasSign then start + 1 else start;
    var i2 := DigitRun(s, i1);
    var hasDot := i2 < |s| && s[i2] == '.';
    var i3 := if hasDot then DigitRun(s, i2 + 1) else i2;
    var intDigits := s[i1..i2];
    var fracDigits := if hasDot then s[i2 + 1..i3] else [];
    if |intDigits| == 0 && |fracDigits| == 0 then None
    else
      assert AllDigits(intDigits + fracDigits);
      var mantissa := DigitsValue(intDigits + fracDigits);
      var negative := hasSign && s[start] == '-';
      var hasE := i3 < |s| && (s[i3] == 'e' || s[i3] == 'E');
      var e1 := if hasE then i3 + 1 else i3;
      var expSign := hasE && e1 < |s| && (s[e1] == '+' || s[e1] == '-');
      var e2 := if expSign then e1 + 1 else e1;
      var e3 := DigitRun(s, e2);
      if hasE && e3 > e2 then
        var mag: int := DigitsValue(s[e2..e3]);
        var exponent: int := if expSign && s[e1] == '-' then -mag else mag;
        Some(NumPrefix(negative, mantissa, |fracDigits|, exponent, e3))
      else
        Some(NumPrefix(negative, mantissa, |fracDigits|, 0, i3))
  }

  /** `is_numeric($s)` for a string (PHP 8: leading and trailing white space allowed). */
  predicate IsNumeric(s: string) {
    var p := ScanNumber(s, SkipSpace(s, 0));
    p.Some? && SkipSpace(s, p.value.end) == |s|
  }

  /** The value of a numeric prefix truncated toward zero, as PHP's float-to-int cast does. */
  function TruncatedValue(p: NumPrefix): int {
    var scale := p.exponent - p.fracLen;
    var magnitude := if scale >= 0 then p.mantissa * Pow10(scale) else p.mantissa / Pow10(-scale);
    if p.negative then -magnitude else magnitude
  }

  /**
   * `(int) $s` and `intval($s)`: the leading numeric prefix, truncated; 0 when
   * there is none.  A plain run of decimal digits reads as its value.
   */
  function IntCast(s: string): (r: int)
    ensures s != [] && AllDigits(s) ==> r == DigitsValue(s)
  {
    if s != [] && AllDigits(s) then
      DigitsAreNumber(s);
      TruncatedValue(ScanNumber(s, SkipSpace(s, 0)).value)
    else
      match ScanNumber(s, SkipSpace(s, 0))
      case None => 0
      case Some(p) => TruncatedValue(p)
  }

  /** A plain run of decimal digits scans as one integer prefix spanning the whole string. */
  lemma DigitsAreNumber(s: string)
    requires s != [] && AllDigits(s)
    ensures SkipSpace(s, 0) == 0
    ensures ScanNumber(s, 0) == Some(NumPrefix(false, DigitsValue(s), 0, 0, |s|))
  {
    assert IsDigit(s[0]);
    assert s[0..] == s;
    DigitRunToEnd(s, 0);
    assert s[0..|s|] == s;
    assert s + [] == s;
  }

  /** A run of decimal digits is numeric and `(int)` reads it as its value. */
  lemma DigitsAreNumeric(s: string)
    requires s != [] && AllDigits(s)
    ensures IsNumeric(s) && IntCast(s) == DigitsValue(s)
  {
    DigitsAreNumber(s);
  }

  /** A bare number is numeric and reads as its value. */
  lemma NumericPlain()
    ensures IsNumeric("5") && IntCast("5") == 5
  {
    DigitsAreNumeric("5");
    assert DigitsValue("5") == 5;
  }

  /** An empty string, or one that starts with a letter, is not numeric and reads as 0. */
  lemma NumericRejects()
    ensures !IsNumeric("") && IntCast("") == 0
    ensures !IsNumeric("abc") && IntCast("abc") == 0
  {
    assert !IsDigit('a') && !IsNumericSpace('a');
  }

  /** White space around a number is allowed. */
  lemma NumericPadded()
    ensures IsNumeric(" 12 ") && IntCast(" 12 ") == 12
  {
    var t := " 12 ";
    assert SkipSpace(t, 0) == 1 by {
      assert IsNumericSpace(t[0]) && !IsNumericSpace(t[1]);
    }
    assert DigitRun(t, 1) == 3 by {
      assert IsDigit(t[1]) && IsDigit(t[2]) && !IsDigit(t[3]);
    }
    assert t[1..3] == "12";
    assert DigitsValue("12") == 12 by {
      assert "12"[..1] == "1";
    }
    assert "12" + [] == "12";
    assert ScanNumber(t, 1) == Some(NumPrefix(false, 12, 0, 0, 3));
  }

  /** A unit suffix makes a value non-numeric, but `(int)` still reads its leading number. */
  lemma NumericWithUnit()
    ensures !IsNumeric("5 lbs") && IntCast("5 lbs") == 5
  {
    var t := "5 lbs";
    assert DigitRun(t, 0) == 1 by {
      assert IsDigit(t[0]) && !IsDigit(t[1]);
    }
    assert t[0..1] == "5";
    assert "5" + [] == "5";
    assert DigitsValue("5") == 5;
    assert ScanNumber(t, 0) == Some(NumPrefix(false, 5, 0, 0, 1));
    assert SkipSpace(t, 1) == 2 by {
      assert IsNumericSpace(t[1]) && !IsNumericSpace(t[2]);
    }
  }

  // ---------------------------------------------------------------------------
  // Integers rendered as decimal strings (string concatenation of an int)

  function DigitChar(d: nat): char
    requires d < 10
  {
    ('0' as int + d) as char
  }

  function NatToString(n: nat): (r: string)
    ensures |r| >= 1 && AllDigits(r)
  {
    if n < 10 then [DigitChar(n)] else NatToString(n / 10) + [DigitChar(n % 10)]
  }

  function IntToString(i: int): string {
    if i < 0 then "-" + NatToString(-i) else NatToString(i)
  }

  lemma {:induction false} DigitsValueOfNatToString(n: nat)
    ensures DigitsValue(NatToString(n)) == n
  {
    if n >= 10 {
      var s := NatToString(n);
      assert s[..|s| - 1] == NatToString(n / 10);
      DigitsValueOfNatToString(n / 10);
    }
  }

  /** Reading back the decimal rendering of an integer with `(int)` gives the integer. */
  lemma IntCastOfIntToString(i: int)
    ensures IsNumeric(IntToString(i))
    ensures IntCast(IntToString(i)) == i
  {
    var s := IntToString(i);
    var n: nat := if i < 0 then -i else i;
    var ds := NatToString(n);
    var start := if i < 0 then 1 else 0;
    assert s[start..] == ds;
    assert SkipSpace(s, 0) == 0;
    DigitRunToEnd(s, start);
    assert s[start..|s|] == ds;
    DigitsValueOfNatToString(n);
    assert ds + [] == ds;
  }

  lemma DigitRunToEnd(s: string, i: nat)
    requires i <= |s| && AllDigits(s[i..])
    ensures DigitRun(s, i) == |s|
    decreases |s| - i
  {
    if i < |s| {
      assert IsDigit(s[i..][0]);
      assert s[i + 1..] == s[i..][1..];
      DigitRunToEnd(s, i + 1);
    }
  }
}
