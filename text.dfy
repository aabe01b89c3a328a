/** String helpers whose behaviour the backend and the pages rely on:
    decimal numerals (Python's `str(int)` and `str.isdigit`), JavaScript's
    whitespace and `trim`, JavaScript's `parseInt`, and Python's
    `str.replace(pattern, "")`. */
module Text {

  // ---------------------------------------------------------------------
  // Decimal and hexadecimal numerals

  predicate IsDigit(c: char) {
    '0' <= c <= '9'
  }

  predicate AllDigits(s: string) {
    forall i :: 0 <= i < |s| ==> IsDigit(s[i])
  }

  predicate IsHexDigit(c: char) {
    IsDigit(c) || 'a' <= c <= 'f' || 'A' <= c <= 'F'
  }

  /** A digit of radix 16 when `hex`, of radix 10 otherwise. */
  predicate IsRadixDigit(c: char, hex: bool) {
    if hex then IsHexDigit(c) else IsDigit(c)
  }

  function DigitChar(d: nat): (c: char)
    requires d < 10
    ensures IsDigit(c)
  {
    (48 + d) as char
  }

  function DigitValue(c: char): (d: nat)
    requires IsHexDigit(c)
    ensures d < 16
    ensures IsDigit(c) ==> d < 10
  {
    if IsDigit(c) then c as int - 48
    else if 'a' <= c <= 'f' then c as int - 97 + 10
    else c as int - 65 + 10
  }

  function Pow10(k: nat): (p: nat)
    ensures p >= 1
  {
    if k == 0 then 1 else 10 * Pow10(k - 1)
  }

  /** The value of a numeral of radix 16 (when `hex`) or 10, most
      significant digit first. */
  function NumeralValue(s: string, hex: bool): nat
    requires forall i :: 0 <= i < |s| ==> IsRadixDigit(s[i], hex)
  {
    if s == [] then 0
    else
      assert IsRadixDigit(s[|s| - 1], hex);
      (if hex then 16 else 10) * NumeralValue(s[..|s| - 1], hex) + DigitValue(s[|s| - 1])
  }

  /** Python's `str(n)` for a non-negative integer. */
  function DecimalString(n: nat): (s: string)
    ensures 1 <= |s| && AllDigits(s)
    ensures |s| == 1 <==> n < 10
    ensures |s| > 1 ==> s[0] != '0'
  {
    if n < 10 then [DigitChar(n)] else DecimalString(n / 10) + [DigitChar(n % 10)]
  }

  /** Reading back the decimal numeral of `n` gives `n`. */
  lemma {:induction false} DecimalStringValue(n: nat)
    ensures NumeralValue(DecimalString(n), false) == n
  {
    if n >= 10 {
      var s := DecimalString(n);
      assert s[..|s| - 1] == DecimalString(n / 10);
      DecimalStringValue(n / 10);
    }
  }

  /** A number in [10^k, 10^(k+1)) has exactly k + 1 decimal digits. */
  lemma {:induction false} DecimalStringLength(n: nat, k: nat)
    requires Pow10(k) <= n < Pow10(k + 1)
    ensures |DecimalString(n)| == k + 1
  {
    if k > 0 {
      assert Pow10(k - 1) <= n / 10 < Pow10(k);
      DecimalStringLength(n / 10, k - 1);
    }
  }

  /** Every number in [100000, 999999] is written with exactly six digits. */
  lemma SixDigitNumerals(n: nat)
    requires 100000 <= n <= 999999
    ensures |DecimalString(n)| == 6
  {
    assert Pow10(5) == 100000 && Pow10(6) == 1000000 by {
      assert Pow10(1) == 10;
      assert Pow10(2) == 100;
      assert Pow10(3) == 1000;
      assert Pow10(4) == 10000;
    }
    DecimalStringLength(n, 5);
  }

  // ---------------------------------------------------------------------
  // JavaScript whitespace, String.prototype.trim

  /** ECMAScript WhiteSpace and LineTerminator code points. */
  predicate IsJsWhitespace(c: char) {
    c == '\t' || c == '\n' || c == '\U{000B}' || c == '\U{000C}' || c == '\r'
    || c == ' ' || c == '\U{00A0}' || c == '\U{1680}' || ('\U{2000}' <= c <= '\U{200A}')
    || c == '\U{2028}' || c == '\U{2029}' || c == '\U{202F}' || c == '\U{205F}'
    || c == '\U{3000}' || c == '\U{FEFF}'
  }

  predicate Blank(s: string) {
    forall i :: 0 <= i < |s| ==> IsJsWhitespace(s[i])
  }

  function TrimStart(s: string): (r: string)
    ensures r == [] || !IsJsWhitespace(r[0])
    ensures |r| <= |s| && r == s[|s| - |r|..]
  {
    if s != [] && IsJsWhitespace(s[0]) then TrimStart(s[1..]) else s
  }

  function TrimEnd(s: string): (r: string)
    ensures r == [] || !IsJsWhitespace(r[|r| - 1])
    ensures |r| <= |s| && r == s[..|r|]
  {
    if s != [] && IsJsWhitespace(s[|s| - 1]) then TrimEnd(s[..|s| - 1]) else s
  }

  /** `s.trim()`. */
  function Trim(s: string): string {
    TrimEnd(TrimStart(s))
  }

  /** A non-empty string is blank when its head is whitespace and its tail
      is blank. */
  lemma BlankUnfold(s: string)
    requires s != []
    ensures Blank(s) <==> IsJsWhitespace(s[0]) && Blank(s[1..])
  {
    if IsJsWhitespace(s[0]) && Blank(s[1..]) {
      forall i | 1 <= i < |s| ensures IsJsWhitespace(s[i]) {
        assert s[i] == s[1..][i - 1];
      }
    }
  }

  lemma {:induction false} TrimStartEmptyIffBlank(s: string)
    ensures TrimStart(s) == [] <==> Blank(s)
  {
    if s != [] {
      BlankUnfold(s);
      if IsJsWhitespace(s[0]) {
        TrimStartEmptyIffBlank(s[1..]);
      }
    }
  }

  lemma {:induction false} TrimEndKeepsLeadingText(s: string)
    requires s != [] && !IsJsWhitespace(s[0])
    ensures TrimEnd(s) != []
  {
    if |s| > 1 && IsJsWhitespace(s[|s| - 1]) {
      TrimEndKeepsLeadingText(s[..|s| - 1]);
    }
  }

  /** `!s.trim()` holds exactly for strings made only of whitespace
      (the empty string included). */
  lemma TrimEmptyIffBlank(s: string)
    ensures Trim(s) == [] <==> Blank(s)
  {
    TrimStartEmptyIffBlank(s);
    var t := TrimStart(s);
    if t != [] {
      TrimEndKeepsLeadingText(t);
    }
  }

  // ---------------------------------------------------------------------
  // JavaScript parseInt

  /** A JavaScript number as `parseInt` can produce it. */
  datatype JsNumber = Num(value: int) | NaN

  /** The longest prefix of `s` made of radix digits. */
  function DigitPrefix(s: string, hex: bool): (p: string)
    ensures |p| <= |s| && p == s[..|p|]
    ensures forall i :: 0 <= i < |p| ==> IsRadixDigit(p[i], hex)
    ensures |p| < |s| ==> !IsRadixDigit(s[|p|], hex)
  {
    if s != [] && IsRadixDigit(s[0], hex) then [s[0]] + DigitPrefix(s[1..], hex) else []
  }

  /** `parseInt(s)` with no radix argument: leading whitespace is skipped, an
      optional sign is read, a `0x`/`0X` prefix selects radix 16, and the
      longest run of digits that follows is the value; no digits gives NaN. */
  function ParseInt(s: string): JsNumber {
    var t := TrimStart(s);
    var negative := t != [] && t[0] == '-';
    var u := if t != [] && (t[0] == '-' || t[0] == '+') then t[1..] else t;
    var hex := |u| >= 2 && u[0] == '0' && (u[1] == 'x' || u[1] == 'X');
    var digits := DigitPrefix(if hex then u[2..] else u, hex);
    if digits == [] then NaN
    else Num((if negative then -1 else 1) * NumeralValue(digits, hex))
  }

  /** A string made only of radix digits is its own digit prefix. */
  lemma {:induction false} DigitPrefixWhole(s: string, hex: bool)
    requires forall i :: 0 <= i < |s| ==> IsRadixDigit(s[i], hex)
    ensures DigitPrefix(s, hex) == s
  {
    if s != [] {
      DigitPrefixWhole(s[1..], hex);
      assert s == [s[0]] + s[1..];
    }
  }

  /** `parseInt` reads a non-empty run of decimal digits as its value. */
  lemma ParseIntNumeral(s: string)
    requires s != [] && AllDigits(s)
    ensures ParseInt(s) == Num(NumeralValue(s, false))
  {
    assert !IsJsWhitespace(s[0]);
    assert TrimStart(s) == s;
    assert s[0] != '-' && s[0] != '+';
    assert !(|s| >= 2 && (s[1] == 'x' || s[1] == 'X'));
    DigitPrefixWhole(s, false);
  }

  /** `parseInt` reads a decimal numeral back to its value. */
  lemma ParseIntDecimal(n: nat)
    ensures ParseInt(DecimalString(n)) == Num(n)
  {
    ParseIntNumeral(DecimalString(n));
    DecimalStringValue(n);
  }

  // ---------------------------------------------------------------------
  // Python str.replace(pattern, "")

  predicate StartsWith(s: string, prefix: string) {
    |prefix| <= |s| && s[..|prefix|] == prefix
  }

  predicate OccursAt(s: string, pattern: string, i: int) {
    0 <= i && i + |pattern| <= |s| && s[i..i + |pattern|] == pattern
  }

  ghost predicate Occurs(s: string, pattern: string) {
    exists i :: OccursAt(s, pattern, i)
  }

  /** `s.replace(pattern, "")`: every non-overlapping occurrence, found left
      to right, is deleted; text joined by a deletion is not searched again. */
  function DeleteAll(s: string, pattern: string): (r: string)
    requires pattern != []
    ensures |r| <= |s|
    decreases |s|
  {
    if |s| < |pattern| then s
    else if s[..|pattern|] == pattern then DeleteAll(s[|pattern|..], pattern)
    else [s[0]] + DeleteAll(s[1..], pattern)
  }

  /** A string with no occurrence of the pattern is left as it is. */
  lemma {:induction false} DeleteAllAbsent(s: string, pattern: string)
    requires pattern != [] && !Occurs(s, pattern)
    ensures DeleteAll(s, pattern) == s
  {
    if |s| >= |pattern| {
      assert !OccursAt(s, pattern, 0);
      assert s[0..|pattern|] == s[..|pattern|];
      assert !Occurs(s[1..], pattern) by {
        forall i | 0 <= i && i + |pattern| <= |s| - 1
          ensures !OccursAt(s[1..], pattern, i)
        {
          assert s[1..][i..i + |pattern|] == s[i + 1..i + 1 + |pattern|];
          assert !OccursAt(s, pattern, i + 1);
        }
      }
      DeleteAllAbsent(s[1..], pattern);
      assert s == [s[0]] + s[1..];
    }
  }
}
