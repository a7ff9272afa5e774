/**
 * The JavaScript primitives the controllers and components rely on, restricted to
 * integers: `String(n)`, `parseInt(s)` without a radix argument, `Number(s)` for integer
 * numerals, `String.prototype.trim`, `endsWith` and `length`. A NaN result is `None`.
 */
module Js {
  import opened Wrappers

  predicate IsDigit(c: char) {
    '0' <= c <= '9'
  }

  /**
   * The value of `c` as a digit of a base up to 36: `0`-`9`, then `a`-`z` or `A`-`Z` for 10 to
   * 35; 36 for every other character, which is a digit of no base.
   */
  function DigitOf(c: char): (d: nat)
    ensures d <= 36
    ensures IsDigit(c) <==> d < 10
    ensures IsDigit(c) ==> d == c as int - '0' as int
  {
    if '0' <= c <= '9' then c as int - '0' as int
    else if 'a' <= c <= 'z' then c as int - 'a' as int + 10
    else if 'A' <= c <= 'Z' then c as int - 'A' as int + 10
    else 36
  }

  predicate AllRadixDigits(s: string, radix: nat) {
    forall i :: 0 <= i < |s| ==> DigitOf(s[i]) < radix
  }

  predicate AllDigits(s: string) {
    AllRadixDigits(s, 10)
  }

  function DigitChar(d: nat): (c: char)
    requires d < 10
    ensures IsDigit(c) && DigitOf(c) == d
  {
    ('0' as int + d) as char
  }

  /** `String(n)` for a non-negative integer: its decimal digits, most significant first. */
  function NatToString(n: nat): (s: string)
    ensures |s| > 0 && AllDigits(s)
    ensures n < 10 <==> |s| == 1
  {
    if n < 10 then [DigitChar(n)] else NatToString(n / 10) + [DigitChar(n % 10)]
  }

  /** `String(n)` for an integer. */
  function IntToString(n: int): (s: string)
    ensures |s| > 0
    ensures n < 0 <==> s[0] == '-'
  {
    if n < 0 then "-" + NatToString(-n) else NatToString(n)
  }

  /** The value of a string of base-`radix` digits, read most significant first. */
  function DigitsValue(s: string, radix: nat): nat
    requires AllRadixDigits(s, radix)
  {
    if s == [] then 0 else DigitsValue(s[..|s| - 1], radix) * radix + DigitOf(s[|s| - 1])
  }

  /** The length of the longest prefix of `s` made of base-`radix` digits. */
  function DigitPrefixLength(s: string, radix: nat): (k: nat)
    ensures k <= |s| && AllRadixDigits(s[..k], radix)
    ensures k < |s| ==> DigitOf(s[k]) >= radix
  {
    if s == [] || DigitOf(s[0]) >= radix then 0
    else
      var k := 1 + DigitPrefixLength(s[1..], radix);
      assert s[..k] == [s[0]] + s[1..][..k - 1];
      k
  }

  /**
   * The characters `trim`, `parseInt` and `Number` skip: the white space of ECMAScript
   * (tab, vertical tab, form feed, the byte-order mark U+FEFF and the space separators of
   * Unicode category Zs) and its line terminators (line feed, carriage return, U+2028, U+2029).
   */
  predicate IsWhitespace(c: char) {
    || c == '\t' || c == '\U{000B}' || c == '\U{000C}' || c == '\U{FEFF}'
    || c == ' ' || c == '\U{00A0}' || c == '\U{1680}' || '\U{2000}' <= c <= '\U{200A}'
    || c == '\U{202F}' || c == '\U{205F}' || c == '\U{3000}'
    || c == '\n' || c == '\r' || c == '\U{2028}' || c == '\U{2029}'
  }

  /** `s` without its leading white space. */
  function TrimStart(s: string): (t: string)
    ensures |t| <= |s| && t == s[|s| - |t|..]
    ensures t == [] || !IsWhitespace(t[0])
  {
    if s != [] && IsWhitespace(s[0]) then TrimStart(s[1..]) else s
  }

  /** `s` without its trailing white space. */
  function TrimEnd(s: string): (t: string)
    ensures |t| <= |s| && t == s[..|t|]
    ensures t == [] || !IsWhitespace(t[|t| - 1])
  {
    if s != [] && IsWhitespace(s[|s| - 1]) then TrimEnd(s[..|s| - 1]) else s
  }

  /** `trimStart` removes white space and nothing else. */
  lemma {:induction false} TrimStartRemovesWhitespace(s: string)
    ensures forall i :: 0 <= i < |s| - |TrimStart(s)| ==> IsWhitespace(s[i])
  {
    if s != [] && IsWhitespace(s[0]) {
      TrimStartRemovesWhitespace(s[1..]);
      assert forall i :: 1 <= i < |s| - |TrimStart(s)| ==> s[i] == s[1..][i - 1];
    }
  }

  /** `trimEnd` removes white space and nothing else. */
  lemma {:induction false} TrimEndRemovesWhitespace(s: string)
    ensures forall i :: |TrimEnd(s)| <= i < |s| ==> IsWhitespace(s[i])
  {
    if s != [] && IsWhitespace(s[|s| - 1]) {
      TrimEndRemovesWhitespace(s[..|s| - 1]);
      assert forall i :: |TrimEnd(s)| <= i < |s| - 1 ==> s[i] == s[..|s| - 1][i];
    }
  }

  /** `s` with an optional leading sign removed, and whether that sign was a minus. */
  function SplitSign(s: string): (r: (bool, string))
    ensures |r.1| <= |s|
  {
    if s != [] && s[0] == '-' then (true, s[1..])
    else if s != [] && s[0] == '+' then (false, s[1..])
    else (false, s)
  }

  /**
   * The radix `parseInt` picks when it is given none: a `0x` or `0X` prefix selects base 16
   * and is removed; anything else is read in base 10.
   */
  function SplitRadix(s: string): (r: (nat, string))
    ensures r.0 == 16 <==> |s| >= 2 && s[0] == '0' && (s[1] == 'x' || s[1] == 'X')
    ensures r.0 == 16 ==> r.1 == s[2..]
    ensures r.0 != 16 ==> r == (10, s)
  {
    if |s| >= 2 && s[0] == '0' && (s[1] == 'x' || s[1] == 'X') then (16, s[2..]) else (10, s)
  }

  /**
   * `parseInt(s)`: skip leading white space, read an optional sign, then an optional `0x`
   * prefix that switches to base 16, then the longest run of digits of that base; NaN (None)
   * when there is no such digit.
   */
  function ParseInt(s: string): Option<int> {
    ParseTrimmed(TrimStart(s))
  }

  /** What `parseInt` reads once the leading white space is skipped. */
  function ParseTrimmed(t: string): Option<int> {
    var (negative, unsigned) := SplitSign(t);
    var (radix, body) := SplitRadix(unsigned);
    var k := DigitPrefixLength(body, radix);
    if k == 0 then None
    else
      var v: int := DigitsValue(body[..k], radix);
      Some(if negative then -v else v)
  }

  /** `parseInt(s)` is NaN exactly when no digit of the chosen base follows the white space, sign and prefix. */
  lemma NaNWithoutDigits(s: string)
    ensures ParseInt(s).None? <==>
              var unsigned := SplitSign(TrimStart(s)).1;
              DigitPrefixLength(SplitRadix(unsigned).1, SplitRadix(unsigned).0) == 0
  {
  }

  /** `parseInt(s) || 0`: NaN (and zero) become zero. */
  function ParseIntOrZero(s: string): (n: int)
    ensures ParseInt(s).Some? ==> n == ParseInt(s).value
    ensures ParseInt(s).None? ==> n == 0
  {
    match ParseInt(s)
    case Some(v) => v
    case None => 0
  }

  /**
   * `Number(s)` restricted to decimal integer numerals: trimmed, the empty string is 0,
   * otherwise an optional sign followed by decimal digits only; anything else is NaN (None).
   */
  function ToNumber(s: string): (r: Option<int>)
  {
    var t := TrimEnd(TrimStart(s));
    if t == [] then Some(0)
    else
      var (negative, body) := SplitSign(t);
      if body == [] || !AllDigits(body) then None
      else
        var v: int := DigitsValue(body, 10);
        Some(if negative then -v else v)
  }

  /** `s.length`: the number of UTF-16 code units, two for a character above U+FFFF. */
  function Utf16Length(s: string): (n: nat)
    ensures |s| <= n <= 2 * |s|
  {
    if s == [] then 0 else (if s[0] as int > 0xFFFF then 2 else 1) + Utf16Length(s[1..])
  }

  /** `s.endsWith(suffix)`. */
  predicate EndsWith(s: string, suffix: string) {
    |suffix| <= |s| && s[|s| - |suffix|..] == suffix
  }

  lemma {:induction false} DigitsValueOfNatToString(n: nat)
    ensures DigitsValue(NatToString(n), 10) == n
  {
    if n >= 10 {
      var a, c := NatToString(n / 10), DigitChar(n % 10);
      assert (a + [c])[..|a + [c]| - 1] == a;
      DigitsValueOfNatToString(n / 10);
    }
  }

  /** The digit run `parseInt` reads stops exactly where the digits of the base end. */
  lemma {:induction false} DigitPrefixOfDigits(digits: string, rest: string, radix: nat)
    requires AllRadixDigits(digits, radix)
    requires rest == [] || DigitOf(rest[0]) >= radix
    ensures DigitPrefixLength(digits + rest, radix) == |digits|
  {
    if digits != [] {
      assert (digits + rest)[1..] == digits[1..] + rest;
      DigitPrefixOfDigits(digits[1..], rest, radix);
    } else {
      assert digits + rest == rest;
    }
  }

  /** `String(n)` starts with no white space, then a minus exactly for negatives, then digits without a `0x`. */
  lemma {:induction false} IntToStringShape(n: int)
    ensures var s, digits := IntToString(n), NatToString(if n < 0 then -n else n);
            && TrimStart(s) == s && SplitSign(s) == (n < 0, digits) && SplitRadix(digits) == (10, digits)
  {
    var digits := NatToString(if n < 0 then -n else n);
    var s := IntToString(n);
    if n < 0 {
      assert s == "-" + digits;
      assert s[1..] == digits;
      assert SplitSign(s) == (true, digits);
    } else {
      assert s == digits;
      assert IsDigit(s[0]);
      assert SplitSign(s) == (false, digits);
    }
    assert !IsWhitespace(s[0]);
    assert TrimStart(s) == s;
    assert |digits| >= 2 ==> IsDigit(digits[1]);
    assert SplitRadix(digits) == (10, digits);
  }

  /** `parseInt(String(n)) === n`: reading back an integer's decimal form gives the integer. */
  lemma {:induction false} ParseIntOfIntToString(n: int)
    ensures ParseInt(IntToString(n)) == Some(n)
  {
    var m: nat := if n < 0 then -n else n;
    var digits := NatToString(m);
    IntToStringShape(n);
    DigitPrefixOfDigits(digits, [], 10);
    assert digits + [] == digits;
    assert digits[..|digits|] == digits;
    DigitsValueOfNatToString(m);
  }

  /** A `0x` or `0X` prefix makes `parseInt` read the hexadecimal digits that follow it. */
  lemma {:induction false} HexPrefixRead(prefix: string, digits: string, rest: string)
    requires prefix == "0x" || prefix == "0X"
    requires digits != [] && AllRadixDigits(digits, 16)
    requires rest == [] || DigitOf(rest[0]) >= 16
    ensures ParseInt(prefix + digits + rest) == Some(DigitsValue(digits, 16))
  {
    var s := prefix + digits + rest;
    assert s[0] == '0' && !IsWhitespace(s[0]);
    assert TrimStart(s) == s;
    assert SplitSign(s) == (false, s);
    assert s[2..] == digits + rest;
    assert SplitRadix(s) == (16, digits + rest);
    DigitPrefixOfDigits(digits, rest, 16);
    assert (digits + rest)[..|digits|] == digits;
  }

  /** The value of two digits of base 16. */
  lemma TwoHexDigits(digits: string)
    requires |digits| == 2 && AllRadixDigits(digits, 16)
    ensures DigitsValue(digits, 16) == DigitOf(digits[0]) * 16 + DigitOf(digits[1])
  {
    var first := digits[..1];
    assert first[..0] == [] && first[0] == digits[0];
    assert DigitsValue(first, 16) == DigitOf(digits[0]);
  }

  /** A minus in front of an unsigned numeral negates what `parseInt` reads. */
  lemma MinusNegates(u: string)
    requires u != [] && !IsWhitespace(u[0]) && u[0] != '-' && u[0] != '+'
    ensures ParseInt("-" + u) == if ParseInt(u).Some? then Some(-ParseInt(u).value) else None
  {
    var s := "-" + u;
    assert s[0] == '-' && !IsWhitespace(s[0]) && s[1..] == u;
    assert TrimStart(s) == s && SplitSign(s) == (true, u);
    assert TrimStart(u) == u && SplitSign(u) == (false, u);
  }

  /** White space in front of a text does not change what `parseInt` reads. */
  lemma LeadingWhitespaceSkipped(c: char, s: string)
    requires IsWhitespace(c)
    ensures ParseInt([c] + s) == ParseInt(s)
  {
    assert ([c] + s)[1..] == s;
    assert TrimStart([c] + s) == TrimStart(s);
  }

  /** A hexadecimal numeral such as a `Sem` cell `0x10` is read as 16. */
  lemma HexNumeralRead()
    ensures ParseInt("0x10") == Some(16)
  {
    var digits := "10";
    var s := "0x" + digits + [];
    assert ParseInt(s) == Some(16) by {
      assert DigitOf(digits[0]) == 1 && DigitOf(digits[1]) == 0;
      TwoHexDigits(digits);
      HexPrefixRead("0x", digits, []);
    }
    assert s == "0x10";
  }

  /** A bare `0x` has no digit to read, so it is NaN. */
  lemma BarePrefixIsNaN()
    ensures ParseInt("0x") == None
  {
    var s := "0x";
    assert TrimStart(s) == s;
    assert SplitSign(s) == (false, s);
    assert s[2..] == [];
    assert SplitRadix(s) == (16, []);
  }

  /** The sign comes before the prefix: `-0X1f` is -31. */
  lemma SignBeforePrefix()
    ensures ParseInt("-0X1f") == Some(-31)
  {
    var digits := "1f";
    var u := "0X" + digits + [];
    var s := "-" + u;
    assert ParseInt(s) == Some(-31) by {
      assert ParseInt(u) == Some(31) by {
        assert DigitOf(digits[0]) == 1 && DigitOf(digits[1]) == 15;
        TwoHexDigits(digits);
        HexPrefixRead("0X", digits, []);
      }
      assert u[0] == '0' && !IsWhitespace(u[0]);
      MinusNegates(u);
    }
    assert s == "-0X1f";
  }

  /** A byte-order mark before a number is skipped. */
  lemma UnicodeSpaceSkipped()
    ensures ParseInt("\U{FEFF}7") == Some(7)
  {
    LeadingWhitespaceSkipped('\U{FEFF}', "7");
    assert ['\U{FEFF}'] + "7" == "\U{FEFF}7";
    ParseIntOfIntToString(7);
    assert IntToString(7) == "7";
  }

  /** `s.length` counts one unit per character when every character is in the basic plane. */
  lemma {:induction false} Utf16LengthOfBasicPlane(s: string)
    requires forall i :: 0 <= i < |s| ==> s[i] as int <= 0xFFFF
    ensures Utf16Length(s) == |s|
  {
    if s != [] {
      Utf16LengthOfBasicPlane(s[1..]);
    }
  }

  /** `Number(String(n)) === n`. */
  lemma {:induction false} ToNumberOfIntToString(n: int)
    ensures ToNumber(IntToString(n)) == Some(n)
  {
    var m: nat := if n < 0 then -n else n;
    TrimOfIntToString(n);
    IntToStringShape(n);
    DigitsValueOfNatToString(m);
  }

  lemma {:induction false} TrimOfIntToString(n: int)
    ensures TrimEnd(TrimStart(IntToString(n))) == IntToString(n)
  {
    var m: nat := if n < 0 then -n else n;
    var digits := NatToString(m);
    var s := IntToString(n);
    assert s == if n < 0 then "-" + digits else digits;
    assert !IsWhitespace(s[0]);
    assert TrimStart(s) == s;
    assert s[|s| - 1] == digits[|digits| - 1];
    assert IsDigit(digits[|digits| - 1]);
    assert TrimEnd(s) == s;
  }

  function Pow10(k: nat): (p: nat)
    ensures p >= 1
  {
    if k == 0 then 1 else 10 * Pow10(k - 1)
  }

  /** A number with `k` decimal digits prints as `k` characters. */
  lemma {:induction false} NatToStringLength(n: nat, k: nat)
    requires 1 <= k && Pow10(k - 1) <= n < Pow10(k)
    ensures |NatToString(n)| == k
  {
    if k > 1 {
      assert Pow10(k - 1) == 10 * Pow10(k - 2);
      assert Pow10(k) == 10 * Pow10(k - 1);
      assert n >= 10;
      NatToStringLength(n / 10, k - 1);
    } else {
      assert n < 10;
    }
  }
}
