/** The parts of the ECMAScript standard library that the modelled code applies to
    strings: the white-space class shared by the regular-expression escape `\s`,
    `String.prototype.trim`, `parseInt` and `Number`; `String.prototype.toLowerCase`;
    `parseInt` without a radix; and `Number` applied to a string. */
module JsStrings {
  import opened Options

  /** The WhiteSpace and LineTerminator characters of ECMA-262. */
  predicate IsWhiteSpace(c: char) {
    var k := c as int;
    (0x09 <= k <= 0x0D) || k == 0x20 || k == 0xA0 || k == 0x1680
    || (0x2000 <= k <= 0x200A) || k == 0x2028 || k == 0x2029 || k == 0x202F
    || k == 0x205F || k == 0x3000 || k == 0xFEFF
  }

  predicate AllWhiteSpace(s: string) {
    forall i :: 0 <= i < |s| ==> IsWhiteSpace(s[i])
  }

  /** Drops the leading white space, as `trimStart` and the first step of `parseInt` do. */
  function TrimStart(s: string): (r: string)
    ensures |r| <= |s| && r == s[|s| - |r|..]
    ensures AllWhiteSpace(s[..|s| - |r|])
    ensures r == [] || !IsWhiteSpace(r[0])
  {
    if s != [] && IsWhiteSpace(s[0]) then
      var r := TrimStart(s[1..]);
      assert forall i :: 0 < i < |s| - |r| ==> s[i] == s[1..][..|s| - 1 - |r|][i - 1];
      r
    else s
  }

  /** Drops the trailing white space. */
  function TrimEnd(s: string): (r: string)
    ensures |r| <= |s| && r == s[..|r|]
    ensures AllWhiteSpace(s[|r|..])
    ensures r == [] || !IsWhiteSpace(r[|r| - 1])
  {
    if s != [] && IsWhiteSpace(s[|s| - 1]) then
      var r := TrimEnd(s[..|s| - 1]);
      assert s[|r|..] == s[..|s| - 1][|r|..] + [s[|s| - 1]];
      r
    else s
  }

  /** `s.trim()`: the text between the leading and the trailing white space, which
      neither starts nor ends with white space. */
  function Trim(s: string): (r: string)
    ensures |r| <= |s|
    ensures r == [] || (!IsWhiteSpace(r[0]) && !IsWhiteSpace(r[|r| - 1]))
  {
    TrimEnd(TrimStart(s))
  }

  /** `s.trim() === ''` holds exactly when every character of `s` is white space. */
  lemma TrimEmptyIff(s: string)
    ensures Trim(s) == [] <==> AllWhiteSpace(s)
  {
    var t := TrimStart(s);
    if Trim(s) == [] {
      assert t == [];
      forall i | 0 <= i < |s| ensures IsWhiteSpace(s[i]) {
        assert s[i] == s[..|s|][i];
      }
    }
  }

  /** `toLowerCase` applied to one character. Besides the ASCII capitals, the only
      characters whose lower case contains an ASCII letter are the Kelvin sign and the
      capital I with dot above; the lower case of every other character is kept as the
      character itself here, since it is neither ASCII nor white space. */
  function LowerChar(c: char): string {
    if 'A' <= c <= 'Z' then [(c as int + 32) as char]
    else if c == '\U{212A}' then "k"
    else if c == '\U{0130}' then "i\U{0307}"
    else [c]
  }

  /** `s.toLowerCase()`. */
  function ToLowerCase(s: string): (r: string)
    ensures forall i :: 0 <= i < |r| ==> !('A' <= r[i] <= 'Z')
  {
    if s == [] then [] else LowerChar(s[0]) + ToLowerCase(s[1..])
  }

  lemma {:induction false} ToLowerCaseAppend(a: string, b: string)
    ensures ToLowerCase(a + b) == ToLowerCase(a) + ToLowerCase(b)
  {
    if a == [] {
      assert a + b == b;
    } else {
      assert (a + b)[0] == a[0] && (a + b)[1..] == a[1..] + b;
      ToLowerCaseAppend(a[1..], b);
    }
  }

  /** The value of a digit in radices up to 36, as `parseInt` and `Number` read it;
      36 for a character that is a digit in no radix. */
  function DigitValue(c: char): nat {
    if '0' <= c <= '9' then c as int - '0' as int
    else if 'a' <= c <= 'z' then c as int - 'a' as int + 10
    else if 'A' <= c <= 'Z' then c as int - 'A' as int + 10
    else 36
  }

  predicate IsDigit(c: char, radix: nat) {
    DigitValue(c) < radix
  }

  predicate AllDigits(s: string, radix: nat) {
    forall i :: 0 <= i < |s| ==> IsDigit(s[i], radix)
  }

  /** The longest prefix of `s` made of digits of `radix`. */
  function DigitPrefix(s: string, radix: nat): (r: string)
    ensures |r| <= |s| && r == s[..|r|]
    ensures AllDigits(r, radix)
    ensures |r| == |s| || !IsDigit(s[|r|], radix)
  {
    if s != [] && IsDigit(s[0], radix) then [s[0]] + DigitPrefix(s[1..], radix) else []
  }

  /** The number a string of digits denotes in `radix`, most significant digit first. */
  function DigitsValue(d: string, radix: nat): nat {
    if d == [] then 0 else DigitsValue(d[..|d| - 1], radix) * radix + DigitValue(d[|d| - 1])
  }

  function DigitChar(d: nat): char
    requires d < 10
  {
    ('0' as int + d) as char
  }

  /** The canonical decimal text of a natural number (no sign, no leading zero). */
  function DecimalText(n: nat): string {
    if n < 10 then [DigitChar(n)] else DecimalText(n / 10) + [DigitChar(n % 10)]
  }

  /** The decimal text of an integer, as `String(n)` writes it. */
  function IntText(n: int): string {
    if n < 0 then "-" + DecimalText(-n) else DecimalText(n)
  }

  /** `DecimalText` writes digits only, starts with `0` only for zero, and reads back
      to the number it was written from. */
  lemma {:induction false} DecimalTextDigits(n: nat)
    ensures DecimalText(n) != [] && AllDigits(DecimalText(n), 10)
    ensures DecimalText(n)[0] == '0' <==> n == 0
    ensures DigitsValue(DecimalText(n), 10) == n
  {
    if n >= 10 {
      DecimalTextDigits(n / 10);
      var d := DecimalText(n);
      assert d[..|d| - 1] == DecimalText(n / 10);
    }
  }

  /** A string of digits followed by a non-digit (or nothing) has exactly those digits as its digit prefix. */
  lemma {:induction false} DigitPrefixOfDigits(d: string, rest: string, radix: nat)
    requires AllDigits(d, radix)
    requires rest == [] || !IsDigit(rest[0], radix)
    ensures DigitPrefix(d + rest, radix) == d
  {
    if d != [] {
      assert (d + rest)[1..] == d[1..] + rest;
      DigitPrefixOfDigits(d[1..], rest, radix);
    }
  }

  /** `parseInt(s)` with no radix: leading white space is skipped, one sign is read, a
      `0x`/`0X` prefix switches to radix 16, and the longest run of digits that follows
      is the value; no digit at all gives NaN (`None`). A negative zero is returned as 0. */
  function ParseInt(s: string): (r: Option<int>)
    ensures AllWhiteSpace(s) ==> r == None
  {
    var t := TrimStart(s);
    if t != [] && (t[0] == '-' || t[0] == '+') then
      match ParseUnsignedInt(t[1..])
      case None => None
      case Some(m) => Some(if t[0] == '-' then -m else m)
    else ParseUnsignedInt(t)
  }

  /** The digits `parseInt` reads after the sign. */
  function ParseUnsignedInt(u: string): Option<int> {
    if |u| >= 2 && u[0] == '0' && (u[1] == 'x' || u[1] == 'X') then
      var digits := DigitPrefix(u[2..], 16);
      if digits == [] then None else Some(DigitsValue(digits, 16))
    else
      var digits := DigitPrefix(u, 10);
      if digits == [] then None else Some(DigitsValue(digits, 10))
  }

  /** `parseInt` reads the leading decimal number of a string and ignores whatever follows it. */
  lemma ParseIntDecimalPrefix(n: nat, rest: string)
    requires rest == [] || !IsDigit(rest[0], 10)
    requires n == 0 ==> rest == [] || (rest[0] != 'x' && rest[0] != 'X')
    ensures ParseInt(DecimalText(n) + rest) == Some(n)
  {
    DecimalTextDigits(n);
    ParseIntOfDigits(DecimalText(n), rest);
  }

  lemma ParseIntOfDigits(d: string, rest: string)
    requires d != [] && AllDigits(d, 10)
    requires rest == [] || !IsDigit(rest[0], 10)
    requires d[0] == '0' && rest != [] ==> |d| > 1 || (rest[0] != 'x' && rest[0] != 'X')
    ensures ParseInt(d + rest) == Some(DigitsValue(d, 10))
  {
    var s := d + rest;
    assert s[0] == d[0] && IsDigit(s[0], 10);
    ParseIntUnsigned(s);
    ParseUnsignedDecimal(d, rest);
  }

  /** Without leading white space or a sign, `parseInt` reads the digits straight away. */
  lemma ParseIntUnsigned(s: string)
    requires s != [] && IsDigit(s[0], 10)
    ensures ParseInt(s) == ParseUnsignedInt(s)
  {
    assert TrimStart(s) == s;
  }

  lemma ParseUnsignedDecimal(d: string, rest: string)
    requires d != [] && AllDigits(d, 10)
    requires rest == [] || !IsDigit(rest[0], 10)
    requires d[0] == '0' && rest != [] ==> |d| > 1 || (rest[0] != 'x' && rest[0] != 'X')
    ensures ParseUnsignedInt(d + rest) == Some(DigitsValue(d, 10))
  {
    var u := d + rest;
    DigitPrefixOfDigits(d, rest, 10);
    if |d| > 1 {
      assert u[1] == d[1] && IsDigit(u[1], 10);
    } else if rest != [] {
      assert u[1] == rest[0];
    }
  }

  /** A value `Number(s)` can produce: a finite number (kept exact, not rounded to a
      binary64 double) or an infinity. */
  datatype JsNumber = Finite(value: real) | Infinite(negative: bool)

  function Pow10(e: nat): (p: nat)
    ensures p >= 1
  {
    if e == 0 then 1 else 10 * Pow10(e - 1)
  }

  /** `m * 10^e` as an exact real. */
  function Scaled(m: nat, e: int): real {
    if e >= 0 then (m * Pow10(e)) as real else m as real / Pow10(-e) as real
  }

  /** An optionally signed run of decimal digits that makes up the whole of `s`: an exponent. */
  function ExponentValue(s: string): Option<int> {
    var negative := s != [] && s[0] == '-';
    var d := if s != [] && (s[0] == '-' || s[0] == '+') then s[1..] else s;
    var magnitude: int := DigitsValue(d, 10);
    if d == [] || !AllDigits(d, 10) then None else Some(if negative then -magnitude else magnitude)
  }

  /** The unsigned part of a decimal literal as `Number` accepts it: `Infinity`, or digits
      with an optional fraction and an optional exponent, at least one digit in all,
      and nothing after it. */
  function UnsignedDecimal(u: string): Option<JsNumber> {
    if u == "Infinity" then Some(Infinite(false))
    else
      var whole := DigitPrefix(u, 10);
      var afterWhole := u[|whole|..];
      var dot := afterWhole != [] && afterWhole[0] == '.';
      var fraction := if dot then DigitPrefix(afterWhole[1..], 10) else [];
      var tail := if dot then afterWhole[1 + |fraction|..] else afterWhole;
      if whole == [] && fraction == [] then None
      else
        var exponent :=
          if tail == [] then Some(0)
          else if tail[0] == 'e' || tail[0] == 'E' then ExponentValue(tail[1..])
          else None;
        match exponent
        case None => None
        case Some(e) => Some(Finite(Scaled(DigitsValue(whole + fraction, 10), e - |fraction|)))
  }

  /** `Number(s)` for a string `s`; `None` is NaN. The surrounding white space is
      trimmed; the empty string is 0; `0x`, `0o` and `0b` (either case, no sign) introduce
      hexadecimal, octal and binary integers; otherwise an optional sign precedes a decimal
      literal or `Infinity`. */
  function StringToNumber(s: string): (r: Option<JsNumber>)
    ensures AllWhiteSpace(s) ==> r == Some(Finite(0.0))
  {
    TrimEmptyIff(s);
    var t := Trim(s);
    if t == [] then Some(Finite(0.0))
    else if |t| >= 2 && t[0] == '0' && t[1] in "xXoObB" then NonDecimalInteger(t[1], t[2..])
    else SignedDecimal(t)
  }

  /** A `0x`, `0o` or `0b` literal, given the letter after the `0` and the digits after the letter. */
  function NonDecimalInteger(letter: char, d: string): Option<JsNumber> {
    var radix := if letter in "xX" then 16 else if letter in "oO" then 8 else 2;
    if d != [] && AllDigits(d, radix) then Some(Finite(DigitsValue(d, radix) as real)) else None
  }

  /** An optional sign followed by an unsigned decimal literal. */
  function SignedDecimal(t: string): Option<JsNumber>
    requires t != []
  {
    var negative := t[0] == '-';
    var u := if t[0] == '-' || t[0] == '+' then t[1..] else t;
    match UnsignedDecimal(u)
    case None => None
    case Some(Finite(x)) => Some(Finite(if negative then -x else x))
    case Some(Infinite(_)) => Some(Infinite(negative))
  }

  /** `Number` reads the canonical decimal text of a natural number back as that number. */
  lemma NumberOfDecimalText(n: nat)
    ensures StringToNumber(DecimalText(n)) == Some(Finite(n as real))
  {
    DecimalTextDigits(n);
    NumberOfDigits(DecimalText(n));
  }

  lemma NumberOfDigits(d: string)
    requires d != [] && AllDigits(d, 10)
    requires d[0] == '0' ==> |d| == 1
    ensures StringToNumber(d) == Some(Finite(DigitsValue(d, 10) as real))
  {
    TrimOfDigits(d);
    SignedDecimalOfDigits(d);
  }

  lemma TrimOfDigits(d: string)
    requires d != [] && AllDigits(d, 10)
    ensures Trim(d) == d
  {
    assert IsDigit(d[0], 10) && IsDigit(d[|d| - 1], 10);
    assert TrimStart(d) == d;
  }

  lemma SignedDecimalOfDigits(d: string)
    requires d != [] && AllDigits(d, 10)
    ensures SignedDecimal(d) == Some(Finite(DigitsValue(d, 10) as real))
  {
    assert IsDigit(d[0], 10);
    UnsignedDecimalOfDigits(d);
  }

  lemma UnsignedDecimalOfDigits(d: string)
    requires d != [] && AllDigits(d, 10)
    ensures UnsignedDecimal(d) == Some(Finite(DigitsValue(d, 10) as real))
  {
    assert d != "Infinity" by { assert IsDigit(d[0], 10); }
    DigitPrefixOfDigits(d, [], 10);
    assert d + [] == d;
    assert d[|d|..] == [];
  }

  /** A string whose trimmed text starts with a lower-case letter is not a number. */
  lemma NotNumberWhenLetterFirst(s: string)
    requires Trim(s) != [] && 'a' <= Trim(s)[0] <= 'z'
    ensures StringToNumber(s) == None
  {
    var t := Trim(s);
    assert SignedDecimal(t) == None by {
      assert t != "Infinity" by { assert t[0] != 'I'; }
      assert DigitPrefix(t, 10) == [];
      assert t[0..] == t;
    }
  }
}
