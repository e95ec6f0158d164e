/**
 * JavaScript number conversion as the engine uses it: `Number(s)` on the string
 * that `parseAmount` has cleaned, and `parseAmount` itself (app.js:36-41).
 *
 * Numbers are exact reals. A JavaScript number is `Finite(v)` or `NaN`; where
 * `Number` would yield an infinity the model yields `NaN`, which is what
 * `parseAmount` turns every non-finite result into.
 */
module JsNumber {
  import opened Common
  import opened JsText

  datatype Num = NaN | Finite(value: real)

  /** `Number(x) || 0` for a number `x`: NaN and zero are falsy and become 0. */
  function OrZero(n: Num): real
  {
    if n.Finite? then n.value else 0.0
  }

  function Pow(b: nat, n: nat): (r: nat)
    ensures b > 0 ==> r > 0
  {
    if n == 0 then 1 else b * Pow(b, n - 1)
  }

  /**
   * The smallest magnitude that rounds to an infinity, 2^1024 - 2^970: halfway
   * between the largest finite double (2^1024 - 2^971) and 2^1024.
   */
  const OVERFLOW: real := 179769313486231580793728971405303415079934132710037826936173778980444968292764750946649017977587207096330286416692887910946555547851940402630657488671505820681908902000708383676273854845817711531764475730270069855571366959622842914819860834936475292719074168444365510704342711559699508093042880177904174497792.0

  /** The radix that a `0x`, `0o` or `0b` prefix letter selects, or 0 for any other character. */
  function Radix(c: char): nat
  {
    if c == 'x' || c == 'X' then 16
    else if c == 'o' || c == 'O' then 8
    else if c == 'b' || c == 'B' then 2
    else 0
  }

  /** The value of a digit character in bases up to 16, or 16 for a non-digit. */
  function DigitValue(c: char): (d: nat)
    ensures d <= 16
  {
    if '0' <= c <= '9' then c as int - '0' as int
    else if 'a' <= c <= 'f' then c as int - 'a' as int + 10
    else if 'A' <= c <= 'F' then c as int - 'A' as int + 10
    else 16
  }

  predicate AllDigits(s: string, base: nat)
  {
    forall i :: 0 <= i < |s| ==> DigitValue(s[i]) < base
  }

  /** The value of the digit string `s` in `base`, most significant digit first. */
  function DigitsValue(s: string, base: nat): nat
  {
    if |s| == 0 then 0 else DigitsValue(s[..|s| - 1], base) * base + DigitValue(s[|s| - 1])
  }

  /** `v * 10^e` for an integer exponent `e`. */
  function ScaleByPowerOfTen(v: real, e: int): real
  {
    if e >= 0 then v * Pow(10, e) as real else v / Pow(10, -e) as real
  }

  /** The value of the digits `f` after a decimal point, `0.f₁f₂…`, which lies in [0, 1). */
  function Fraction(f: string): (r: real)
    ensures AllDigits(f, 10) ==> 0.0 <= r < 1.0
  {
    if |f| == 0 then 0.0 else (DigitValue(f[0]) as real + Fraction(f[1..])) / 10.0
  }

  /** What a string numeric literal denotes, before rounding to a double. */
  datatype Literal = NotALiteral | InfinityLiteral | Exact(value: real)

  /** The position of the first exponent mark (`e` or `E`), or `|s|`. */
  function ExponentMark(s: string): (i: nat)
    ensures i <= |s| && forall k :: 0 <= k < i ==> s[k] != 'e' && s[k] != 'E'
    ensures i < |s| ==> s[i] == 'e' || s[i] == 'E'
  {
    if |s| == 0 || s[0] == 'e' || s[0] == 'E' then 0 else 1 + ExponentMark(s[1..])
  }

  /** An exponent: an optional sign followed by at least one decimal digit. */
  function SignedInteger(s: string): Option<int>
  {
    var neg := |s| > 0 && s[0] == '-';
    var digits := if |s| > 0 && (s[0] == '+' || s[0] == '-') then s[1..] else s;
    if |digits| > 0 && AllDigits(digits, 10) then
      var v: int := DigitsValue(digits, 10);
      Some(if neg then -v else v)
    else None
  }

  /**
   * StrUnsignedDecimalLiteral: `Infinity`, or digits with at most one `.` and at
   * least one digit, optionally followed by an exponent.
   */
  function UnsignedDecimal(s: string): Literal
  {
    if s == "Infinity" then InfinityLiteral
    else
      var e := ExponentMark(s);
      var mantissa := s[..e];
      var dot := FirstIndex(mantissa, '.');
      var whole := mantissa[..dot];
      var frac := if dot < |mantissa| then mantissa[dot + 1..] else "";
      var exponent := if e == |s| then Some(0) else SignedInteger(s[e + 1..]);
      if AllDigits(whole, 10) && AllDigits(frac, 10) && |whole| + |frac| > 0 && exponent.Some? then
        var m := DigitsValue(whole, 10) as real + Fraction(frac);
        Exact(ScaleByPowerOfTen(m, exponent.value))
      else NotALiteral
  }

  /**
   * StringNumericLiteral of ECMAScript on a string without surrounding white
   * space: empty (denoting 0), a `0x`/`0o`/`0b` integer, or a signed decimal.
   */
  function ParseLiteral(s: string): Literal
  {
    if |s| == 0 then Exact(0.0)
    else if |s| >= 2 && s[0] == '0' && Radix(s[1]) > 0 then
      var digits := s[2..];
      if |digits| > 0 && AllDigits(digits, Radix(s[1])) then Exact(DigitsValue(digits, Radix(s[1])) as real)
      else NotALiteral
    else if s[0] == '+' then UnsignedDecimal(s[1..])
    else if s[0] == '-' then
      match UnsignedDecimal(s[1..])
      case Exact(v) => Exact(-v)
      case other => other
    else UnsignedDecimal(s)
  }

  function Abs(v: real): real { if v < 0.0 then -v else v }

  /** `Number(s)` for a string `s`, with infinite results as NaN. */
  function NumberOfString(s: string): Num
  {
    match ParseLiteral(Trim(s))
    case NotALiteral => NaN
    case InfinityLiteral => NaN
    case Exact(v) => if Abs(v) >= OVERFLOW then NaN else Finite(v)
  }

  /** The text `parseAmount` hands to `Number`: trimmed, without white space, first comma made a dot. */
  function CleanAmountText(s: string): string
  {
    ReplaceFirst(StripSpaces(Trim(s)), ',', '.')
  }

  /**
   * `parseAmount(s)`: NaN for a non-string (`None`), otherwise the finite number
   * the cleaned text denotes, or NaN.
   */
  function ParseAmount(s: Option<string>): Num
  {
    match s
    case None => NaN
    case Some(text) => NumberOfString(CleanAmountText(text))
  }

  // ----- Properties of parseAmount -----

  /** The decimal digit character for `d < 10`. */
  function DigitChar(d: nat): char
    requires d < 10
  {
    ('0' as int + d) as char
  }

  /** The canonical decimal rendering of `n`, without leading zeros. */
  function DecimalString(n: nat): (s: string)
    ensures |s| > 0 && AllDigits(s, 10)
  {
    if n < 10 then [DigitChar(n)] else DecimalString(n / 10) + [DigitChar(n % 10)]
  }

  lemma {:induction false} DecimalStringValue(n: nat)
    ensures DigitsValue(DecimalString(n), 10) == n
  {
    var s := DecimalString(n);
    if n >= 10 {
      DecimalStringValue(n / 10);
      assert s[..|s| - 1] == DecimalString(n / 10);
    }
  }

  /** A digit string has no white space, no comma, dot, sign or exponent mark. */
  lemma DigitsArePlain(s: string)
    requires AllDigits(s, 10)
    ensures NoSpaces(s)
    ensures ',' !in s && '.' !in s && 'e' !in s && 'E' !in s
    ensures |s| > 0 ==> s[0] != '+' && s[0] != '-' && s != "Infinity"
    ensures |s| > 1 ==> Radix(s[1]) == 0
    ensures ExponentMark(s) == |s|
  {
    if |s| > 0 {
      assert DigitValue(s[0]) < 10;
      assert DigitValue('I') == 16;
    }
  }

  /** Text without white space and without a comma is passed on to `Number` unchanged. */
  lemma CleanOfPlain(s: string)
    requires NoSpaces(s) && ',' !in s
    ensures CleanAmountText(s) == s
  {
    TrimOfTrimmed(s);
    var r := ReplaceFirst(s, ',', '.');
    assert FirstIndex(s, ',') == |s|;
    assert r == r[..|s|];
  }

  /** A decimal digit string, such as `"1250"`, denotes its value. */
  lemma {:induction false} DigitStringLiteral(s: string)
    requires |s| > 0 && AllDigits(s, 10)
    ensures ParseLiteral(s) == Exact(DigitsValue(s, 10) as real)
  {
    DigitsArePlain(s);
    assert FirstIndex(s, '.') == |s|;
    assert s[..|s|] == s;
  }

  /** `"w.f"` with digit strings `w` (non-empty) and `f` denotes `w + f / 10^|f|`. */
  lemma {:induction false} DecimalFractionLiteral(w: string, f: string)
    requires |w| > 0 && AllDigits(w, 10) && AllDigits(f, 10)
    ensures ParseLiteral(w + ['.'] + f)
      == Exact(DigitsValue(w, 10) as real + Fraction(f))
  {
    var s := w + ['.'] + f;
    DigitsArePlain(w);
    DigitsArePlain(f);
    assert s[0] == w[0];
    assert |s| > 1 ==> Radix(s[1]) == 0 by {
      if |w| > 1 { assert s[1] == w[1]; } else { assert s[1] == '.'; }
    }
    assert s != "Infinity" by { assert DigitValue(s[0]) < 10; assert DigitValue('I') == 16; }
    assert 'e' !in s && 'E' !in s;
    assert ExponentMark(s) == |s|;
    assert FirstIndex(s, '.') == |w| by {
      assert s[..|w|] == w;
      assert s[|w|] == '.';
    }
    assert s[..|s|] == s && s[..|w|] == w && s[|w| + 1..] == f;
    var m := DigitsValue(w, 10) as real + Fraction(f);
    assert ScaleByPowerOfTen(m, 0) == m;
    assert UnsignedDecimal(s) == Exact(m);
    assert ParseLiteral(s) == UnsignedDecimal(s);
  }

  /** The canonical decimal text of a whole number parses back to that number. */
  lemma ParseAmountOfWholeNumber(n: nat)
    requires (n as real) < OVERFLOW
    ensures ParseAmount(Some(DecimalString(n))) == Finite(n as real)
  {
    var s := DecimalString(n);
    DigitsArePlain(s);
    CleanOfPlain(s);
    TrimOfTrimmed(s);
    DigitStringLiteral(s);
    DecimalStringValue(n);
  }

  /** Amounts written with a decimal comma, such as `"12,50"` or `"007,5"`, parse to their value. */
  lemma ParseAmountOfDecimalComma(w: string, f: string)
    requires |w| > 0 && AllDigits(w, 10) && AllDigits(f, 10)
    requires DigitsValue(w, 10) as real + Fraction(f) < OVERFLOW
    ensures ParseAmount(Some(w + [','] + f))
      == Finite(DigitsValue(w, 10) as real + Fraction(f))
  {
    ParseAmountOfDecimalPoint(w, f);
    NoCommaInDigits(w);
    NoCommaInDigits(f);
    ParseAmountCommaAsDot(w, f);
  }

  lemma NoCommaInDigits(s: string)
    requires AllDigits(s, 10)
    ensures ',' !in s
  {
    DigitsArePlain(s);
  }

  /** Digits, a point and digits parse to their value when it is below the overflow bound. */
  lemma ParseAmountOfDecimalPoint(w: string, f: string)
    requires |w| > 0 && AllDigits(w, 10) && AllDigits(f, 10)
    requires DigitsValue(w, 10) as real + Fraction(f) < OVERFLOW
    ensures ParseAmount(Some(w + ['.'] + f))
      == Finite(DigitsValue(w, 10) as real + Fraction(f))
  {
    var s := w + ['.'] + f;
    var q := Fraction(f);
    var v := DigitsValue(w, 10) as real + q;
    DecimalFractionLiteral(w, f);
    assert ParseLiteral(s) == Exact(v);
    CleanOfDecimalText(w, f);
    NumberOfExact(s, v);
  }

  /** `Number` of a trimmed literal with a finite value below the bound is that value. */
  lemma NumberOfExact(s: string, v: real)
    requires CleanAmountText(s) == s && Trim(s) == s && ParseLiteral(s) == Exact(v)
    requires 0.0 <= v < OVERFLOW
    ensures ParseAmount(Some(s)) == Finite(v)
  {
  }

  /** Digits, a point and digits pass through the cleaning unchanged and are their own trim. */
  lemma CleanOfDecimalText(w: string, f: string)
    requires AllDigits(w, 10) && AllDigits(f, 10)
    ensures CleanAmountText(w + ['.'] + f) == w + ['.'] + f
    ensures Trim(w + ['.'] + f) == w + ['.'] + f
  {
    var s := w + ['.'] + f;
    PlainDecimalText(w, f);
    CleanOfPlain(s);
    TrimOfTrimmed(s);
  }

  lemma PlainDecimalText(w: string, f: string)
    requires AllDigits(w, 10) && AllDigits(f, 10)
    ensures NoSpaces(w + ['.'] + f) && ',' !in w + ['.'] + f
  {
    var s := w + ['.'] + f;
    DigitsArePlain(w);
    DigitsArePlain(f);
    forall i | 0 <= i < |s| ensures !IsSpace(s[i]) && s[i] != ',' {
      if i < |w| {
        assert s[i] == w[i];
      } else if i > |w| {
        assert s[i] == f[i - |w| - 1];
      }
    }
  }

  /** `parseAmount` treats the first comma exactly like a decimal point. */
  lemma ParseAmountCommaAsDot(a: string, b: string)
    requires ',' !in a && ',' !in b
    ensures ParseAmount(Some(a + [','] + b)) == ParseAmount(Some(a + ['.'] + b))
  {
    var sa, sb := StripSpaces(a), StripSpaces(b);
    StripSpacesAfterTrim(a + [','] + b);
    StripSpacesAfterTrim(a + ['.'] + b);
    StripSpacesAround(a, ',', b);
    StripSpacesAround(a, '.', b);
    ReplaceFirstSplit(sa, sb, ',', '.');
    assert ',' !in sa + ['.'] + sb;
    ReplaceFirstAbsent(sa + ['.'] + sb, ',', '.');
  }

  /** White space anywhere in the text is ignored: `"1 000,5"` parses as `"1000,5"`. */
  lemma ParseAmountIgnoresSpaces(s: string)
    ensures ParseAmount(Some(s)) == ParseAmount(Some(StripSpaces(s)))
  {
    StripSpacesAfterTrim(s);
    StripSpacesAfterTrim(StripSpaces(s));
  }

  /** Blank text parses to 0 rather than NaN, so only the callers' `> 0` test rejects it. */
  lemma ParseAmountOfBlank(s: string)
    requires forall k :: 0 <= k < |s| ==> IsSpace(s[k])
    ensures ParseAmount(Some(s)) == Finite(0.0)
  {
    StripSpacesAfterTrim(s);
    StripSpacesOfSpaces(s);
  }
}
