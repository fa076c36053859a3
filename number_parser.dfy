/**
 * The amount parser: turns user text such as "1k", "2.5m" or "-3" into an
 * integer number of coins, or None.  The text is lower-cased and trimmed;
 * a final letter k, m, g, t, p, e, z or y scales the number before it by
 * 10^3 ... 10^24; the product is truncated toward zero.  Signs and ranges
 * are not checked here: callers reject what they do not accept.
 */
module NumberParser {
  import opened Values

  // ---------------------------------------------------------------------
  // Case and whitespace normalisation
  // ---------------------------------------------------------------------

  /**
   * Lower-case an ASCII letter, and the Kelvin sign, which the runtime
   * lower-cases to 'k'.  Every other character is left as it is: no other
   * character lower-cases to a digit, a sign, a point, whitespace or a
   * suffix letter, so the parser rejects it either way.
   */
  function Lower(c: char): char {
    if 'A' <= c <= 'Z' then (c as int + 32) as char
    else if c == '\U{212A}' then 'k'
    else c
  }

  function LowerAll(s: string): (r: string)
    ensures |r| == |s|
    ensures forall k :: 0 <= k < |s| ==> r[k] == Lower(s[k])
  {
    if s == [] then [] else [Lower(s[0])] + LowerAll(s[1..])
  }

  /** The characters the runtime treats as whitespace when trimming. */
  predicate IsSpace(c: char) {
    c == ' ' || '\t' <= c <= '\r' || '\U{1C}' <= c <= '\U{1F}' || c == '\U{85}' || c == '\U{A0}'
    || c == '\U{1680}' || '\U{2000}' <= c <= '\U{200A}' || c == '\U{2028}' || c == '\U{2029}'
    || c == '\U{202F}' || c == '\U{205F}' || c == '\U{3000}'
  }

  function StripLeft(s: string): (r: string)
    ensures |r| <= |s|
    ensures r == [] || !IsSpace(r[0])
  {
    if s != [] && IsSpace(s[0]) then StripLeft(s[1..]) else s
  }

  function StripRight(s: string): (r: string)
    ensures |r| <= |s|
    ensures r == [] || !IsSpace(r[|r| - 1])
  {
    if s != [] && IsSpace(s[|s| - 1]) then StripRight(s[..|s| - 1]) else s
  }

  /** Trimming the front leaves a suffix. */
  lemma {:induction false} StripLeftIsSuffix(s: string)
    ensures StripLeft(s) == s[|s| - |StripLeft(s)|..]
  {
    if s != [] && IsSpace(s[0]) {
      StripLeftIsSuffix(s[1..]);
      assert s[1..][|s| - 1 - |StripLeft(s)|..] == s[|s| - |StripLeft(s)|..];
    }
  }

  /** Trimming the back leaves a prefix. */
  lemma {:induction false} StripRightIsPrefix(s: string)
    ensures StripRight(s) == s[..|StripRight(s)|]
  {
    if s != [] && IsSpace(s[|s| - 1]) {
      StripRightIsPrefix(s[..|s| - 1]);
      assert s[..|s| - 1][..|StripRight(s)|] == s[..|StripRight(s)|];
    }
  }

  /** Remove leading and trailing whitespace. */
  function Strip(s: string): (r: string)
    ensures r == [] || (!IsSpace(r[0]) && !IsSpace(r[|r| - 1]))
  {
    StripRightIsPrefix(StripLeft(s));
    StripRight(StripLeft(s))
  }

  /** Trimming keeps a contiguous part of the text, so a property of every character survives it. */
  lemma StripKeepsLower(s: string)
    requires forall k :: 0 <= k < |s| ==> Lower(s[k]) == s[k]
    ensures forall k :: 0 <= k < |Strip(s)| ==> Lower(Strip(s)[k]) == Strip(s)[k]
  {
    var l := StripLeft(s);
    var r := StripRight(l);
    StripLeftIsSuffix(s);
    StripRightIsPrefix(l);
    forall k | 0 <= k < |r| ensures Lower(r[k]) == r[k] {
      assert r[k] == l[k] == s[|s| - |l| + k];
    }
  }

  /** The text as the parser examines it: lower-cased, then trimmed. */
  function Normalize(s: string): string {
    Strip(LowerAll(s))
  }

  // ---------------------------------------------------------------------
  // Decimal numbers
  // ---------------------------------------------------------------------

  function Pow10(n: nat): (p: nat)
    ensures p >= 1
  {
    if n == 0 then 1 else 10 * Pow10(n - 1)
  }

  /** Power of ten of each suffix letter. */
  function SuffixExponent(c: char): Option<nat> {
    match c
    case 'k' => Some(3)
    case 'm' => Some(6)
    case 'g' => Some(9)
    case 't' => Some(12)
    case 'p' => Some(15)
    case 'e' => Some(18)
    case 'z' => Some(21)
    case 'y' => Some(24)
    case _ => None
  }

  predicate IsDigit(c: char) {
    '0' <= c <= '9'
  }

  predicate AllDigits(s: string) {
    forall k :: 0 <= k < |s| ==> IsDigit(s[k])
  }

  function DigitValue(c: char): nat {
    if IsDigit(c) then c as int - '0' as int else 0
  }

  /** Value of a string of decimal digits, most significant first. */
  function DigitsValue(s: string): nat {
    if s == [] then 0 else 10 * DigitsValue(s[..|s| - 1]) + DigitValue(s[|s| - 1])
  }

  /** A decimal number: (-1 if negative) * mantissa / 10^places. */
  datatype Decimal = Decimal(negative: bool, mantissa: nat, places: nat)

  /** Position of the first '.', or |s| when there is none. */
  function IndexOfDot(s: string): (k: nat)
    ensures k <= |s|
    ensures k < |s| ==> s[k] == '.'
    ensures forall j :: 0 <= j < k ==> s[j] != '.'
  {
    if s == [] || s[0] == '.' then 0 else 1 + IndexOfDot(s[1..])
  }

  /** Whether the text starts with a sign character. */
  predicate HasSign(t: string) {
    |t| > 0 && (t[0] == '-' || t[0] == '+')
  }

  /**
   * An unsigned decimal: digits with at most one '.', at least one digit
   * in all; gives the digits' value without the point and the number of
   * digits after it.
   */
  function ParseUnsigned(body: string): Option<(nat, nat)> {
    var k := IndexOfDot(body);
    var whole := body[..k];
    var fraction := if k < |body| then body[k + 1..] else "";
    if AllDigits(whole) && AllDigits(fraction) && |whole| + |fraction| > 0 then
      Some((DigitsValue(whole + fraction), |fraction|))
    else
      None
  }

  /**
   * The decimal numbers the runtime's float conversion accepts: optional
   * surrounding whitespace, an optional sign, then an unsigned decimal.
   */
  function ParseDecimal(s: string): Option<Decimal> {
    var t := Strip(s);
    var negative := HasSign(t) && t[0] == '-';
    match ParseUnsigned(t[if HasSign(t) then 1 else 0..])
    case None => None
    case Some((mantissa, places)) => Some(Decimal(negative, mantissa, places))
  }

  /** The exact value of a decimal scaled by 10^exponent. */
  function Scaled(d: Decimal, exponent: nat): real {
    var magnitude := (d.mantissa * Pow10(exponent)) as real / Pow10(d.places) as real;
    if d.negative then -magnitude else magnitude
  }

  /**
   * The decimal times 10^exponent, truncated toward zero as the runtime's
   * int() of a float is: the magnitude is divided down, then the sign is
   * put back.
   */
  function Truncate(d: Decimal, exponent: nat): int {
    var q := d.mantissa * Pow10(exponent) / Pow10(d.places);
    if d.negative then -q else q
  }

  lemma DivisionBounds(num: nat, den: nat)
    requires den > 0
    ensures (num / den) as real <= num as real / den as real < (num / den + 1) as real
  {
    var q := num / den;
    assert q * den <= num < q * den + den;
    assert (q * den) as real == q as real * den as real;
    assert ((q + 1) * den) as real == (q + 1) as real * den as real;
  }

  /** Truncation moves toward zero by less than one: never past zero, never more than one whole unit. */
  lemma TruncateTowardZero(d: Decimal, exponent: nat)
    ensures Scaled(d, exponent) >= 0.0 ==> Truncate(d, exponent) as real <= Scaled(d, exponent) < Truncate(d, exponent) as real + 1.0
    ensures Scaled(d, exponent) <= 0.0 ==> Truncate(d, exponent) as real - 1.0 < Scaled(d, exponent) <= Truncate(d, exponent) as real
  {
    DivisionBounds(d.mantissa * Pow10(exponent), Pow10(d.places));
  }

  // ---------------------------------------------------------------------
  // The parser
  // ---------------------------------------------------------------------

  /**
   * The number part and the power of ten of the suffix: a final suffix
   * letter counts only when something comes before it; otherwise the
   * whole text is the number, scaled by 10^0.
   */
  function SplitSuffix(t: string): (string, nat) {
    if |t| > 1 && SuffixExponent(t[|t| - 1]).Some? then
      (t[..|t| - 1], SuffixExponent(t[|t| - 1]).value)
    else
      (t, 0)
  }

  /**
   * Parse already normalised text: when it is longer than one character
   * and ends with a suffix letter, the number before the letter scaled by
   * the letter; otherwise the text must be a number by itself.  Text that
   * is not a number gives None.
   */
  function ParseNormalized(t: string): Option<int> {
    var (numeric, exponent) := SplitSuffix(t);
    match ParseDecimal(numeric)
    case None => None
    case Some(d) => Some(Truncate(d, exponent))
  }

  /**
   * Empty text gives None; anything else is lower-cased and trimmed, then
   * parsed.  Whatever is accepted has the shape of a number, optionally
   * followed by one suffix letter.
   */
  function ParseAmount(text: string): (r: Option<int>)
    ensures r.Some? ==> text != "" && AcceptedShape(Normalize(text))
  {
    if text == "" then None
    else
      var t := Normalize(text);
      ParseNormalizedSound(t);
      ParseNormalized(t)
  }

  // ---------------------------------------------------------------------
  // Normalisation does not change the result
  // ---------------------------------------------------------------------

  lemma LowerAllOfLower(s: string)
    requires forall k :: 0 <= k < |s| ==> Lower(s[k]) == s[k]
    ensures LowerAll(s) == s
  {
  }

  lemma {:induction false} StripLeftOfClean(s: string)
    requires s == [] || !IsSpace(s[0])
    ensures StripLeft(s) == s
  {
  }

  lemma {:induction false} StripOfClean(s: string)
    requires s == [] || (!IsSpace(s[0]) && !IsSpace(s[|s| - 1]))
    ensures Strip(s) == s
  {
    StripLeftOfClean(s);
  }

  /** Normalising twice is normalising once. */
  lemma NormalizeIdempotent(s: string)
    ensures Normalize(Normalize(s)) == Normalize(s)
  {
    var t := Normalize(s);
    StripKeepsLower(LowerAll(s));
    LowerAllOfLower(t);
    StripOfClean(t);
  }

  lemma EmptyIsNotANumber()
    ensures ParseNormalized("") == None
  {
    assert SplitSuffix("") == ("", 0);
  }

  /** Case and surrounding whitespace do not matter: "1K" and " 1k " parse like "1k". */
  lemma ParseIgnoresCaseAndSpace(s: string)
    ensures ParseAmount(s) == ParseAmount(Normalize(s))
  {
    if s != "" {
      if Normalize(s) == "" {
        EmptyIsNotANumber();
      } else {
        NormalizeIdempotent(s);
      }
    }
  }

  // ---------------------------------------------------------------------
  // Round trips
  // ---------------------------------------------------------------------

  lemma {:induction false} DigitsOfNat(n: nat)
    ensures AllDigits(NatToString(n))
    ensures DigitsValue(NatToString(n)) == n
    decreases n
  {
    if n >= 10 {
      DigitsOfNat(n / 10);
      var s := NatToString(n);
      assert s[..|s| - 1] == NatToString(n / 10);
    }
  }

  lemma NoDotInDigits(s: string)
    requires AllDigits(s)
    ensures IndexOfDot(s) == |s|
  {
  }

  lemma ParseDigits(digits: string)
    requires AllDigits(digits) && |digits| > 0
    ensures ParseUnsigned(digits) == Some((DigitsValue(digits), 0))
  {
    NoDotInDigits(digits);
    assert digits[..|digits|] + "" == digits;
  }

  /** The first '.' after a run of digits is the one right after them. */
  lemma {:induction false} IndexOfDotAfterDigits(whole: string, rest: string)
    requires AllDigits(whole) && |rest| > 0 && rest[0] == '.'
    ensures IndexOfDot(whole + rest) == |whole|
    decreases |whole|
  {
    if whole != [] {
      assert (whole + rest)[1..] == whole[1..] + rest;
      IndexOfDotAfterDigits(whole[1..], rest);
    }
  }

  /** Digits, a point, digits: the value of all the digits, scaled down by the digits after the point. */
  lemma ParseUnsignedWithPoint(whole: string, fraction: string)
    requires AllDigits(whole) && AllDigits(fraction) && |whole| + |fraction| > 0
    ensures ParseUnsigned(whole + ['.'] + fraction) == Some((DigitsValue(whole + fraction), |fraction|))
  {
    var body := whole + ['.'] + fraction;
    assert body == whole + (['.'] + fraction);
    IndexOfDotAfterDigits(whole, ['.'] + fraction);
    assert body[..|whole|] == whole;
    assert body[|whole| + 1..] == fraction;
  }

  /** What an accepted unsigned decimal looks like: digits and at most one point, never empty. */
  lemma ParseUnsignedSound(body: string)
    requires ParseUnsigned(body).Some?
    ensures |body| > 0
    ensures forall i :: 0 <= i < |body| ==> IsDigit(body[i]) || body[i] == '.'
    ensures forall i, j :: 0 <= i < j < |body| && body[i] == '.' ==> body[j] != '.'
  {
    var k := IndexOfDot(body);
    var fraction := if k < |body| then body[k + 1..] else "";
    forall i | 0 <= i < |body| ensures IsDigit(body[i]) || body[i] == '.' {
      if i < k {
        assert body[i] == body[..k][i];
      } else if i > k {
        assert body[i] == fraction[i - k - 1];
      }
    }
    forall i, j | 0 <= i < j < |body| && body[i] == '.' ensures body[j] != '.' {
      assert i >= k;
      assert body[j] == fraction[j - k - 1];
    }
  }

  /** Clean text without a sign is read as an unsigned decimal. */
  lemma ParseDecimalUnsigned(t: string, mantissa: nat, places: nat)
    requires Strip(t) == t && !HasSign(t) && ParseUnsigned(t) == Some((mantissa, places))
    ensures ParseDecimal(t) == Some(Decimal(false, mantissa, places))
  {
    assert t[0..] == t;
  }

  lemma ParseUnsignedDigits(digits: string)
    requires AllDigits(digits) && |digits| > 0
    ensures ParseDecimal(digits) == Some(Decimal(false, DigitsValue(digits), 0))
  {
    assert IsDigit(digits[0]) && IsDigit(digits[|digits| - 1]);
    StripOfClean(digits);
    ParseDigits(digits);
    ParseDecimalUnsigned(digits, DigitsValue(digits), 0);
  }

  lemma ParseNegativeDigits(s: string)
    requires |s| > 1 && s[0] == '-' && AllDigits(s[1..])
    ensures ParseDecimal(s) == Some(Decimal(true, DigitsValue(s[1..]), 0))
  {
    assert IsDigit(s[1..][|s| - 2]);
    StripOfClean(s);
    ParseDigits(s[1..]);
  }

  /** A sign (or none) followed by digits, as the parser reads it. */
  lemma ParseSignedDigits(negative: bool, digits: string)
    requires AllDigits(digits) && |digits| > 0
    ensures ParseDecimal((if negative then "-" else "") + digits) == Some(Decimal(negative, DigitsValue(digits), 0))
  {
    if negative {
      var s := "-" + digits;
      assert s[1..] == digits;
      ParseNegativeDigits(s);
    } else {
      assert "" + digits == digits;
      ParseUnsignedDigits(digits);
    }
  }

  lemma IntToStringParts(n: int)
    ensures IntToString(n) == (if n < 0 then "-" else "") + NatToString(if n < 0 then -n else n)
    ensures AllDigits(NatToString(if n < 0 then -n else n))
    ensures DigitsValue(NatToString(if n < 0 then -n else n)) == (if n < 0 then -n else n)
  {
    DigitsOfNat(if n < 0 then -n else n);
  }

  /** The decimal rendering of an integer, as the parser reads it. */
  lemma ParseDecimalOfInt(n: int)
    ensures ParseDecimal(IntToString(n)) == Some(Decimal(n < 0, if n < 0 then -n else n, 0))
  {
    IntToStringParts(n);
    ParseSignedDigits(n < 0, NatToString(if n < 0 then -n else n));
  }

  /** Text already in lower case with no whitespace at either end is its own normal form. */
  lemma NormalizeOfClean(s: string)
    requires forall k :: 0 <= k < |s| ==> Lower(s[k]) == s[k]
    requires s == [] || (!IsSpace(s[0]) && !IsSpace(s[|s| - 1]))
    ensures Normalize(s) == s
  {
    LowerAllOfLower(s);
    assert LowerAll(s) == s;
    StripOfClean(s);
    calc {
      Normalize(s);
      Strip(LowerAll(s));
      Strip(s);
    }
  }

  /** Text made of digits and signs is unchanged by lower-casing and trimming. */
  lemma NormalizeOfSignedDigits(s: string)
    requires forall k :: 0 <= k < |s| ==> IsDigit(s[k]) || s[k] == '-'
    ensures Normalize(s) == s
  {
    NormalizeOfClean(s);
  }

  lemma IntToStringChars(n: int)
    ensures forall k :: 0 <= k < |IntToString(n)| ==> IsDigit(IntToString(n)[k]) || IntToString(n)[k] == '-'
    ensures IsDigit(IntToString(n)[|IntToString(n)| - 1])
  {
    if n < 0 {
      var digits := NatToString(-n);
      assert IntToString(n) == "-" + digits;
      assert forall k :: 1 <= k < |IntToString(n)| ==> IntToString(n)[k] == digits[k - 1];
    }
  }

  /** The decimal rendering of an integer is already normalised. */
  lemma NormalizeOfInt(n: int)
    ensures Normalize(IntToString(n)) == IntToString(n)
  {
    IntToStringChars(n);
    NormalizeOfSignedDigits(IntToString(n));
  }

  /** Scaling a whole number by 10^e needs no truncation. */
  lemma TruncateWhole(n: int, e: nat)
    ensures Truncate(Decimal(n < 0, if n < 0 then -n else n, 0), e) == n * Pow10(e)
    ensures e == 0 ==> Truncate(Decimal(n < 0, if n < 0 then -n else n, 0), e) == n
  {
    var m: nat := if n < 0 then -n else n;
    assert Pow10(0) == 1;
    if n < 0 {
      assert -(m * Pow10(e)) == n * Pow10(e);
    }
  }

  /** Text without a final suffix letter is read as a plain number. */
  lemma ParseNormalizedPlain(s: string, d: Decimal)
    requires |s| > 0 && SuffixExponent(s[|s| - 1]).None? && ParseDecimal(s) == Some(d)
    ensures ParseNormalized(s) == Some(Truncate(d, 0))
  {
    assert SplitSuffix(s) == (s, 0);
  }

  /** Text with a final suffix letter after something is read as a number scaled by the letter. */
  lemma ParseNormalizedSuffixed(s: string, d: Decimal)
    requires |s| > 1 && SuffixExponent(s[|s| - 1]).Some? && ParseDecimal(s[..|s| - 1]) == Some(d)
    ensures ParseNormalized(s) == Some(Truncate(d, SuffixExponent(s[|s| - 1]).value))
  {
  }

  lemma DigitIsNoSuffix(c: char)
    requires IsDigit(c)
    ensures SuffixExponent(c).None?
  {
  }

  lemma ParseNormalizedOfInt(n: int)
    ensures ParseNormalized(IntToString(n)) == Some(n)
  {
    var s := IntToString(n);
    var d := Decimal(n < 0, if n < 0 then -n else n, 0);
    IntToStringChars(n);
    DigitIsNoSuffix(s[|s| - 1]);
    ParseDecimalOfInt(n);
    ParseNormalizedPlain(s, d);
    TruncateWhole(n, 0);
  }

  /** Every integer's decimal rendering parses back to it. */
  lemma ParseIntToString(n: int)
    ensures ParseAmount(IntToString(n)) == Some(n)
  {
    NormalizeOfInt(n);
    ParseNormalizedOfInt(n);
  }

  /** An integer followed by a suffix letter parses to the integer times the letter's scale. */
  lemma ParseIntWithSuffix(n: int, c: char)
    requires SuffixExponent(c).Some?
    ensures ParseAmount(IntToString(n) + [c]) == Some(n * Pow10(SuffixExponent(c).value))
  {
    var t := IntToString(n);
    var s := t + [c];
    IntToStringChars(n);
    assert forall k :: 0 <= k < |s| ==> IsDigit(s[k]) || s[k] == '-' || s[k] == c;
    LowerAllOfLower(s);
    assert LowerAll(s) == s;
    StripOfClean(s);
    assert Normalize(s) == s;
    assert s[..|s| - 1] == t;
    ParseDecimalOfInt(n);
    ParseNormalizedSuffixed(s, Decimal(n < 0, if n < 0 then -n else n, 0));
    TruncateWhole(n, SuffixExponent(c).value);
  }

  /** Normalised non-empty text goes straight to the suffix and number rules. */
  lemma ParseAmountOfNormal(s: string)
    requires s != [] && Normalize(s) == s
    ensures ParseAmount(s) == ParseNormalized(s)
  {
  }

  /** "whole.fraction" is lower case, unsigned, and has no whitespace at either end. */
  lemma PointNumberIsClean(whole: string, fraction: string)
    requires AllDigits(whole) && AllDigits(fraction)
    ensures var number := whole + ['.'] + fraction;
      && (forall k :: 0 <= k < |number| ==> Lower(number[k]) == number[k])
      && !HasSign(number) && !IsSpace(number[0]) && !IsSpace(number[|number| - 1])
  {
    var number := whole + ['.'] + fraction;
    forall k | 0 <= k < |number| ensures Lower(number[k]) == number[k] {
      if k < |whole| {
        assert number[k] == whole[k];
      } else if k > |whole| {
        assert number[k] == fraction[k - |whole| - 1];
      }
    }
    if fraction == [] {
      assert number[|number| - 1] == '.';
    } else {
      assert number[|number| - 1] == fraction[|fraction| - 1];
    }
    if whole == [] {
      assert number[0] == '.';
    } else {
      assert number[0] == whole[0];
    }
  }

  /** "whole.fraction" followed by a suffix letter: the exact decimal scaled by the letter, truncated toward zero. */
  lemma ParsePointWithSuffix(whole: string, fraction: string, c: char)
    requires AllDigits(whole) && AllDigits(fraction) && |whole| + |fraction| > 0
    requires SuffixExponent(c).Some?
    ensures ParseAmount(whole + ['.'] + fraction + [c])
         == Some(Truncate(Decimal(false, DigitsValue(whole + fraction), |fraction|), SuffixExponent(c).value))
  {
    var number := whole + ['.'] + fraction;
    var s := number + [c];
    PointNumberIsClean(whole, fraction);
    assert forall k :: 0 <= k < |s| ==> Lower(s[k]) == s[k] by {
      forall k | 0 <= k < |s| ensures Lower(s[k]) == s[k] {
        if k < |number| {
          assert s[k] == number[k];
        }
      }
    }
    assert s[0] == number[0];
    NormalizeOfClean(s);
    ParseAmountOfNormal(s);
    assert s[..|s| - 1] == number;
    ParseUnsignedWithPoint(whole, fraction);
    StripOfClean(number);
    ParseDecimalUnsigned(number, DigitsValue(whole + fraction), |fraction|);
    assert s[|s| - 1] == c;
    ParseNormalizedSuffixed(s, Decimal(false, DigitsValue(whole + fraction), |fraction|));
  }

  /** A signed "whole.fraction" followed by a suffix letter: the signed exact decimal scaled by the letter, truncated toward zero. */
  lemma ParseSignedPointWithSuffix(sign: char, whole: string, fraction: string, c: char)
    requires sign == '-' || sign == '+'
    requires AllDigits(whole) && AllDigits(fraction) && |whole| + |fraction| > 0
    requires SuffixExponent(c).Some?
    ensures ParseAmount([sign] + whole + ['.'] + fraction + [c])
         == Some(Truncate(Decimal(sign == '-', DigitsValue(whole + fraction), |fraction|), SuffixExponent(c).value))
  {
    var number := [sign] + whole + ['.'] + fraction;
    var s := number + [c];
    assert number[1..] == whole + ['.'] + fraction;
    PointNumberIsClean(whole, fraction);
    assert forall k :: 0 <= k < |s| ==> Lower(s[k]) == s[k] by {
      forall k | 0 <= k < |s| ensures Lower(s[k]) == s[k] {
        if 0 < k < |number| {
          assert s[k] == number[1..][k - 1];
        }
      }
    }
    assert number[|number| - 1] == number[1..][|number| - 2];
    NormalizeOfClean(s);
    ParseAmountOfNormal(s);
    assert s[..|s| - 1] == number;
    StripOfClean(number);
    assert ParseDecimal(number) == Some(Decimal(sign == '-', DigitsValue(whole + fraction), |fraction|)) by {
      ParseUnsignedWithPoint(whole, fraction);
    }
    ParseNormalizedSuffixed(s, Decimal(sign == '-', DigitsValue(whole + fraction), |fraction|));
  }

  /** "-2.5k" is -2500. */
  lemma NegativePointSuffixExample()
    ensures ParseAmount("-2.5k") == Some(-2500)
  {
    assert ['-'] + "2" + ['.'] + "5" + ['k'] == "-2.5k";
    assert DigitsValue("2" + "5") == 25 by {
      assert "2" + "5" == "25";
      assert "25"[..1] == "2" && "2"[..0] == "";
      assert DigitsValue("2") == 2;
    }
    assert Truncate(Decimal(true, 25, 1), 3) == -2500 by {
      assert Pow10(1) == 10 && Pow10(3) == 1000;
    }
    ParseSignedPointWithSuffix('-', "2", "5", 'k');
  }

  /** "+1.5m" is 1500000. */
  lemma PlusPointSuffixExample()
    ensures ParseAmount("+1.5m") == Some(1500000)
  {
    assert ['+'] + "1" + ['.'] + "5" + ['m'] == "+1.5m";
    assert DigitsValue("1" + "5") == 15 by {
      assert "1" + "5" == "15";
      assert "15"[..1] == "1" && "1"[..0] == "";
      assert DigitsValue("1") == 1;
    }
    assert Truncate(Decimal(false, 15, 1), 6) == 1500000 by {
      assert Pow10(1) == 10 && Pow10(3) == 1000 && Pow10(6) == 1000000;
    }
    ParseSignedPointWithSuffix('+', "1", "5", 'm');
  }

  /** A suffix letter by itself is not a number: it is read as a plain number and fails. */
  lemma LoneSuffix(t: string)
    requires |t| == 1 && SuffixExponent(t[0]).Some?
    ensures ParseAmount(t) == None
  {
    assert Lower(t[0]) == t[0] && !IsSpace(t[0]) && !IsDigit(t[0]);
    LowerAllOfLower(t);
    StripOfClean(t);
    assert Normalize(t) == t;
    assert SplitSuffix(t) == (t, 0);
    assert !HasSign(t) && t[0..] == t;
    assert IndexOfDot(t) == 1;
    assert t[..1] == t;
  }

  // ---------------------------------------------------------------------
  // Worked inputs
  // ---------------------------------------------------------------------

  /** "10" is 10 and the empty text is not a number. */
  lemma PlainExamples()
    ensures ParseAmount("") == None
    ensures ParseAmount("10") == Some(10)
  {
    ParseIntToString(10);
    assert IntToString(10) == "10";
  }

  /** "1k" is 1000. */
  lemma ThousandExample()
    ensures ParseAmount("1k") == Some(1000)
  {
    assert Pow10(3) == 1000;
    ParseIntWithSuffix(1, 'k');
    assert IntToString(1) + ['k'] == "1k";
  }

  /** "-5k" is -5000. */
  lemma NegativeThousandsExample()
    ensures ParseAmount("-5k") == Some(-5000)
  {
    assert Pow10(3) == 1000;
    ParseIntWithSuffix(-5, 'k');
    assert IntToString(-5) + ['k'] == "-5k";
  }

  /** "1" followed by the Kelvin sign is read as "1k", 1000. */
  lemma KelvinExample()
    ensures ParseAmount("1\U{212A}") == Some(1000)
  {
    assert LowerAll("1\U{212A}") == "1k";
    StripOfClean("1k");
    assert Normalize("1\U{212A}") == "1k";
    ThousandExample();
    assert Normalize("1k") == "1k" by {
      NormalizeOfClean("1k");
    }
  }

  /** "whole.fraction" with no suffix: the exact decimal truncated toward zero. */
  lemma ParsePoint(whole: string, fraction: string)
    requires AllDigits(whole) && AllDigits(fraction) && |fraction| > 0
    ensures ParseAmount(whole + ['.'] + fraction)
         == Some(Truncate(Decimal(false, DigitsValue(whole + fraction), |fraction|), 0))
  {
    var s := whole + ['.'] + fraction;
    var d := Decimal(false, DigitsValue(whole + fraction), |fraction|);
    assert s[|s| - 1] == fraction[|fraction| - 1];
    DigitIsNoSuffix(s[|s| - 1]);
    assert Normalize(s) == s && Strip(s) == s by {
      PointNumberIsClean(whole, fraction);
      NormalizeOfClean(s);
      StripOfClean(s);
    }
    assert ParseDecimal(s) == Some(d) by {
      PointNumberIsClean(whole, fraction);
      ParseUnsignedWithPoint(whole, fraction);
      ParseDecimalUnsigned(s, DigitsValue(whole + fraction), |fraction|);
    }
    ParseAmountOfNormal(s);
    ParseNormalizedPlain(s, d);
  }

  /** "-whole.fraction" with no suffix: the exact negative decimal truncated toward zero. */
  lemma ParseNegativePoint(whole: string, fraction: string)
    requires AllDigits(whole) && AllDigits(fraction) && |fraction| > 0
    ensures ParseAmount("-" + whole + ['.'] + fraction)
         == Some(Truncate(Decimal(true, DigitsValue(whole + fraction), |fraction|), 0))
  {
    var number := whole + ['.'] + fraction;
    var s := "-" + number;
    assert s == "-" + whole + ['.'] + fraction;
    var d := Decimal(true, DigitsValue(whole + fraction), |fraction|);
    assert s[|s| - 1] == number[|number| - 1] == fraction[|fraction| - 1];
    DigitIsNoSuffix(s[|s| - 1]);
    assert Normalize(s) == s && Strip(s) == s by {
      PointNumberIsClean(whole, fraction);
      forall k | 0 <= k < |s| ensures Lower(s[k]) == s[k] {
        if k > 0 {
          assert s[k] == number[k - 1];
        }
      }
      NormalizeOfClean(s);
      StripOfClean(s);
    }
    assert ParseDecimal(s) == Some(d) by {
      ParseUnsignedWithPoint(whole, fraction);
      assert s[1..] == number;
    }
    ParseAmountOfNormal(s);
    ParseNormalizedPlain(s, d);
  }

  /** Normalised text that starts with a letter and does not end in a suffix letter is not a number. */
  lemma LeadingLetter(t: string)
    requires |t| > 0 && Normalize(t) == t
    requires 'a' <= t[0] <= 'z' && SuffixExponent(t[|t| - 1]).None?
    ensures ParseAmount(t) == None
  {
    ParseAmountOfNormal(t);
    assert SplitSuffix(t) == (t, 0);
    StripOfClean(t);
    assert !HasSign(t) && t[0..] == t;
    var k := IndexOfDot(t);
    assert k > 0 && t[..k][0] == t[0];
  }

  // ---------------------------------------------------------------------
  // What the parser accepts
  // ---------------------------------------------------------------------

  /**
   * The shape of a number the runtime's float conversion accepts here: an
   * optional sign first, then digits with at most one point, and at least
   * one digit.
   */
  predicate NumberText(u: string) {
    && (forall i :: 0 <= i < |u| ==> IsDigit(u[i]) || u[i] == '.' || (i == 0 && (u[i] == '-' || u[i] == '+')))
    && (forall i, j :: 0 <= i < j < |u| && u[i] == '.' ==> u[j] != '.')
    && (exists i :: 0 <= i < |u| && IsDigit(u[i]))
  }

  /** Trimming the back removes whitespace only. */
  lemma {:induction false} StripRightDropsSpaces(s: string)
    ensures forall k :: |StripRight(s)| <= k < |s| ==> IsSpace(s[k])
  {
    if s != [] && IsSpace(s[|s| - 1]) {
      StripRightDropsSpaces(s[..|s| - 1]);
    }
  }

  /**
   * The number before a suffix letter, once trimmed, is a prefix of the
   * text, and whatever the trimming dropped was whitespace.
   */
  lemma SuffixCore(t: string)
    requires |t| > 1 && !IsSpace(t[0])
    ensures var c := Strip(t[..|t| - 1]);
      && |c| <= |t| - 1
      && (forall k :: 0 <= k < |c| ==> c[k] == t[k])
      && (forall k :: |c| <= k < |t| - 1 ==> IsSpace(t[k]))
  {
    var x := t[..|t| - 1];
    StripLeftOfClean(x);
    assert Strip(x) == StripRight(x);
    StripRightIsPrefix(x);
    StripRightDropsSpaces(x);
  }

  /** Whatever the float conversion accepts is, once trimmed, a number of that shape. */
  lemma ParseDecimalSound(numeric: string)
    requires ParseDecimal(numeric).Some?
    ensures NumberText(Strip(numeric))
  {
    var u := Strip(numeric);
    var off := if HasSign(u) then 1 else 0;
    var body := u[off..];
    assert ParseUnsigned(body).Some?;
    ParseUnsignedSound(body);
    forall i | 0 <= i < |u|
      ensures IsDigit(u[i]) || u[i] == '.' || (i == 0 && (u[i] == '-' || u[i] == '+'))
    {
      if i >= off {
        assert u[i] == body[i - off];
      }
    }
    forall i, j | 0 <= i < j < |u| && u[i] == '.' ensures u[j] != '.' {
      assert u[i] == body[i - off] && u[j] == body[j - off];
    }
    var k := IndexOfDot(body);
    if k > 0 {
      assert IsDigit(body[..k][0]) && u[off] == body[0];
    } else {
      var fraction := body[k + 1..];
      assert IsDigit(fraction[0]) && u[off + 1] == fraction[0];
    }
  }

  /**
   * A number of that shape, or such a number (with whitespace allowed
   * before the letter) followed by one suffix letter.
   */
  predicate AcceptedShape(t: string) {
    || NumberText(t)
    || (|t| > 1 && SuffixExponent(t[|t| - 1]).Some? && NumberText(Strip(t[..|t| - 1])))
  }

  /** Every trimmed text the suffix and number rules accept has the accepted shape. */
  lemma ParseNormalizedSound(t: string)
    requires t == [] || (!IsSpace(t[0]) && !IsSpace(t[|t| - 1]))
    ensures ParseNormalized(t).Some? ==> AcceptedShape(t)
  {
    if ParseNormalized(t).None? {
    } else if |t| > 1 && SuffixExponent(t[|t| - 1]).Some? {
      assert SplitSuffix(t).0 == t[..|t| - 1];
      ParseDecimalSound(t[..|t| - 1]);
    } else {
      assert SplitSuffix(t).0 == t;
      ParseDecimalSound(t);
      StripOfClean(t);
    }
  }

  /** A letter anywhere but last breaks the shape. */
  lemma InnerLetterBreaksShape(t: string, i: int)
    requires 0 <= i < |t| - 1 && !IsSpace(t[0]) && 'a' <= t[i] <= 'z'
    ensures !AcceptedShape(t)
  {
    var letter := t[i];
    assert !IsDigit(letter) && letter != '.' && letter != '-' && letter != '+' && !IsSpace(letter);
    SuffixCore(t);
    var c := Strip(t[..|t| - 1]);
    assert i < |c| && c[i] == letter;
  }

  /** A letter anywhere but last makes the text not a number: "abck", "1x5". */
  lemma InnerLetterRejected(s: string, i: int)
    requires 0 <= i < |Normalize(s)| - 1 && 'a' <= Normalize(s)[i] <= 'z'
    ensures ParseAmount(s) == None
  {
    if ParseAmount(s).Some? {
      InnerLetterBreaksShape(Normalize(s), i);
    }
  }

  /** Two points break the shape. */
  lemma TwoPointsBreakShape(t: string, i: int, j: int)
    requires 0 <= i < j < |t| && !IsSpace(t[0]) && t[i] == '.' && t[j] == '.'
    ensures !AcceptedShape(t)
  {
    if |t| > 1 {
      SuffixCore(t);
      var c := Strip(t[..|t| - 1]);
      if j < |t| - 1 {
        assert !IsSpace(t[j]);
        assert j < |c| && c[i] == t[i] && c[j] == t[j];
      }
    }
  }

  /** Two points make the text not a number: "1.2.3k". */
  lemma TwoPointsRejected(s: string, i: int, j: int)
    requires 0 <= i < j < |Normalize(s)| && Normalize(s)[i] == '.' && Normalize(s)[j] == '.'
    ensures ParseAmount(s) == None
  {
    if ParseAmount(s).Some? {
      TwoPointsBreakShape(Normalize(s), i, j);
    }
  }

  /** Without a digit there is no shape. */
  lemma NoDigitBreaksShape(t: string)
    requires forall k :: 0 <= k < |t| ==> !IsDigit(t[k])
    requires t == [] || !IsSpace(t[0])
    ensures !AcceptedShape(t)
  {
    if |t| > 1 {
      SuffixCore(t);
    }
  }

  /** Text without a digit is not a number: "-k", ".", "k". */
  lemma NoDigitRejected(s: string)
    requires forall k :: 0 <= k < |Normalize(s)| ==> !IsDigit(Normalize(s)[k])
    ensures ParseAmount(s) == None
  {
    if ParseAmount(s).Some? {
      NoDigitBreaksShape(Normalize(s));
    }
  }

  /** 2.5 million is exact; -2.9 truncates toward zero to -2, not down to -3. */
  lemma TruncationExamples()
    ensures Truncate(Decimal(false, 25, 1), 6) == 2500000
    ensures Truncate(Decimal(true, 29, 1), 0) == -2
    ensures Truncate(Decimal(false, 29, 1), 0) == 2
  {
    assert Pow10(1) == 10;
    assert Pow10(6) == 1000000;
  }
}
