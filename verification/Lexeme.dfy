/** orm/operation/types.go and orm/mcp/input.go: scientific-notation numbers (section 6
    of RFC 8259) decided on their text, without computing a power of ten. */
module Lexeme {
  import opened Text
  import Json
  import opened Decimal

  // ------------------------------------------------------------------- the grammar

  datatype Exponent = Exponent(mark: char, sign: string, digits: string)

  datatype Lexeme = Lexeme(negative: bool, whole: string, fraction: Option<string>, exponent: Option<Exponent>)

  /** number = [ minus ] int [ frac ] [ exp ]. */
  predicate WellFormed(l: Lexeme) {
    && l.whole != "" && AllDigits(l.whole) && (l.whole[0] == '0' ==> l.whole == "0")
    && (l.fraction.Some? ==> l.fraction.value != "" && AllDigits(l.fraction.value))
    && (l.exponent.Some? ==>
          && (l.exponent.value.mark == 'e' || l.exponent.value.mark == 'E')
          && (l.exponent.value.sign == "" || l.exponent.value.sign == "+" || l.exponent.value.sign == "-")
          && l.exponent.value.digits != "" && AllDigits(l.exponent.value.digits))
  }

  function FractionText(l: Lexeme): string { if l.fraction.Some? then l.fraction.value else "" }

  function ExponentText(l: Lexeme): string {
    if l.exponent.Some? then l.exponent.value.sign + l.exponent.value.digits else ""
  }

  function Mantissa(l: Lexeme): string { l.whole + if l.fraction.Some? then "." + l.fraction.value else "" }

  function Unsigned(l: Lexeme): string {
    Mantissa(l) + if l.exponent.Some? then [l.exponent.value.mark] + ExponentText(l) else ""
  }

  function Render(l: Lexeme): string { (if l.negative then "-" else "") + Unsigned(l) }

  // ------------------------------------------------------------------- the meaning

  function ExponentValue(l: Lexeme): int
    requires WellFormed(l)
  {
    if l.exponent.None? then 0
    else if l.exponent.value.sign == "-" then -(NatOf(l.exponent.value.digits) as int)
       else NatOf(l.exponent.value.digits)
  }

  function Digits(l: Lexeme): string { l.whole + FractionText(l) }

  /** The power of ten that scales the digits read as one integer. */
  function Scale(l: Lexeme): int
    requires WellFormed(l)
  {
    ExponentValue(l) - |FractionText(l)|
  }

  lemma DigitsAreDigits(l: Lexeme)
    requires WellFormed(l)
    ensures AllDigits(Digits(l))
  {
  }

  function Magnitude(l: Lexeme): real
    requires WellFormed(l)
  {
    DigitsAreDigits(l);
    Scaled(NatOf(Digits(l)) as real, Scale(l))
  }

  /** The exact number the text denotes. */
  function Value(l: Lexeme): real
    requires WellFormed(l)
  {
    if l.negative then -Magnitude(l) else Magnitude(l)
  }

  /** v * 10^s is an integer and |v| < 10^(p - s): the value fits numeric(p, s). */
  predicate Fits(l: Lexeme, p: nat, s: nat)
    requires WellFormed(l)
  {
    IsInteger(Scaled(Value(l), s)) && -Pow10(p - s) < Value(l) < Pow10(p - s)
  }

  const MAX_SAFE: nat := 9007199254740991

  /** An integer no larger than 2^53 - 1 either way. */
  predicate Safe(l: Lexeme)
    requires WellFormed(l)
  {
    IsInteger(Value(l)) && -(MAX_SAFE as real) <= Value(l) <= MAX_SAFE as real
  }

  const MODERATE: nat := 0x4000_0000_0000_0000

  // ------------------------------------------------------------------ taking it apart

  lemma LowerDigits(s: string)
    requires AllDigits(s)
    ensures ToLower(s) == s
  {
  }

  lemma LowerConcat(a: string, b: string)
    ensures ToLower(a + b) == ToLower(a) + ToLower(b)
  {
  }

  lemma LowerUnsigned(l: Lexeme)
    requires WellFormed(l)
    ensures ToLower(Unsigned(l)) == Mantissa(l) + if l.exponent.Some? then ['e'] + ExponentText(l) else ""
  {
    LowerDigits(l.whole);
    if l.fraction.Some? {
      LowerDigits(l.fraction.value);
      LowerConcat(".", l.fraction.value);
      LowerConcat(l.whole, "." + l.fraction.value);
      assert ToLower(".") == ".";
    }
    assert ToLower(Mantissa(l)) == Mantissa(l) by { assert l.fraction.None? ==> Mantissa(l) == l.whole; }
    if l.exponent.Some? {
      var e := l.exponent.value;
      LowerDigits(e.digits);
      LowerConcat(e.sign, e.digits);
      LowerConcat([e.mark], ExponentText(l));
      LowerConcat(Mantissa(l), [e.mark] + ExponentText(l));
      assert ToLower(e.sign) == e.sign && ToLower([e.mark]) == ['e'];
    } else {
      assert Unsigned(l) == Mantissa(l);
    }
  }

  lemma PrefixGone(l: Lexeme)
    requires WellFormed(l)
    ensures TrimPrefix(Render(l), "-") == Unsigned(l)
  {
    hide ToLower, Cut;
    assert Unsigned(l) != "" && Unsigned(l)[0] == l.whole[0];
    assert IsDigit(l.whole[0]);
    if l.negative { assert Render(l) == "-" + Unsigned(l); assert Render(l)[1..] == Unsigned(l); }
    else { assert Render(l) == Unsigned(l); assert !("-" <= Render(l)); }
  }

  lemma PointFound(l: Lexeme)
    requires WellFormed(l)
    ensures Cut(Mantissa(l), '.') == (l.whole, FractionText(l), l.fraction.Some?)
    ensures 'e' !in Mantissa(l)
  {
    if l.fraction.Some? {
      CutFound(l.whole, '.', l.fraction.value);
      assert l.whole + ['.'] + l.fraction.value == Mantissa(l);
    } else {
      assert Mantissa(l) == l.whole;
      CutMissing(l.whole, '.');
    }
  }

  /** Prefix, marks and point are found where the grammar puts them. */
  lemma TakenApart(l: Lexeme)
    requires WellFormed(l)
    ensures TrimPrefix(Render(l), "-") == Unsigned(l)
    ensures Cut(ToLower(Unsigned(l)), 'e') == (Mantissa(l), ExponentText(l), l.exponent.Some?)
    ensures Cut(Mantissa(l), '.') == (l.whole, FractionText(l), l.fraction.Some?)
    ensures |Unsigned(l)| >= |Digits(l)|
  {
    hide ToLower, Cut, ExponentText, WellFormed;
    PrefixGone(l);
    LowerUnsigned(l);
    PointFound(l);
    if l.exponent.Some? {
      CutFound(Mantissa(l), 'e', ExponentText(l));
      assert Mantissa(l) + ['e'] + ExponentText(l) == Mantissa(l) + (['e'] + ExponentText(l));
    } else {
      assert ToLower(Unsigned(l)) == Mantissa(l);
      CutMissing(Mantissa(l), 'e');
      NoExponentText(l);
    }
  }

  lemma NoExponentText(l: Lexeme)
    ensures l.exponent.None? ==> ExponentText(l) == ""
  {
  }

  /** strconv.ParseInt reads the exponent, unless it does not fit 64 bits. */
  lemma ExponentParses(l: Lexeme)
    requires WellFormed(l) && l.exponent.Some?
    ensures ParseInt(ExponentText(l), 64) == if -POW63 <= ExponentValue(l) < POW63 then Some(ExponentValue(l)) else None
  {
    var e := l.exponent.value;
    assert IsDigit(e.digits[0]);
    if e.sign == "" {
      assert ExponentText(l) == e.digits;
    } else { assert ExponentText(l)[0] == e.sign[0] && ExponentText(l)[1..] == e.digits; }
  }

  // ------------------------------------------------------------------- magnitudes

  lemma NegationKeepsIntegers(x: real)
    ensures IsInteger(-x) <==> IsInteger(x)
  {
    if IsInteger(x) { IntIsInteger(-x.Floor); }
    if IsInteger(-x) { IntIsInteger(-(-x).Floor); }
  }

  lemma NegatedScaling(x: real, e: int)
    ensures Scaled(-x, e) == -Scaled(x, e)
  {
    hide Pow10;
  }

  lemma EitherSign(m: real, v: real, bound: real)
    requires m >= 0.0 && (v == m || v == -m) && bound > 0.0
    ensures -bound < v < bound <==> m < bound
    ensures -bound <= v <= bound <==> m <= bound
  {
  }

  lemma SignedInteger(m: real, v: real, e: int)
    requires v == m || v == -m
    ensures IsInteger(Scaled(v, e)) <==> IsInteger(Scaled(m, e))
    ensures IsInteger(v) <==> IsInteger(m)
  {
    hide IsInteger, Scaled;
    NegatedScaling(m, e);
    NegationKeepsIntegers(Scaled(m, e));
    NegationKeepsIntegers(m);
  }

  lemma ValueIsSigned(l: Lexeme)
    requires WellFormed(l)
    ensures Value(l) == Magnitude(l) || Value(l) == -Magnitude(l)
    ensures Magnitude(l) >= 0.0
  {
    hide Pow10, NatOf, Magnitude;
    MagnitudeNonNegative(l);
  }

  lemma MagnitudeDecides(l: Lexeme, p: nat, s: nat)
    requires WellFormed(l)
    ensures Fits(l, p, s) <==> IsInteger(Scaled(Magnitude(l), s)) && Magnitude(l) < Pow10(p - s)
    ensures Safe(l) <==> IsInteger(Magnitude(l)) && Magnitude(l) <= MAX_SAFE as real
  {
    hide Pow10, IsInteger, NatOf, Magnitude, Value, Scaled;
    ValueIsSigned(l);
    SignedInteger(Magnitude(l), Value(l), s);
    EitherSign(Magnitude(l), Value(l), Pow10(p - s));
    EitherSign(Magnitude(l), Value(l), MAX_SAFE as real);
  }

  lemma MagnitudeNonNegative(l: Lexeme)
    requires WellFormed(l)
    ensures Magnitude(l) >= 0.0
  {
    hide Pow10, NatOf;
    DigitsAreDigits(l);
    ProductNonNegative(NatOf(Digits(l)), Pow10(Scale(l)));
  }

  lemma ProductNonNegative(n: nat, x: real)
    requires x > 0.0
    ensures n as real * x >= 0.0
  {
  }

  lemma ScaledProduct(d: real, a: int, b: int)
    ensures Scaled(Scaled(d, a), b) == Scaled(d, a + b)
  {
    hide Pow10;
    Pow10Add(a, b);
    assert (d * Pow10(a)) * Pow10(b) == d * (Pow10(a) * Pow10(b));
  }

  lemma ProductGrows(x: real, y: real, z: real)
    requires z > 0.0
    ensures x < y ==> x * z < y * z
    ensures x <= y ==> x * z <= y * z
  {
  }

  lemma BelowUpper(d: nat, n: nat, shift: int)
    requires d < Power(n)
    ensures Scaled(d as real, shift) < Pow10(n + shift)
  {
    hide Pow10, Power;
    PowerIsPow10(n);
    ProductGrows(d as real, Pow10(n), Pow10(shift));
    Pow10Add(n, shift);
  }

  lemma AboveLower(d: nat, n: nat, shift: int)
    requires Power(n) <= d
    ensures Pow10(n + shift) <= Scaled(d as real, shift)
  {
    hide Pow10, Power;
    PowerIsPow10(n);
    ProductGrows(Pow10(n), d as real, Pow10(shift));
    Pow10Add(n, shift);
  }

  /** d has n digits: then d * 10^shift < 10^k exactly when n + shift <= k. */
  lemma BelowExactly(d: nat, n: nat, shift: int, k: int)
    requires n >= 1 && Power(n - 1) <= d < Power(n)
    ensures Scaled(d as real, shift) < Pow10(k) <==> n + shift <= k
  {
    hide Pow10, Power;
    BelowUpper(d, n, shift);
    AboveLower(d, n - 1, shift);
    if n + shift <= k { Pow10Grows(n + shift, k); } else { Pow10Grows(k, n - 1 + shift); }
  }

  /** The digits without their zeros at both ends, and the power that makes up for it. */
  lemma TrimmedMagnitude(l: Lexeme)
    requires WellFormed(l)
    ensures var left := TrimLeftZeros(Digits(l));
            var trimmed := TrimRightZeros(left);
            && AllDigits(left) && |left| <= |Digits(l)| && |trimmed| <= |left|
            && (left == "" ==> Magnitude(l) == 0.0)
            && (left != "" ==>
                  && trimmed != "" && AllDigits(trimmed) && NatOf(trimmed) % 10 != 0
                  && Power(|trimmed| - 1) <= NatOf(trimmed) < Power(|trimmed|)
                  && Magnitude(l) == Scaled(NatOf(trimmed) as real, Scale(l) + |left| - |trimmed|))
  {
    hide Pow10, Power, NatOf;
    DigitsAreDigits(l);
    var left := TrimLeftZeros(Digits(l));
    TrimLeftKeeps(Digits(l));
    TrimRightKeeps(left);
    var trimmed := TrimRightZeros(left);
    if left != "" {
      NatOfBelow(trimmed);
      assert trimmed[0] == left[0];
      NatOfAbove(trimmed);
      PowerIsPow10(|left| - |trimmed|);
      RealProduct(NatOf(trimmed), Power(|left| - |trimmed|));
      ScaledProduct(NatOf(trimmed) as real, |left| - |trimmed|, Scale(l));
    }
  }

  // ----------------------------------------------------------------- decimalFits

  /** The decision on trimmed digits, whatever the exponent. */
  lemma FitsExactly(l: Lexeme, p: nat, s: nat)
    requires WellFormed(l) && TrimLeftZeros(Digits(l)) != ""
    ensures var left := TrimLeftZeros(Digits(l));
            var n := |TrimRightZeros(left)|;
            var shift := Scale(l) + |left| - n;
            Fits(l, p, s) <==> shift >= -(s as int) && n + shift <= p - s
  {
    hide Pow10, Power, NatOf, IsInteger, Fits, Magnitude, Scaled, Digits, TrimLeftZeros, TrimRightZeros, WellFormed,
         AllDigits;
    TrimmedMagnitude(l);
    MagnitudeDecides(l, p, s);
    var left := TrimLeftZeros(Digits(l));
    var trimmed := TrimRightZeros(left);
    var shift := Scale(l) + |left| - |trimmed|;
    ScaledProduct(NatOf(trimmed) as real, shift, s);
    IntegerExactly(NatOf(trimmed), shift + s);
    BelowExactly(NatOf(trimmed), |trimmed|, shift, p - s);
  }

  lemma ZeroFits(l: Lexeme, p: nat, s: nat)
    requires WellFormed(l) && TrimLeftZeros(Digits(l)) == ""
    ensures Fits(l, p, s) && Safe(l)
  {
    hide Pow10, NatOf, Magnitude, Fits, Safe;
    TrimmedMagnitude(l);
    MagnitudeDecides(l, p, s);
    assert Scaled(0.0, s) == 0.0;
    IntIsInteger(0);
  }

  /** decimalFits on a number text: true exactly when the value fits numeric(p, s). The
      early cut-offs on the exponent never change the answer. */
  method DecimalFits(text: string, p: nat, s: nat, ghost l: Lexeme) returns (fits: bool)
    requires WellFormed(l) && text == Render(l)
    requires |text| < MODERATE && p < MODERATE && s < MODERATE
    ensures fits <==> Fits(l, p, s)
  {
    hide Fits, Render, Unsigned, Mantissa, Digits, ExponentText, TrimLeftZeros, TrimRightZeros, Cut, ToLower, NatOf,
         ParseInt, WellFormed, AllDigits, ExponentValue;
    TakenApart(l);
    var lex := TrimPrefix(text, "-");
    PrefixShortens(text);
    var (mant, exp, has) := Cut(ToLower(lex), 'e');
    var (whole, frac, _) := Cut(mant, '.');
    DigitsJoin(l);
    var digits := TrimLeftZeros(whole + frac);
    if digits == "" { ZeroFits(l, p, s); return true; }
    FitsExactly(l, p, s);
    TrimmedMagnitude(l);
    var exponent := 0;
    NoExponent(l);
    if has {
      ExponentParses(l);
      var n := ParseInt(exp, 64);
      if n.None? { return false; }
      exponent := n.value;
    }
    if exponent > |lex| + p + 1 || exponent < -|lex| - s - 1 { return false; }
    var shift := exponent - |frac|;
    var trimmed := TrimRightZeros(digits);
    shift := shift + |digits| - |trimmed|;
    return shift >= -(s as int) && |trimmed| + shift <= p - s;
  }

  lemma PrefixShortens(text: string)
    ensures |TrimPrefix(text, "-")| <= |text|
  {
  }

  lemma DigitsJoin(l: Lexeme)
    ensures l.whole + FractionText(l) == Digits(l) && |FractionText(l)| <= |Digits(l)|
  {
  }

  lemma NoExponent(l: Lexeme)
    requires WellFormed(l)
    ensures l.exponent.None? ==> ExponentValue(l) == 0
  {
  }

  // ------------------------------------------------------------------ exactInteger

  /** An integer lexeme is a number text without fraction and exponent. */
  function IntegerLexeme(negative: bool, whole: string): Lexeme { Lexeme(negative, whole, None, None) }

  /** decimalFits on a Go integer goes through the same text. */
  lemma IntegerText(n: int)
    ensures var l := IntegerLexeme(n < 0, FormatNat(if n < 0 then -n else n));
            WellFormed(l) && Render(l) == FormatInt(n) && Value(l) == n as real
  {
    hide FormatNat;
    var m: nat := if n < 0 then -n else n;
    var l := IntegerLexeme(n < 0, FormatNat(m));
    assert FormatNat(m)[0] == '0' ==> FormatNat(m) == "0";
    assert Digits(l) == FormatNat(m);
    assert Pow10(Scale(l)) == 1.0 by { Pow10Step(0); }
  }

  // ---------------------------------------------------------------------- validID

  predicate AllZeros(s: string) { forall i :: 0 <= i < |s| ==> s[i] == '0' }

  lemma {:induction false} ZerosAreZero(s: string)
    requires AllDigits(s)
    ensures AllZeros(s) <==> NatOf(s) == 0
  {
    if s != "" {
      ZerosAreZero(s[..|s| - 1]);
      assert AllZeros(s) <==> AllZeros(s[..|s| - 1]) && s[|s| - 1] == '0';
    }
  }

  lemma NoRemainder(q: int, a: nat, b: nat, p: nat)
    requires q * p == a * p + b && b < p
    ensures b == 0
  {
    assert (q - a) * p == b;
    if q - a >= 1 {
      AtLeastOnce(q - a, p);
    } else if q - a <= -1 { AtLeastOnce(a - q, p); assert (a - q) * p == -((q - a) * p); }
  }

  /** Cutting k digits: the value is an integer exactly when they are all zeros, and
      then it is what remains. */
  lemma CutDigits(digits: string, k: int)
    requires AllDigits(digits) && 0 <= k <= |digits|
    ensures var n := |digits| - k;
            && (IsInteger(Scaled(NatOf(digits) as real, -k)) <==> AllZeros(digits[n..]))
            && (AllZeros(digits[n..]) ==> Scaled(NatOf(digits) as real, -k) == NatOf(digits[..n]) as real)
  {
    hide Pow10, Power, NatOf, IsInteger, AllZeros, Scaled;
    var n := |digits| - k;
    var a, b := NatOf(digits[..n]), NatOf(digits[n..]);
    assert digits == digits[..n] + digits[n..];
    NatOfConcat(digits[..n], digits[n..]);
    NatOfBelow(digits[n..]);
    ZerosAreZero(digits[n..]);
    if AllZeros(digits[n..]) {
      Unscale(a, k);
      IntIsInteger(a);
    } else if IsInteger(Scaled(NatOf(digits) as real, -k)) {
      Rescale(NatOf(digits), k);
      NoRemainder(Scaled(NatOf(digits) as real, -k).Floor, a, b, Power(k));
    }
  }

  lemma Unscale(a: nat, k: nat)
    ensures Scaled((a * Power(k)) as real, -(k as int)) == a as real
  {
    hide Pow10, Power;
    RealProduct(a, Power(k));
    PowerIsPow10(k);
    Pow10Add(k, -(k as int));
    Pow10Step(0);
    ScaleBack(a as real, Pow10(k), Pow10(-(k as int)));
  }

  lemma Rescale(n: nat, k: nat)
    requires IsInteger(Scaled(n as real, -(k as int)))
    ensures n == Scaled(n as real, -(k as int)).Floor * Power(k)
  {
    hide Pow10, Power;
    var q := Scaled(n as real, -(k as int)).Floor;
    PowerIsPow10(k);
    Pow10Add(-(k as int), k);
    Pow10Step(0);
    ScaleBack(n as real, Pow10(-(k as int)), Pow10(k));
    RealProduct(q, Power(k));
  }

  function Zeros(n: nat): (z: string)
    ensures |z| == n && AllDigits(z) && AllZeros(z)
  {
    if n == 0 then "" else Zeros(n - 1) + "0"
  }

  lemma PadDigits(digits: string, k: nat)
    requires AllDigits(digits)
    ensures AllDigits(digits + Zeros(k)) && Scaled(NatOf(digits) as real, k) == NatOf(digits + Zeros(k)) as real
  {
    hide Pow10, Power, NatOf;
    NatOfConcat(digits, Zeros(k));
    ZerosAreZero(Zeros(k));
    PowerIsPow10(k);
    RealProduct(NatOf(digits), Power(k));
  }

  /** The magnitude with leading zeros gone. */
  lemma LeftMagnitude(l: Lexeme)
    requires WellFormed(l)
    ensures var left := TrimLeftZeros(Digits(l));
            && AllDigits(left) && |left| <= |Digits(l)|
            && Magnitude(l) == Scaled(NatOf(left) as real, Scale(l))
            && (left != "" ==> left[0] != '0' && Power(|left| - 1) <= NatOf(left) < Power(|left|))
  {
    hide Pow10, Power, NatOf;
    DigitsAreDigits(l);
    TrimLeftKeeps(Digits(l));
    var left := TrimLeftZeros(Digits(l));
    if left != "" { NatOfAbove(left); NatOfBelow(left); }
  }

  lemma SixteenDigits()
    ensures Power(16) == 10000000000000000 && MAX_SAFE < Power(16) < POW63
  {
    assert Power(4) == 10000;
    assert Power(8) == 100000000;
    assert Power(12) == 1000000000000;
  }

  /** More than sixteen digits before the point exceed every safe integer. */
  lemma TooLarge(l: Lexeme)
    requires WellFormed(l) && TrimLeftZeros(Digits(l)) != "" && |TrimLeftZeros(Digits(l))| + Scale(l) > 16
    ensures !Safe(l)
  {
    hide Pow10, Power, NatOf, Magnitude, Safe;
    LeftMagnitude(l);
    MagnitudeDecides(l, 0, 0);
    var left := TrimLeftZeros(Digits(l));
    AboveLower(NatOf(left), |left| - 1, Scale(l));
    Pow10Grows(16, |left| - 1 + Scale(l));
    PowerIsPow10(16);
    SixteenDigits();
  }

  /** A value strictly between zero and one is no integer. */
  lemma TooSmall(l: Lexeme)
    requires WellFormed(l) && TrimLeftZeros(Digits(l)) != "" && |TrimLeftZeros(Digits(l))| + Scale(l) <= 0
    ensures !Safe(l)
  {
    hide Pow10, Power, NatOf, Magnitude, Safe, IsInteger;
    LeftMagnitude(l);
    MagnitudeDecides(l, 0, 0);
    var left := TrimLeftZeros(Digits(l));
    BelowUpper(NatOf(left), |left|, Scale(l));
    Pow10Grows(|left| + Scale(l), 0);
    Pow10Step(0);
    PowerPositive(|left| - 1);
    ProductPositive(NatOf(left), Pow10(Scale(l)));
    BetweenZeroAndOne(Magnitude(l));
  }

  lemma PowerPositive(n: nat)
    ensures Power(n) >= 1
  {
  }

  lemma ProductPositive(n: nat, x: real)
    requires n >= 1 && x > 0.0
    ensures n as real * x > 0.0
  {
  }

  lemma BetweenZeroAndOne(x: real)
    requires 0.0 < x < 1.0
    ensures !IsInteger(x)
  {
  }

  /** The final comparison, on the digits of the integer itself. */
  lemma SafeDigits(l: Lexeme, digits: string)
    requires WellFormed(l) && AllDigits(digits) && digits != "" && Magnitude(l) == NatOf(digits) as real
             && |digits| <= 16
    ensures ParseInt((if l.negative then "-" else "") + digits, 64)
            == Some(if l.negative then -(NatOf(digits) as int) else NatOf(digits))
    ensures Safe(l) <==> NatOf(digits) <= MAX_SAFE
  {
    hide Pow10, Power, Magnitude, Safe, NatOf;
    MagnitudeDecides(l, 0, 0);
    IntIsInteger(NatOf(digits));
    NatOfBelow(digits);
    PowerGrows(|digits|, 16);
    SixteenDigits();
    assert IsDigit(digits[0]);
    if l.negative { assert ("-" + digits)[1..] == digits; } else { assert "" + digits == digits; }
  }

  lemma {:induction false} PowerGrows(a: nat, b: nat)
    requires a <= b
    ensures Power(a) <= Power(b)
  {
    if a < b { PowerGrows(a, b - 1); }
  }

  /** validID on a number: accepted exactly when the value is an integer between
      -(2^53 - 1) and 2^53 - 1, however the text spells it. */
  method ValidNumericId(text: string, ghost l: Lexeme) returns (valid: bool)
    requires WellFormed(l) && text == Render(l) && |text| < MODERATE
    ensures valid <==> Safe(l)
  {
    hide Safe, Render, Unsigned, Mantissa, Digits, ExponentText, TrimLeftZeros, Cut, ToLower, NatOf, ParseInt,
         WellFormed, AllDigits, ExponentValue, Magnitude, Pow10, Power, IsInteger;
    TakenApart(l);
    NegativePrefix(l);
    var neg := "-" <= text;
    var s := TrimPrefix(text, "-");
    PrefixShortens(text);
    var (mant, expText, hasExp) := Cut(ToLower(s), 'e');
    var (integer, fraction, _) := Cut(mant, '.');
    DigitsJoin(l);
    var digits := TrimLeftZeros(integer + fraction);
    if digits == "" { ZeroFits(l, 0, 0); return true; }
    LeftMagnitude(l);
    if |digits| + Scale(l) > 16 { TooLarge(l); }
    if |digits| + Scale(l) <= 0 { TooSmall(l); }
    var exp := 0;
    NoExponent(l);
    if hasExp {
      ExponentParses(l);
      var n := ParseInt(expText, 64);
      if n.None? { return false; }
      exp := n.value;
    }
    if exp > |text| + 32 || exp < -|text| - 32 { return false; }
    var shift := exp - |fraction|;
    if shift < 0 {
      var n := |digits| + shift;
      if n <= 0 { return false; }
      CutDigits(digits, -shift);
      MagnitudeDecides(l, 0, 0);
      var i := n;
      while i < |digits|
        invariant n <= i <= |digits|
        invariant forall k :: n <= k < i ==> digits[k] == '0'
      {
        if digits[i] != '0' { assert digits[n..][i - n] != '0'; return false; }
        i := i + 1;
      }
      assert AllZeros(digits[n..]);
      PrefixDigits(digits, n);
      digits := digits[..n];
    } else {
      if |digits| + shift > 16 { return false; }
      PadDigits(digits, shift);
      digits := digits + Zeros(shift);
    }
    if |digits| > 16 { return false; }
    SafeDigits(l, digits);
    var n := ParseInt((if neg then "-" else "") + digits, 64);
    return n.Some? && -(MAX_SAFE as int) <= n.value <= MAX_SAFE;
  }

  const MAX_ID_BYTES: nat := 1024

  /** A request ID as the JSON reader finds it: a string, a number text, or anything else. */
  datatype IdText = StringId(decoded: string) | NumberId(text: string) | OtherId

  /** Strings by their decoded bytes, numbers by their value, nothing else. */
  ghost predicate ValidIdText(id: IdText, l: Lexeme)
    requires id.NumberId? ==> WellFormed(l)
  {
    match id
    case StringId(decoded) => Json.ByteLength(decoded) <= MAX_ID_BYTES
    case NumberId(text) => Safe(l)
    case OtherId => false
  }

  /** validID. */
  method ValidId(id: IdText, ghost l: Lexeme) returns (valid: bool)
    requires id.NumberId? ==> WellFormed(l) && id.text == Render(l) && |id.text| < MODERATE
    ensures valid <==> ValidIdText(id, l)
  {
    hide Safe;
    match id
    case StringId(decoded) => return Json.ByteLength(decoded) <= MAX_ID_BYTES;
    case NumberId(text) => valid := ValidNumericId(text, l);
    case OtherId => return false;
  }

  lemma NegativePrefix(l: Lexeme)
    requires WellFormed(l)
    ensures "-" <= Render(l) <==> l.negative
  {
    assert Unsigned(l) != "" && Unsigned(l)[0] == l.whole[0];
    assert IsDigit(l.whole[0]);
    if l.negative { assert Render(l)[0] == '-'; } else { assert Render(l) == Unsigned(l) && Render(l)[0] != '-'; }
  }

  lemma PrefixDigits(digits: string, n: nat)
    requires AllDigits(digits) && n <= |digits|
    ensures AllDigits(digits[..n])
  {
  }
}
