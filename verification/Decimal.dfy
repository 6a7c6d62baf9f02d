/** Powers of ten and the numbers that runs of digits denote. */
module Decimal {
  import opened Text

  /** Ten to any integer power, exactly. */
  function Pow10(e: int): (r: real)
    ensures r > 0.0
    decreases if e >= 0 then e else -e
  {
    if e == 0 then 1.0 else if e > 0 then 10.0 * Pow10(e - 1) else Pow10(e + 1) / 10.0
  }

  lemma Pow10Step(e: int)
    ensures Pow10(e + 1) == 10.0 * Pow10(e)
    ensures Pow10(0) == 1.0
  {
  }

  lemma TimesTen(x: real, y: real)
    ensures 10.0 * (x * y) == x * (10.0 * y)
  {
  }

  lemma {:induction false} Pow10Add(a: int, b: int)
    ensures Pow10(a + b) == Pow10(a) * Pow10(b)
    decreases if b >= 0 then b else -b
  {
    hide Pow10;
    Pow10Step(0);
    if b > 0 {
      Pow10Add(a, b - 1);
      Pow10Step(a + b - 1);
      Pow10Step(b - 1);
      TimesTen(Pow10(a), Pow10(b - 1));
    } else if b < 0 {
      Pow10Add(a, b + 1);
      Pow10Step(a + b);
      Pow10Step(b);
      TimesTen(Pow10(a), Pow10(b));
    }
  }

  lemma {:induction false} Pow10Grows(a: int, b: int)
    requires a <= b
    ensures Pow10(a) <= Pow10(b)
    ensures a < b ==> 10.0 * Pow10(a) <= Pow10(b)
    decreases b - a
  {
    hide Pow10;
    if a < b {
      Pow10Grows(a, b - 1);
      Pow10Step(b - 1);
    }
  }

  function Power(n: nat): (r: nat)
    ensures r >= 1
  {
    if n == 0 then 1 else 10 * Power(n - 1)
  }

  lemma {:induction false} PowerIsPow10(n: nat)
    ensures Power(n) as real == Pow10(n)
  {
    if n > 0 { PowerIsPow10(n - 1); }
  }

  /** x * 10^e, exactly. */
  function Scaled(x: real, e: int): real { x * Pow10(e) }

  predicate IsInteger(x: real) { x == x.Floor as real }

  lemma IntIsInteger(n: int)
    ensures IsInteger(n as real)
  {
  }

  lemma RealProduct(a: int, b: int)
    ensures a as real * b as real == (a * b) as real
  {
  }

  lemma ScaleBack(d: real, p: real, q: real)
    requires p * q == 1.0
    ensures (d * p) * q == d
  {
    assert (d * p) * q == d * (p * q);
  }

  lemma TenDivides(d: nat, k: int, m: nat)
    requires d == k * (10 * m)
    ensures d % 10 == 0
  {
    assert d == 10 * (k * m);
  }

  lemma ScaledUp(d: nat, t: nat)
    ensures IsInteger(Scaled(d as real, t)) && Scaled(d as real, t) == (d * Power(t)) as real
  {
    hide Pow10, Power, IsInteger;
    PowerIsPow10(t);
    RealProduct(d, Power(t));
    IntIsInteger(d * Power(t));
  }

  /** An integer d * 10^t with t < 0 makes d a multiple of ten. */
  lemma ScaledDown(d: nat, t: int)
    requires t < 0 && IsInteger(Scaled(d as real, t))
    ensures d % 10 == 0
  {
    hide Pow10, Power;
    var k := Scaled(d as real, t).Floor;
    Pow10Add(t, -t);
    Pow10Step(0);
    ScaleBack(d as real, Pow10(t), Pow10(-t));
    PowerIsPow10(-t);
    RealProduct(k, Power(-t));
    PowerStep(-t - 1);
    TenDivides(d, k, Power(-t - 1));
  }

  /** A number that does not end in zero times a power of ten is an integer exactly
      when the power is not negative. */
  lemma IntegerExactly(d: nat, t: int)
    requires d % 10 != 0
    ensures t >= 0 <==> IsInteger(Scaled(d as real, t))
  {
    hide Scaled, IsInteger;
    if t >= 0 { ScaledUp(d, t); }
    else if IsInteger(Scaled(d as real, t)) { ScaledDown(d, t); }
  }

  lemma PowerStep(n: nat)
    ensures Power(n + 1) == 10 * Power(n)
  {
  }

  // ------------------------------------------------------------------------ digits

  lemma {:induction false} NatOfConcat(a: string, b: string)
    requires AllDigits(a) && AllDigits(b)
    ensures AllDigits(a + b) && NatOf(a + b) == NatOf(a) * Power(|b|) + NatOf(b)
  {
    if b == "" {
      assert a + b == a;
    } else {
      var init := b[..|b| - 1];
      NatOfConcat(a, init);
      assert (a + b)[..|a + b| - 1] == a + init;
      assert NatOf(a) * Power(|b|) == 10 * (NatOf(a) * Power(|init|));
    }
  }

  lemma {:induction false} NatOfBelow(s: string)
    requires AllDigits(s)
    ensures NatOf(s) < Power(|s|)
  {
    if s != "" { NatOfBelow(s[..|s| - 1]); }
  }

  lemma OneDigit(c: char)
    requires IsDigit(c)
    ensures AllDigits([c]) && NatOf([c]) == DigitValue(c)
  {
    assert [c][..0] == "";
  }

  lemma AtLeastOnce(n: nat, p: nat)
    requires n >= 1
    ensures n * p >= p
  {
  }

  /** Without a leading zero the length fixes the magnitude. */
  lemma NatOfAbove(s: string)
    requires AllDigits(s) && s != "" && s[0] != '0'
    ensures Power(|s| - 1) <= NatOf(s)
  {
    hide Power, NatOf;
    NatOfConcat(s[..1], s[1..]);
    assert s == s[..1] + s[1..];
    OneDigit(s[0]);
    assert s[..1] == [s[0]];
    AtLeastOnce(NatOf(s[..1]), Power(|s| - 1));
  }

  function TrimLeftZeros(s: string): string { if s != "" && s[0] == '0' then TrimLeftZeros(s[1..]) else s }

  function TrimRightZeros(s: string): string {
    if s != "" && s[|s| - 1] == '0' then TrimRightZeros(s[..|s| - 1]) else s
  }

  lemma {:induction false} TrimLeftKeeps(s: string)
    requires AllDigits(s)
    ensures AllDigits(TrimLeftZeros(s)) && NatOf(TrimLeftZeros(s)) == NatOf(s) && |TrimLeftZeros(s)| <= |s|
    ensures TrimLeftZeros(s) != "" ==> TrimLeftZeros(s)[0] != '0'
    ensures TrimLeftZeros(s) == "" <==> NatOf(s) == 0
  {
    if s != "" && s[0] == '0' {
      TrimLeftKeeps(s[1..]);
      NatOfConcat(s[..1], s[1..]);
      assert s == s[..1] + s[1..] && s[..1] == [s[0]];
      OneDigit(s[0]);
    } else if s != "" {
      NatOfAbove(s);
    }
  }

  lemma TenTimesLast(n: nat, k: nat)
    ensures n * Power(k + 1) == 10 * (n * Power(k))
  {
    PowerStep(k);
  }

  lemma {:induction false} TrimRightKeeps(s: string)
    requires AllDigits(s)
    ensures var t := TrimRightZeros(s);
            && t <= s && AllDigits(t) && NatOf(s) == NatOf(t) * Power(|s| - |t|)
            && (NatOf(s) > 0 ==> t != "" && NatOf(t) % 10 != 0)
  {
    if s != "" && s[|s| - 1] == '0' {
      TrimRightKeeps(s[..|s| - 1]);
      var t := TrimRightZeros(s);
      TenTimesLast(NatOf(t), |s| - 1 - |t|);
    }
  }
}
