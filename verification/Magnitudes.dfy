/** The real numbers that decimal digit strings stand for. */
module Magnitudes {
  import opened DecimalText

  // ---------------------------------------------------------------- magnitudes

  /** 10^e for any integer exponent. */
  function Pow10(e: int): (r: real)
    ensures r > 0.0
    decreases if e < 0 then -e else e
  {
    if e == 0 then 1.0 else if e > 0 then 10.0 * Pow10(e - 1) else Pow10(e + 1) / 10.0
  }

  lemma Pow10Step(e: int)
    ensures Pow10(e + 1) == 10.0 * Pow10(e)
  {
  }

  lemma {:induction false} Pow10Grows(a: int, b: int)
    requires a <= b
    ensures Pow10(a) <= Pow10(b)
    decreases b - a
  {
    if a < b {
      Pow10Grows(a, b - 1);
      Pow10Step(b - 1);
    }
  }

  /** digits * 10^e. */
  function Decimal(digits: string, e: int): real
    requires AllDigits(digits)
  {
    NatOf(digits) as real * Pow10(e)
  }

  /** The magnitude 0.digits * 10^point; also meaningful with superfluous zeros. */
  function Magnitude(digits: string, point: int): real
    requires AllDigits(digits)
  {
    Decimal(digits, point - |digits|)
  }

  function NatPow10(k: nat): (n: nat) {
    if k == 0 then 1 else 10 * NatPow10(k - 1)
  }

  lemma {:induction false} IntegerPower(k: nat)
    ensures Pow10(k) == NatPow10(k) as real
  {
    if k > 0 {
      IntegerPower(k - 1);
    }
  }

  lemma {:induction false} DigitsBelow(s: string)
    requires AllDigits(s)
    ensures NatOf(s) < NatPow10(|s|)
  {
    if s != "" {
      DigitsBelow(s[..|s| - 1]);
    }
  }

  lemma {:induction false} DigitsAbove(s: string)
    requires s != "" && AllDigits(s) && s[0] != '0'
    ensures NatPow10(|s| - 1) <= NatOf(s)
  {
    if |s| > 1 {
      DigitsAbove(s[..|s| - 1]);
    } else {
      assert NatOf(s[..0]) == 0;
    }
  }

  function Times(x: real, y: real): real {
    x * y
  }

  lemma TenTimes(x: real, y: real)
    ensures 10.0 * Times(x, y) == Times(x, 10.0 * y)
  {
  }

  lemma OneTimes(x: real)
    ensures Times(x, 1.0) == x
  {
  }

  lemma {:induction false} Pow10Add(a: int, k: nat)
    ensures Pow10(a + k) == Times(Pow10(a), Pow10(k))
  {
    hide Times;
    if k > 0 {
      Pow10Add(a, k - 1);
      Pow10Step(a + (k - 1));
      Pow10Step(k - 1);
      assert a + (k - 1) + 1 == a + k;
      TenTimes(Pow10(a), Pow10(k - 1));
    } else {
      OneTimes(Pow10(a));
    }
  }

  /** A significant digit string at `point` lies in the decade [10^(point-1), 10^point). */
  lemma Decade(digits: string, point: int)
    requires Significant(digits)
    ensures Pow10(point - 1) <= Magnitude(digits, point) < Pow10(point)
  {
    hide Pow10, NatOf, NatPow10, Times;
    var k: nat := |digits|;
    var scale := Pow10(point - k);
    DigitsBelow(digits);
    DigitsAbove(digits);
    IntegerPower(k);
    IntegerPower(k - 1);
    assert point - k + k == point && point - k + (k - 1) == point - 1;
    Pow10Add(point - k, k);
    Pow10Add(point - k, k - 1);
    Scaled(Pow10(k - 1), NatOf(digits) as real, Pow10(k), scale);
    assert Magnitude(digits, point) == NatOf(digits) as real * scale;
  }

  lemma Scaled(low: real, x: real, high: real, scale: real)
    requires low <= x < high && scale > 0.0
    ensures Times(scale, low) <= x * scale < Times(scale, high)
  {
  }
}
