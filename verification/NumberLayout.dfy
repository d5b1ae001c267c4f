/**
 `_verified_number` of app/jobs_v22/digest.py: from Python's `repr` of a binary64 value to the number layout of
 section 3.2.2.3 of RFC 8785 (ECMAScript's Number-to-String).

 A finite non-zero number is represented by its shortest round-trip decimal: the sign, the significant digits
 (no leading or trailing zero) and the position of the decimal point, so that its magnitude is
 0.digits * 10^point. Zero stands for 0, 0.0 and -0.0.
 */
module NumberLayout {
  import opened Base
  import opened DecimalText
  import opened Magnitudes

  datatype Num = Zero | Finite(negative: bool, digits: string, point: int)

  predicate IsNum(n: Num) {
    n.Finite? ==> Significant(n.digits)
  }

  /** The bounds of fixed notation, 1e-6 and 1e21. */
  const LEAST_FIXED: real := 0.000001
  const LEAST_LARGE: real := 1_000_000_000_000_000_000_000.0

  // ---------------------------------------------------------------- repr

  /** Python's `repr` of the magnitude: fixed notation for points -3 to 16, exponent notation elsewhere. */
  function Repr(digits: string, point: int): string
    requires Significant(digits)
  {
    if -3 <= point <= 0 then "0" + "." + (Zeros(-point) + digits)
    else if 0 < point < |digits| && point <= 16 then digits[..point] + "." + digits[point..]
    else if |digits| <= point <= 16 then (digits + Zeros(point - |digits|)) + "." + "0"
    else ReprMantissa(digits) + "e" + SignedText(point - 1, true)
  }

  function ReprMantissa(digits: string): string
    requires digits != ""
  {
    digits[..1] + if |digits| > 1 then "." + digits[1..] else ""
  }

  // ---------------------------------------------------------------- _verified_number

  /** Lines 44 to 60, on the text `repr` produced. */
  function Render(text: string, large: bool): string {
    var (mantissa, exponent) := Partition(text, 'e');
    var (whole, fraction) := Partition(mantissa, '.');
    var digits := StripTrailing(whole + fraction);
    Place(digits, |whole| + if exponent != "" then IntOf(exponent) else 0, large)
  }

  function Place(digits: string, point: int, large: bool): string {
    if !large then
      if point <= 0 then "0." + Zeros(-point) + digits
      else if point >= |digits| then digits + Zeros(point - |digits|)
      else digits[..point] + "." + digits[point..]
    else
      digits[..Min(1, |digits|)] + (if |digits| > 1 then "." + digits[1..] else "") +
      "e" + SignedText(point - 1, false)
  }

  /** `1e-6 <= magnitude < 1e21`. */
  predicate InFixedRange(digits: string, point: int)
    requires AllDigits(digits)
  {
    LEAST_FIXED <= Magnitude(digits, point) < LEAST_LARGE
  }

  function VerifiedNumber(n: Num): string
    requires IsNum(n)
  {
    match n
    case Zero => "0"
    case Finite(negative, digits, point) =>
      var fixed := InFixedRange(digits, point);
      (if negative then "-" else "") + Render(Repr(digits, point), !fixed)
  }

  /** The layout of ECMAScript's Number-to-String, by the number of digits k and the point n. */
  function EcmaMagnitude(digits: string, point: int): string
    requires digits != ""
  {
    var k := |digits|;
    if k <= point <= 21 then digits + Zeros(point - k)
    else if 0 < point <= 21 then digits[..point] + "." + digits[point..]
    else if -6 < point <= 0 then "0" + "." + (Zeros(-point) + digits)
    else if k == 1 then digits + "e" + SignedText(point - 1, false)
    else digits[..1] + "." + digits[1..] + "e" + SignedText(point - 1, false)
  }

  function EcmaLayout(n: Num): string
    requires IsNum(n)
  {
    match n
    case Zero => "0"
    case Finite(negative, digits, point) => (if negative then "-" else "") + EcmaMagnitude(digits, point)
  }

  lemma FixedBounds()
    ensures LEAST_FIXED == Pow10(-6) && LEAST_LARGE == Pow10(21)
  {
    assert Pow10(7) == 10_000_000.0;
    assert Pow10(14) == 100_000_000_000_000.0;
  }

  /** The test on the magnitude is ECMAScript's test on the point. */
  lemma FixedByMagnitude(digits: string, point: int)
    requires Significant(digits)
    ensures InFixedRange(digits, point) <==> -6 < point <= 21
  {
    FixedBounds();
    Decade(digits, point);
    if point <= -6 { Pow10Grows(point, -6); } else { Pow10Grows(-6, point - 1); }
    if point <= 21 { Pow10Grows(point, 21); } else { Pow10Grows(21, point - 1); }
  }

  // ---------------------------------------------------------------- reading repr apart

  /** `whole.fraction` without an exponent. */
  lemma FixedSplits(whole: string, fraction: string)
    requires AllDigits(whole) && AllDigits(fraction)
    ensures Partition(whole + "." + fraction, 'e') == (whole + "." + fraction, "")
    ensures Partition(whole + "." + fraction, '.') == (whole, fraction)
  {
    NoMarks(whole);
    NoMarks(fraction);
    PartitionAbsent(whole + "." + fraction, 'e');
    PartitionAt(whole, '.', fraction);
  }

  /** A mantissa of one digit or of one digit and a fraction, with an exponent. */
  lemma ScientificSplits(digits: string, exponent: string)
    requires digits != "" && AllDigits(digits) && 'e' !in exponent
    ensures Partition(ReprMantissa(digits) + "e" + exponent, 'e') == (ReprMantissa(digits), exponent)
    ensures Partition(ReprMantissa(digits), '.') == (digits[..1], digits[1..])
  {
    NoMarks(digits);
    PartitionAt(ReprMantissa(digits), 'e', exponent);
    if |digits| > 1 {
      PartitionAt(digits[..1], '.', digits[1..]);
    } else {
      PartitionAbsent(digits, '.');
      assert digits[..1] == digits && digits[1..] == "";
    }
  }

  lemma AllDigitsParts(digits: string, k: nat)
    requires AllDigits(digits) && k <= |digits|
    ensures AllDigits(digits[..k]) && AllDigits(digits[k..])
    ensures digits[..k] + digits[k..] == digits
  {
  }

  lemma NothingToStrip(digits: string)
    requires Significant(digits)
    ensures StripTrailing(digits) == digits
  {
  }

  /** Zero or one digit text: both layouts put the same digits at the same place. */
  lemma RenderSmall(digits: string, point: int, large: bool)
    requires Significant(digits) && -3 <= point <= 0
    requires large <==> !(-6 < point <= 21)
    ensures Render(Repr(digits, point), large) == EcmaMagnitude(digits, point)
  {
    var fraction := Zeros(-point) + digits;
    FixedSplits("0", fraction);
    var all := "0" + fraction;
    assert StripTrailing(all) == all;
    assert all[..1] + "." + all[1..] == "0" + "." + fraction;
  }

  /** What the rendering computes once the text is taken apart. */
  lemma RenderParts(text: string, large: bool, mantissa: string, exponent: string, whole: string, fraction: string)
    requires Partition(text, 'e') == (mantissa, exponent) && Partition(mantissa, '.') == (whole, fraction)
    ensures Render(text, large) ==
          Place(StripTrailing(whole + fraction), |whole| + if exponent != "" then IntOf(exponent) else 0, large)
  {
    hide Partition, StripTrailing, IntOf, Place;
  }

  lemma PlaceIsEcma(digits: string, point: int, large: bool)
    requires Significant(digits)
    requires large <==> !(-6 < point <= 21)
    ensures Place(digits, point, large) == EcmaMagnitude(digits, point)
  {
    hide SignedText;
    if large {
      assert |digits| == 1 ==> digits[..1] == digits;
      var tail := SignedText(point - 1, false);
      assert digits[..1] + "." + digits[1..] + "e" + tail == digits[..1] + ("." + digits[1..]) + "e" + tail;
    } else if point <= 0 {
      assert "0" + "." + (Zeros(-point) + digits) == "0." + Zeros(-point) + digits;
    }
  }

  lemma RenderMixed(digits: string, point: int, large: bool)
    requires Significant(digits) && 0 < point < |digits| && point <= 16
    ensures Render(Repr(digits, point), large) == Place(digits, point, large)
  {
    hide Partition, Render, Place, StripTrailing, IntOf;
    AllDigitsParts(digits, point);
    assert Repr(digits, point) == digits[..point] + "." + digits[point..];
    FixedSplits(digits[..point], digits[point..]);
    NothingToStrip(digits);
    RenderParts(Repr(digits, point), large, Repr(digits, point), "", digits[..point], digits[point..]);
  }

  lemma RenderWhole(digits: string, point: int, large: bool)
    requires Significant(digits) && |digits| <= point <= 16
    ensures Render(Repr(digits, point), large) == Place(digits, point, large)
  {
    hide Partition, Render, Place, StripTrailing, IntOf;
    var whole := digits + Zeros(point - |digits|);
    assert Repr(digits, point) == whole + "." + "0";
    FixedSplits(whole, "0");
    assert whole + "0" == digits + Zeros(point - |digits| + 1);
    StripTrailingZeros(digits, point - |digits| + 1);
    RenderParts(Repr(digits, point), large, Repr(digits, point), "", whole, "0");
  }

  lemma RenderScientific(digits: string, point: int, large: bool)
    requires Significant(digits) && !(-3 <= point <= 16)
    ensures Render(Repr(digits, point), large) == Place(digits, point, large)
  {
    hide Partition, Render, Place, StripTrailing, IntOf, NatText, ReprMantissa, Zeros;
    var exponent := SignedText(point - 1, true);
    assert Repr(digits, point) == ReprMantissa(digits) + "e" + exponent;
    hide Repr;
    SignedTextReads(point - 1, true);
    ScientificSplits(digits, exponent);
    AllDigitsParts(digits, 1);
    NothingToStrip(digits);
    assert digits[..1] + digits[1..] == digits;
    RenderParts(Repr(digits, point), large, ReprMantissa(digits), exponent, digits[..1], digits[1..]);
  }

  /** The rendered magnitude is exactly the layout the standard prescribes. */
  lemma RenderedIsEcma(digits: string, point: int, large: bool)
    requires Significant(digits)
    requires large <==> !(InFixedRange(digits, point))
    ensures Render(Repr(digits, point), large) == EcmaMagnitude(digits, point)
  {
    FixedByMagnitude(digits, point);
    hide InFixedRange, Render, Repr, EcmaMagnitude, Place;
    PlaceIsEcma(digits, point, large);
    if -3 <= point <= 0 {
      RenderSmall(digits, point, large);
    } else if 0 < point < |digits| && point <= 16 {
      RenderMixed(digits, point, large);
    } else if |digits| <= point <= 16 {
      RenderWhole(digits, point, large);
    } else {
      RenderScientific(digits, point, large);
    }
  }

  /** The whole text, sign included, is ECMAScript's. */
  lemma VerifiedNumberIsEcmaLayout(n: Num)
    requires IsNum(n)
    ensures VerifiedNumber(n) == EcmaLayout(n)
  {
    if n.Finite? {
      RenderedIsEcma(n.digits, n.point, !(InFixedRange(n.digits, n.point)));
    }
  }
}
