/**
 A reader for JSON number tokens, independent of the way they were laid out, and the proof that the layout of
 app/jobs_v22/digest.py loses nothing: the text denotes the number's magnitude and reads back to the number.
 */
module NumberReading {
  import opened Base
  import opened DecimalText
  import opened Magnitudes
  import opened NumberLayout

  /** A digit string at a point, with superfluous zeros removed on both sides. */
  function Normalize(negative: bool, digits: string, point: int): Num
    decreases |digits|
  {
    if digits == "" then Zero
    else if digits[|digits| - 1] == '0' then Normalize(negative, digits[..|digits| - 1], point)
    else if digits[0] == '0' then Normalize(negative, digits[1..], point - 1)
    else Finite(negative, digits, point)
  }

  /** The parts of an unsigned token: integer digits, fraction digits, exponent. */
  function Parts(body: string): (string, string, int) {
    var (mantissa, exponent) := Partition(body, 'e');
    var (whole, fraction) := Partition(mantissa, '.');
    (whole, fraction, if exponent != "" then IntOf(exponent) else 0)
  }

  function ReadBody(negative: bool, body: string): Num {
    var (whole, fraction, exponent) := Parts(body);
    Normalize(negative, whole + fraction, |whole| + exponent)
  }

  function ReadToken(token: string): Num {
    if token != "" && token[0] == '-' then ReadBody(true, token[1..]) else ReadBody(false, token)
  }

  // ---------------------------------------------------------------- what a token denotes

  predicate IsBody(body: string) {
    var (whole, fraction, exponent) := Parts(body);
    AllDigits(whole + fraction)
  }

  /** whole.fraction * 10^exponent, computed from the text alone. */
  function Denotes(body: string): real
    requires IsBody(body)
  {
    var (whole, fraction, exponent) := Parts(body);
    Decimal(whole + fraction, exponent - |fraction|)
  }

  function Size(n: Num): real
    requires n.Finite? ==> AllDigits(n.digits)
  {
    match n
    case Zero => 0.0
    case Finite(_, digits, point) => Magnitude(digits, point)
  }

  lemma TrailingZero(digits: string, point: int)
    requires digits != "" && AllDigits(digits) && digits[|digits| - 1] == '0'
    ensures Magnitude(digits[..|digits| - 1], point) == Magnitude(digits, point)
  {
    var front := digits[..|digits| - 1];
    var e := point - |digits|;
    assert NatOf(digits) == 10 * NatOf(front);
    Pow10Step(e);
    hide Pow10, NatOf;
    Shifted(NatOf(front) as real, NatOf(digits) as real, Pow10(e), Pow10(e + 1));
  }

  lemma Shifted(x: real, y: real, scale: real, larger: real)
    requires y == 10.0 * x && larger == 10.0 * scale
    ensures x * larger == y * scale
  {
  }

  lemma LeadingZeroMagnitude(digits: string, point: int)
    requires digits != "" && AllDigits(digits) && digits[0] == '0'
    ensures Magnitude(digits[1..], point - 1) == Magnitude(digits, point)
  {
    assert digits == "0" + digits[1..];
    LeadingZero(digits[1..]);
    hide Pow10, NatOf;
  }

  lemma {:induction false} NormalizeKeepsMagnitude(negative: bool, digits: string, point: int)
    requires AllDigits(digits)
    ensures var n := Normalize(negative, digits, point); IsNum(n) && Size(n) == Magnitude(digits, point)
    decreases |digits|
  {
    hide Magnitude;
    if digits == "" {
      EmptyMagnitude(point);
    } else if digits[|digits| - 1] == '0' {
      NormalizeKeepsMagnitude(negative, digits[..|digits| - 1], point);
      TrailingZero(digits, point);
    } else if digits[0] == '0' {
      NormalizeKeepsMagnitude(negative, digits[1..], point - 1);
      LeadingZeroMagnitude(digits, point);
    }
  }

  lemma EmptyMagnitude(point: int)
    ensures Magnitude("", point) == 0.0
  {
  }

  /** Whatever is read from a token is the number its text denotes. */
  lemma ReadBodyDenotes(negative: bool, body: string)
    requires IsBody(body)
    ensures var n := ReadBody(negative, body); IsNum(n) && Size(n) == Denotes(body)
  {
    hide Decimal, Normalize, Parts, AllDigits;
    var (whole, fraction, exponent) := Parts(body);
    assert |whole| + exponent - |whole + fraction| == exponent - |fraction|;
    NormalizeKeepsMagnitude(negative, whole + fraction, |whole| + exponent);
  }

  // ---------------------------------------------------------------- reading the layout back

  lemma {:induction false} NormalizeLeading(negative: bool, k: nat, digits: string, point: int)
    requires Significant(digits)
    ensures Normalize(negative, Zeros(k) + digits, point) == Finite(negative, digits, point - k)
  {
    var all := Zeros(k) + digits;
    if k == 0 {
      assert all == digits;
    } else {
      NormalizeLeading(negative, k - 1, digits, point - 1);
      assert all[0] == '0' && all[|all| - 1] == digits[|digits| - 1];
      assert all[1..] == Zeros(k - 1) + digits;
      hide Zeros, Significant;
    }
  }

  lemma {:induction false} NormalizeTrailing(negative: bool, digits: string, k: nat, point: int)
    requires Significant(digits)
    ensures Normalize(negative, digits + Zeros(k), point) == Finite(negative, digits, point)
  {
    var all := digits + Zeros(k);
    if k > 0 {
      assert all[..|all| - 1] == digits + Zeros(k - 1);
      NormalizeTrailing(negative, digits, k - 1, point);
    } else {
      assert all == digits;
    }
  }

  lemma FixedParts(whole: string, fraction: string)
    requires AllDigits(whole) && AllDigits(fraction)
    ensures Parts(whole + "." + fraction) == (whole, fraction, 0) && IsBody(whole + "." + fraction)
  {
    FixedSplits(whole, fraction);
    hide Partition, IntOf;
  }

  lemma WholeParts(whole: string)
    requires AllDigits(whole)
    ensures Parts(whole) == (whole, "", 0) && IsBody(whole)
  {
    NoMarks(whole);
    PartitionAbsent(whole, 'e');
    PartitionAbsent(whole, '.');
    hide Partition, IntOf;
  }

  lemma ScientificParts(digits: string, e: int, padded: bool)
    requires digits != "" && AllDigits(digits)
    ensures Parts(ReprMantissa(digits) + "e" + SignedText(e, padded)) == (digits[..1], digits[1..], e)
    ensures IsBody(ReprMantissa(digits) + "e" + SignedText(e, padded))
  {
    SignedTextReads(e, padded);
    ScientificSplits(digits, SignedText(e, padded));
    AllDigitsParts(digits, 1);
    hide Partition, IntOf, ReprMantissa;
  }

  lemma NormalizePlain(negative: bool, digits: string, point: int)
    requires Significant(digits)
    ensures Normalize(negative, digits, point) == Finite(negative, digits, point)
  {
  }

  /** The text of `repr` denotes the number it was made from. */
  lemma ReprDenotes(digits: string, point: int)
    requires Significant(digits)
    ensures IsBody(Repr(digits, point)) && ReadBody(false, Repr(digits, point)) == Finite(false, digits, point)
  {
    hide Parts, Partition, Normalize, SignedText, IsBody, ReadBody, Repr, Significant;
    if -3 <= point <= 0 {
      ReprSmallDenotes(digits, point);
    } else if 0 < point < |digits| && point <= 16 {
      ReprInnerDenotes(digits, point);
    } else if |digits| <= point <= 16 {
      ReprWholeDenotes(digits, point);
    } else {
      ReprScientificDenotes(digits, point);
    }
  }

  lemma ReprSmallDenotes(digits: string, point: int)
    requires Significant(digits) && -3 <= point <= 0
    ensures IsBody(Repr(digits, point)) && ReadBody(false, Repr(digits, point)) == Finite(false, digits, point)
  {
    var fraction := Zeros(-point) + digits;
    assert Repr(digits, point) == "0" + "." + fraction;
    FixedParts("0", fraction);
    assert "0" + fraction == Zeros(1 - point) + digits;
    NormalizeLeading(false, 1 - point, digits, 1);
    hide Parts, Normalize, Repr, IsBody;
  }

  lemma ReprInnerDenotes(digits: string, point: int)
    requires Significant(digits) && 0 < point < |digits| && point <= 16
    ensures IsBody(Repr(digits, point)) && ReadBody(false, Repr(digits, point)) == Finite(false, digits, point)
  {
    assert Repr(digits, point) == digits[..point] + "." + digits[point..];
    AllDigitsParts(digits, point);
    FixedParts(digits[..point], digits[point..]);
    assert digits[..point] + digits[point..] == digits;
    NormalizePlain(false, digits, point);
    hide Parts, Normalize, Repr, IsBody;
  }

  lemma ReprWholeDenotes(digits: string, point: int)
    requires Significant(digits) && |digits| <= point <= 16
    ensures IsBody(Repr(digits, point)) && ReadBody(false, Repr(digits, point)) == Finite(false, digits, point)
  {
    var k: nat := point - |digits|;
    assert Repr(digits, point) == digits + Zeros(k) + "." + "0";
    FixedParts(digits + Zeros(k), "0");
    assert digits + Zeros(k) + "0" == digits + Zeros(k + 1);
    NormalizeTrailing(false, digits, k + 1, point);
    hide Parts, Normalize, Repr, IsBody;
  }

  lemma ReprScientificDenotes(digits: string, point: int)
    requires Significant(digits) && !(-3 <= point <= 16)
    ensures IsBody(Repr(digits, point)) && ReadBody(false, Repr(digits, point)) == Finite(false, digits, point)
  {
    hide Parts, Partition, IntOf, Normalize, IsBody, ReprMantissa, SignedText, Zeros;
    var body := ReprMantissa(digits) + "e" + SignedText(point - 1, true);
    assert Repr(digits, point) == body;
    hide Repr;
    ScientificParts(digits, point - 1, true);
    NormalizePlain(false, digits, point);
    ReadParts(false, body, digits[..1], digits[1..], point - 1);
    assert digits[..1] + digits[1..] == digits;
  }

  lemma ReadParts(negative: bool, body: string, whole: string, fraction: string, exponent: int)
    requires Parts(body) == (whole, fraction, exponent)
    ensures ReadBody(negative, body) == Normalize(negative, whole + fraction, |whole| + exponent)
  {
    hide Parts, Normalize;
  }

  lemma EcmaReadsBack(negative: bool, digits: string, point: int)
    requires Significant(digits)
    ensures IsBody(EcmaMagnitude(digits, point))
    ensures ReadBody(negative, EcmaMagnitude(digits, point)) == Finite(negative, digits, point)
  {
    if |digits| <= point <= 21 {
      EcmaWholeReadsBack(negative, digits, point);
    } else if 0 < point <= 21 {
      AllDigitsParts(digits, point);
      FixedParts(digits[..point], digits[point..]);
      hide Parts, Partition, Normalize, SignedText, IsBody;
      NormalizePlain(negative, digits, point);
    } else if -6 < point <= 0 {
      EcmaSmallReadsBack(negative, digits, point);
    } else {
      EcmaScientificReadsBack(negative, digits, point);
    }
  }

  lemma EcmaWholeReadsBack(negative: bool, digits: string, point: int)
    requires Significant(digits) && |digits| <= point <= 21
    ensures IsBody(EcmaMagnitude(digits, point))
    ensures ReadBody(negative, EcmaMagnitude(digits, point)) == Finite(negative, digits, point)
  {
    var whole := digits + Zeros(point - |digits|);
    assert EcmaMagnitude(digits, point) == whole == whole + "";
    WholeParts(whole);
    NormalizeTrailing(negative, digits, point - |digits|, point);
    hide Parts, Normalize, EcmaMagnitude, IsBody;
  }

  lemma EcmaSmallReadsBack(negative: bool, digits: string, point: int)
    requires Significant(digits) && -6 < point <= 0
    ensures IsBody(EcmaMagnitude(digits, point))
    ensures ReadBody(negative, EcmaMagnitude(digits, point)) == Finite(negative, digits, point)
  {
    var fraction := Zeros(-point) + digits;
    assert EcmaMagnitude(digits, point) == "0" + "." + fraction;
    FixedParts("0", fraction);
    assert "0" + fraction == Zeros(1 - point) + digits;
    NormalizeLeading(negative, 1 - point, digits, 1);
    hide Parts, Normalize, EcmaMagnitude, IsBody;
  }

  lemma EcmaScientificReadsBack(negative: bool, digits: string, point: int)
    requires Significant(digits) && !(-6 < point <= 21)
    ensures IsBody(EcmaMagnitude(digits, point))
    ensures ReadBody(negative, EcmaMagnitude(digits, point)) == Finite(negative, digits, point)
  {
    EcmaScientific(digits, point);
    ScientificParts(digits, point - 1, false);
    AllDigitsParts(digits, 1);
    NormalizePlain(negative, digits, point);
    hide Parts, Normalize, EcmaMagnitude, IsBody, ReprMantissa, SignedText;
  }

  lemma EcmaScientific(digits: string, point: int)
    requires digits != "" && !(-6 < point <= 21)
    ensures EcmaMagnitude(digits, point) == ReprMantissa(digits) + "e" + SignedText(point - 1, false)
  {
    hide SignedText;
    if |digits| == 1 {
      assert digits[..1] == digits;
    } else {
      var tail := SignedText(point - 1, false);
      assert digits[..1] + "." + digits[1..] + "e" + tail == digits[..1] + ("." + digits[1..]) + "e" + tail;
    }
  }

  /** The rendered magnitude denotes exactly the magnitude that `repr` denotes. */
  lemma RenderedKeepsValue(digits: string, point: int, large: bool)
    requires Significant(digits)
    requires large <==> !(InFixedRange(digits, point))
    ensures IsBody(Repr(digits, point)) && IsBody(Render(Repr(digits, point), large))
    ensures Denotes(Render(Repr(digits, point), large)) == Denotes(Repr(digits, point)) == Magnitude(digits, point)
  {
    RenderedIsEcma(digits, point, large);
    hide Pow10, Magnitude, Render, Repr, EcmaMagnitude, ReadBody, Denotes, IsBody;
    EcmaReadsBack(false, digits, point);
    ReprDenotes(digits, point);
    ReadBodyDenotes(false, Repr(digits, point));
    ReadBodyDenotes(false, EcmaMagnitude(digits, point));
  }

  // ---------------------------------------------------------------- whole tokens

  predicate IsNumberChar(c: char) {
    IsDigit(c) || c == '-' || c == '+' || c == '.' || c == 'e'
  }

  predicate AllNumberChars(s: string) {
    forall i | 0 <= i < |s| :: IsNumberChar(s[i])
  }

  lemma EcmaChars(n: Num)
    requires IsNum(n)
    ensures EcmaLayout(n) != "" && AllNumberChars(EcmaLayout(n))
    ensures IsDigit(EcmaLayout(n)[0]) || EcmaLayout(n)[0] == '-'
    ensures n.Finite? ==> IsDigit(EcmaMagnitude(n.digits, n.point)[0])
  {
    if n.Finite? {
      EcmaMagnitudeChars(n.digits, n.point);
    }
  }

  lemma SignedTextChars(e: int)
    ensures AllNumberChars(SignedText(e, false))
  {
    var digits := NatText(if e < 0 then -e else e);
    hide NatText;
    assert forall i | 0 <= i < |digits| :: IsDigit(digits[i]);
  }

  lemma EcmaMagnitudeChars(digits: string, point: int)
    requires Significant(digits)
    ensures EcmaMagnitude(digits, point) != "" && AllNumberChars(EcmaMagnitude(digits, point))
    ensures IsDigit(EcmaMagnitude(digits, point)[0])
  {
    SignedTextChars(point - 1);
    hide SignedText;
    if !(-6 < point <= 21) {
      EcmaScientific(digits, point);
      assert AllNumberChars(ReprMantissa(digits));
    }
  }

  /** Reading back the canonical text gives the number: nothing is lost, not even the sign. */
  lemma NumberReadsBack(n: Num)
    requires IsNum(n)
    ensures ReadToken(VerifiedNumber(n)) == n
  {
    VerifiedNumberIsEcmaLayout(n);
    hide VerifiedNumber, Parts, Normalize, EcmaMagnitude, IsBody;
    if n.Finite? {
      hide ReadBody;
      EcmaReadsBack(n.negative, n.digits, n.point);
      EcmaChars(n);
      var body := EcmaMagnitude(n.digits, n.point);
      assert ("-" + body)[1..] == body && "" + body == body;
    } else {
      ZeroReadsBack();
    }
  }

  lemma ZeroReadsBack()
    ensures ReadToken("0") == Zero
  {
    WholeParts("0");
    hide Parts, IsBody;
    assert "0" + "" == "0";
  }

  /** Different numbers have different texts. */
  lemma NumberTextsDiffer(a: Num, b: Num)
    requires IsNum(a) && IsNum(b) && VerifiedNumber(a) == VerifiedNumber(b)
    ensures a == b
  {
    NumberReadsBack(a);
    NumberReadsBack(b);
  }
}
