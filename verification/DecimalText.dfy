/** Decimal digit strings and the Python string operations that app/jobs_v22/digest.py takes numbers apart with. */
module DecimalText {
  predicate IsDigit(c: char) {
    '0' <= c <= '9'
  }

  predicate AllDigits(s: string) {
    forall i | 0 <= i < |s| :: IsDigit(s[i])
  }

  /** Digits without a leading or trailing zero. */
  predicate Significant(s: string) {
    s != "" && AllDigits(s) && s[0] != '0' && s[|s| - 1] != '0'
  }

  // ---------------------------------------------------------------- text helpers

  function Zeros(k: nat): (s: string)
    ensures |s| == k && forall i | 0 <= i < k :: s[i] == '0'
  {
    seq(k, _ => '0')
  }

  /** `s.partition(c)` without the separator. */
  function Partition(s: string, c: char): (string, string) {
    if s == "" then ("", "")
    else if s[0] == c then ("", s[1..])
    else
      var (before, after) := Partition(s[1..], c);
      ([s[0]] + before, after)
  }

  lemma {:induction false} PartitionAt(a: string, c: char, b: string)
    requires c !in a
    ensures Partition(a + [c] + b, c) == (a, b)
  {
    var s := a + [c] + b;
    if a != "" {
      assert s[1..] == a[1..] + [c] + b;
      PartitionAt(a[1..], c, b);
      assert a == [a[0]] + a[1..];
    } else {
      assert s[1..] == b;
    }
  }

  lemma {:induction false} PartitionAbsent(a: string, c: char)
    requires c !in a
    ensures Partition(a, c) == (a, "")
  {
    if a != "" {
      PartitionAbsent(a[1..], c);
      assert a == [a[0]] + a[1..];
    }
  }

  /** `s.rstrip("0")`. */
  function StripTrailing(s: string): string {
    if s != "" && s[|s| - 1] == '0' then StripTrailing(s[..|s| - 1]) else s
  }

  lemma {:induction false} StripTrailingZeros(s: string, k: nat)
    requires s == "" || s[|s| - 1] != '0'
    ensures StripTrailing(s + Zeros(k)) == s
  {
    if k > 0 {
      var t := s + Zeros(k);
      StripTrailingZeros(s, k - 1);
      OneZeroLess(s, k);
      hide Zeros;
      assert StripTrailing(t) == StripTrailing(t[..|t| - 1]);
    } else {
      assert s + Zeros(0) == s;
    }
  }

  lemma OneZeroLess(s: string, k: nat)
    requires k > 0
    ensures var t := s + Zeros(k);
      t != "" && t[|t| - 1] == '0' && t[..|t| - 1] == s + Zeros(k - 1)
  {
  }

  /** The number written by a digit string. */
  function NatOf(s: string): nat
    requires AllDigits(s)
  {
    if s == "" then 0 else 10 * NatOf(s[..|s| - 1]) + (s[|s| - 1] as int - '0' as int)
  }

  function DigitText(d: nat): char
    requires d < 10
  {
    ('0' as int + d) as char
  }

  /** `str(k)` for a natural number. */
  function NatText(k: nat): (s: string)
    ensures s != "" && AllDigits(s) && NatOf(s) == k
  {
    if k < 10 then [DigitText(k)]
    else
      var front := NatText(k / 10);
      var s := front + [DigitText(k % 10)];
      assert s[..|s| - 1] == front;
      s
  }

  /** `int(s)` for an optionally signed digit string. */
  function IntOf(s: string): int {
    if s != "" && s[0] == '-' && AllDigits(s[1..]) then -(NatOf(s[1..]) as int)
    else if s != "" && s[0] == '+' && AllDigits(s[1..]) then NatOf(s[1..])
    else if AllDigits(s) then NatOf(s)
    else 0
  }

  /** The exponent as written by both layouts: a sign, then at least `width` digits. */
  function SignedText(e: int, padded: bool): (s: string) {
    var digits := NatText(if e < 0 then -e else e);
    (if e < 0 then "-" else "+") + (if padded && |digits| < 2 then "0" else "") + digits
  }

  /** No digit text starts with a zero but that of zero. */
  lemma {:induction false} NatTextPlain(k: nat)
    ensures NatText(k)[0] == '0' <==> k == 0
    ensures |NatText(k)| == 1 <==> k < 10
  {
    if k >= 10 {
      NatTextPlain(k / 10);
    }
  }

  /** The sign of an exponent is always written; no zero leads its digits, except to make them two where padded. */
  lemma SignedTextForm(e: int, padded: bool)
    ensures var s := SignedText(e, padded);
      && |s| >= (if padded then 3 else 2) && s[0] == (if e < 0 then '-' else '+') && AllDigits(s[1..])
      && (|s| > (if padded then 3 else 2) ==> s[1] != '0')
  {
    var digits := NatText(if e < 0 then -e else e);
    NatTextPlain(if e < 0 then -e else e);
    assert SignedText(e, padded)[1..] == if padded && |digits| < 2 then "0" + digits else digits;
  }

  lemma SignedTextReads(e: int, padded: bool)
    ensures IntOf(SignedText(e, padded)) == e
    ensures '.' !in SignedText(e, padded) && 'e' !in SignedText(e, padded)
  {
    var digits := NatText(if e < 0 then -e else e);
    var s := SignedText(e, padded);
    if padded && |digits| < 2 {
      assert s[1..] == "0" + digits;
      LeadingZero(digits);
    } else {
      assert s[1..] == digits;
    }
    NoMarks(s[1..]);
  }

  lemma NoMarks(s: string)
    requires AllDigits(s)
    ensures '.' !in s && 'e' !in s && '-' !in s && '+' !in s
  {
  }

  lemma {:induction false} LeadingZero(s: string)
    requires AllDigits(s)
    ensures AllDigits("0" + s) && NatOf("0" + s) == NatOf(s)
  {
    var t := "0" + s;
    if s != "" {
      LeadingZero(s[..|s| - 1]);
      assert t[..|t| - 1] == "0" + s[..|s| - 1];
    } else {
      assert t[..|t| - 1] == "";
    }
  }
}
