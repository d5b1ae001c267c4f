/** Lexicographic order on code sequences: how Python compares `bytes` and `str`. */
module Lexicographic {
  import opened Base

  predicate LexLess(a: seq<int>, b: seq<int>) {
    if b == [] then false
    else if a == [] then true
    else if a[0] != b[0] then a[0] < b[0]
    else LexLess(a[1..], b[1..])
  }

  /** Equal up to place `k`, where the first one ends or has the smaller code. */
  ghost predicate ParsAt(a: seq<int>, b: seq<int>, k: nat) {
    k <= |a| && k < |b| && a[..k] == b[..k] && (k == |a| || a[k] < b[k])
  }

  /** The first difference decides, and a proper prefix comes first. */
  lemma {:induction false} LexLessIs(a: seq<int>, b: seq<int>)
    ensures LexLess(a, b) <==> exists k: nat :: ParsAt(a, b, k)
  {
    if b == [] {
    } else if a == [] || a[0] != b[0] {
      if LexLess(a, b) {
        assert ParsAt(a, b, 0);
      }
      forall k: nat | ParsAt(a, b, k) ensures LexLess(a, b) {
        if k > 0 {
          assert a[..k][0] == b[..k][0];
        }
      }
    } else {
      LexLessIs(a[1..], b[1..]);
      if LexLess(a, b) {
        var k: nat :| ParsAt(a[1..], b[1..], k);
        assert a[..k + 1] == [a[0]] + a[1..][..k] && b[..k + 1] == [b[0]] + b[1..][..k];
        assert ParsAt(a, b, k + 1);
      }
      forall k: nat | ParsAt(a, b, k) ensures LexLess(a, b) {
        assert k > 0;
        assert a[1..][..k - 1] == a[..k][1..] && b[1..][..k - 1] == b[..k][1..];
        assert ParsAt(a[1..], b[1..], k - 1);
      }
    }
  }

  lemma {:induction false} LexIrreflexive(a: seq<int>)
    ensures !LexLess(a, a)
  {
    if a != [] {
      LexIrreflexive(a[1..]);
    }
  }

  lemma {:induction false} LexTotal(a: seq<int>, b: seq<int>)
    ensures a == b || LexLess(a, b) || LexLess(b, a)
  {
    if a != [] && b != [] && a[0] == b[0] {
      LexTotal(a[1..], b[1..]);
      if a[1..] == b[1..] {
        assert a == [a[0]] + a[1..] == [b[0]] + b[1..] == b;
      }
    }
  }

  lemma {:induction false} LexTransitive(a: seq<int>, b: seq<int>, c: seq<int>)
    requires LexLess(a, b) && LexLess(b, c)
    ensures LexLess(a, c)
  {
    if a != [] && a[0] == b[0] && b[0] == c[0] {
      LexTransitive(a[1..], b[1..], c[1..]);
    }
  }

  /** Code points of a string. */
  function Codes(s: string): (c: seq<int>)
    ensures |c| == |s|
    ensures forall i | 0 <= i < |s| :: c[i] == s[i] as int
  {
    seq(|s|, i requires 0 <= i < |s| => s[i] as int)
  }

  predicate StringLess(a: string, b: string) {
    LexLess(Codes(a), Codes(b))
  }

  /** The order of texts: the first different character decides, and a proper prefix comes first. */
  ghost predicate TextBefore(a: string, b: string) {
    exists k: nat :: k <= |a| && k < |b| && a[..k] == b[..k] && (k == |a| || a[k] < b[k])
  }

  lemma StringLessIs(a: string, b: string)
    ensures StringLess(a, b) <==> TextBefore(a, b)
  {
    LexLessIs(Codes(a), Codes(b));
    if StringLess(a, b) {
      var k: nat :| ParsAt(Codes(a), Codes(b), k);
      forall i | 0 <= i < k ensures a[..k][i] == b[..k][i] {
        assert Codes(a)[..k][i] == Codes(b)[..k][i];
      }
      assert a[..k] == b[..k];
    }
    if TextBefore(a, b) {
      var k: nat :| k <= |a| && k < |b| && a[..k] == b[..k] && (k == |a| || a[k] < b[k]);
      forall i | 0 <= i < k ensures Codes(a)[i] == Codes(b)[i] {
        assert a[..k][i] == b[..k][i];
      }
      assert Codes(a)[..k] == Codes(b)[..k];
      assert ParsAt(Codes(a), Codes(b), k);
    }
  }

  lemma CodesInjective(a: string, b: string)
    requires Codes(a) == Codes(b)
    ensures a == b
  {
    assert |a| == |b|;
    forall i | 0 <= i < |a| ensures a[i] == b[i] {
      assert Codes(a)[i] == Codes(b)[i];
    }
  }

  lemma StringLessTotal(a: string, b: string)
    ensures a == b || StringLess(a, b) || StringLess(b, a)
  {
    LexTotal(Codes(a), Codes(b));
    if Codes(a) == Codes(b) {
      CodesInjective(a, b);
    }
  }
}
