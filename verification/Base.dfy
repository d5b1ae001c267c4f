/** Values shared by every component of the model. */
module Base {

  /** Python's `None` or a value. */
  datatype Option<+T> = None | Some(value: T)

  /** A call that returns a value or raises. */
  datatype Result<+T, +E> = Ok(value: T) | Err(error: E)

  /** A normalized web address; only equality matters here. */
  datatype Url = Url(text: string)

  /** Addresses of example sites, told apart by their length. */
  function Page(n: nat): (u: Url)
    ensures |u.text| == n
  {
    Url(seq(n, _ => 'a'))
  }

  function Min(a: nat, b: nat): nat {
    if a <= b then a else b
  }

  /** `max` on clock readings. */
  function Latest(a: real, b: real): real {
    if a < b then b else a
  }

  /** No element of the list occurs twice. */
  ghost predicate Distinct<T>(s: seq<T>) {
    forall i, j | 0 <= i < j < |s| :: s[i] != s[j]
  }

  /** The elements of a list. */
  function Elements<T>(s: seq<T>): set<T> {
    set x | x in s
  }

  lemma ElementsOfAppend<T>(s: seq<T>, x: T)
    ensures Elements(s + [x]) == Elements(s) + {x}
  {
  }

  /** A list without repetitions is as long as its set of elements is large. */
  lemma {:induction false} DistinctSize<T>(s: seq<T>)
    requires Distinct(s)
    ensures |Elements(s)| == |s|
  {
    if |s| == 0 {
    } else {
      var front := s[..|s| - 1];
      DistinctSize(front);
      assert s == front + [s[|s| - 1]];
      ElementsOfAppend(front, s[|s| - 1]);
    }
  }

  lemma DistinctAppend<T>(s: seq<T>, t: seq<T>)
    requires Distinct(s) && Distinct(t)
    requires forall x | x in t :: x !in s
    ensures Distinct(s + t)
  {
    forall i, j | 0 <= i < j < |s + t| ensures (s + t)[i] != (s + t)[j] {
      if i < |s| <= j {
        assert t[j - |s|] in t && s[i] in s;
      }
    }
  }

  lemma SubsetSize<T>(a: set<T>, b: set<T>)
    requires a <= b
    ensures |a| <= |b|
  {
    assert b == a + (b - a);
  }

  /** A subset that is not smaller is the whole set. */
  lemma SameSizeSubset<T>(a: set<T>, b: set<T>)
    requires a <= b && |a| >= |b|
    ensures a == b
  {
    assert b == a + (b - a);
  }
}
