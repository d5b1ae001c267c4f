/**
 What the canonical text of app/jobs_v22/digest.py identifies: two values have the same text exactly when they are
 the same JSON value, objects being compared as maps. Digests of the texts are assumed to collide only on equal texts.
 */
module CanonicalEquality {
  import opened Base
  import opened NumberLayout
  import opened Utf16
  import opened JsonStrings
  import opened CanonicalJson

  ghost predicate SameKeys(a: seq<Member>, b: seq<Member>) {
    forall key :: key in Keys(a) <==> key in Keys(b)
  }

  /** Equal values, where objects are equal when they have the same keys with equal values. */
  ghost predicate SameJson(a: Json, b: Json)
    decreases a
  {
    match a
    case Arr(items) =>
      b.Arr? && |items| == |b.items| && forall i | 0 <= i < |items| :: SameJson(items[i], b.items[i])
    case Obj(members) =>
      && b.Obj?
      && SameKeys(members, b.members)
      && forall i, j | 0 <= i < |members| && 0 <= j < |b.members| && members[i].key == b.members[j].key ::
           SameJson(members[i].value, b.members[j].value)
    case _ => a == b
  }

  // ---------------------------------------------------------------- equal values have equal texts

  lemma SameKeysSortAlike(a: seq<string>, b: seq<string>)
    requires Distinct(a) && Distinct(b) && forall k :: k in a <==> k in b
    ensures SortKeys(a) == SortKeys(b)
  {
    SortKeysSorted(a);
    SortKeysSorted(b);
    forall k ensures k in SortKeys(a) <==> k in SortKeys(b) {
      SortKeysMembers(a, k);
      SortKeysMembers(b, k);
    }
    SortedKeysUnique(SortKeys(a), SortKeys(b));
  }

  lemma {:induction false} SameEncodesAlike(a: Json, b: Json)
    requires WellFormed(a) && WellFormed(b) && SameJson(a, b)
    ensures Encode(a) == Encode(b)
    decreases a, 0
  {
    match a
    case Arr(items) => SameItemsEncodeAlike(items, b.items);
    case Obj(members) =>
      SameKeysSortAlike(Keys(members), Keys(b.members));
      SameMembersEncodeAlike(SortKeys(Keys(members)), members, b.members);
    case _ =>
  }

  lemma {:induction false} SameItemsEncodeAlike(a: seq<Json>, b: seq<Json>)
    requires |a| == |b| && forall i | 0 <= i < |a| :: WellFormed(a[i]) && WellFormed(b[i]) && SameJson(a[i], b[i])
    ensures EncodeItems(a) == EncodeItems(b)
    decreases a, 1
  {
    if a != [] {
      SameEncodesAlike(a[0], b[0]);
      SameItemsEncodeAlike(a[1..], b[1..]);
    }
  }

  ghost predicate SameMembers(a: seq<Member>, b: seq<Member>) {
    && SameKeys(a, b)
    && forall i, j | 0 <= i < |a| && 0 <= j < |b| && a[i].key == b[j].key :: SameJson(a[i].value, b[j].value)
  }

  lemma {:induction false} SameMembersEncodeAlike(keys: seq<string>, a: seq<Member>, b: seq<Member>)
    requires SameMembers(a, b)
    requires forall i | 0 <= i < |a| :: WellFormed(a[i].value)
    requires forall i | 0 <= i < |b| :: WellFormed(b[i].value)
    ensures EncodeKeys(keys, a) == EncodeKeys(keys, b)
    decreases a, 1, keys
  {
    if keys != [] {
      var i, j := IndexOf(a, keys[0]), IndexOf(b, keys[0]);
      IndexOfFinds(a, keys[0]);
      IndexOfFinds(b, keys[0]);
      SameMembersEncodeAlike(keys[1..], a, b);
      if i < |a| && j < |b| {
        SameEncodesAlike(a[i].value, b[j].value);
      }
    }
  }

  lemma IndexOfFinds(members: seq<Member>, key: string)
    ensures IndexOf(members, key) < |members| <==> key in Keys(members)
  {
    var i := IndexOf(members, key);
    if i < |members| {
      assert Keys(members)[i] == key;
    }
  }

  lemma IndexOfDistinct(members: seq<Member>, i: nat)
    requires Distinct(Keys(members)) && i < |members|
    ensures IndexOf(members, members[i].key) == i
  {
    hide IndexOf, Keys;
    var j := IndexOf(members, members[i].key);
    assert Keys(members)[i] in Keys(members);
    IndexOfFinds(members, members[i].key);
    assert Keys(members)[j] == Keys(members)[i];
    DistinctPositions(Keys(members), i, j);
  }

  lemma DistinctPositions(keys: seq<string>, i: nat, j: nat)
    requires Distinct(keys) && i < |keys| && j < |keys| && keys[i] == keys[j]
    ensures i == j
  {
  }

  // ---------------------------------------------------------------- equal texts come from equal values

  lemma {:induction false} CanonicalItemsAt(items: seq<Json>, i: nat)
    requires i < |items|
    ensures CanonicalItems(items)[i] == Canonical(items[i])
  {
    if i > 0 {
      CanonicalItemsAt(items[1..], i - 1);
    }
  }

  ghost predicate AllPresent(keys: seq<string>, members: seq<Member>) {
    forall k | k in keys :: k in Keys(members)
  }

  lemma SortedAllPresent(members: seq<Member>)
    ensures AllPresent(SortKeys(Keys(members)), members)
  {
    SortedKeysArePresent(members);
  }

  lemma SortedHas(members: seq<Member>, i: nat)
    requires i < |members|
    ensures members[i].key in SortKeys(Keys(members))
  {
    assert Keys(members)[i] in Keys(members);
    SortKeysMembers(Keys(members), members[i].key);
  }

  lemma {:induction false} CanonicalMembersAt(keys: seq<string>, members: seq<Member>)
    requires AllPresent(keys, members)
    ensures |CanonicalMembers(keys, members)| == |keys|
    ensures forall i | 0 <= i < |keys| :: MemberAt(keys, members, i)
  {
    if keys != [] {
      IndexOfFinds(members, keys[0]);
      CanonicalMembersAt(keys[1..], members);
      forall i | 0 <= i < |keys| ensures MemberAt(keys, members, i) {
        if i > 0 {
          assert MemberAt(keys[1..], members, i - 1);
        }
      }
    }
  }

  ghost predicate MemberAt(keys: seq<string>, members: seq<Member>, i: nat) {
    var c := CanonicalMembers(keys, members);
    var at := if i < |keys| then IndexOf(members, keys[i]) else |members|;
    i < |keys| && i < |c| && at < |members| && c[i] == Member(keys[i], Canonical(members[at].value))
  }

  lemma SortedKeysArePresent(members: seq<Member>)
    ensures forall k :: k in SortKeys(Keys(members)) <==> k in Keys(members)
  {
    forall k ensures k in SortKeys(Keys(members)) <==> k in Keys(members) {
      SortKeysMembers(Keys(members), k);
    }
  }

  lemma SortedKeysAgree(p: seq<string>, q: seq<string>, a: seq<Member>, b: seq<Member>)
    requires AllPresent(p, a) && AllPresent(q, b)
    requires CanonicalMembers(p, a) == CanonicalMembers(q, b)
    ensures p == q
  {
    CanonicalMembersAt(p, a);
    CanonicalMembersAt(q, b);
    hide CanonicalMembers, IndexOf, Canonical, Keys;
    forall k | 0 <= k < |p| ensures p[k] == q[k] {
      assert MemberAt(p, a, k) && MemberAt(q, b, k);
    }
  }

  lemma KeysAgree(a: seq<Member>, b: seq<Member>)
    requires SortKeys(Keys(a)) == SortKeys(Keys(b))
    ensures SameKeys(a, b)
  {
    SortedKeysArePresent(a);
    SortedKeysArePresent(b);
    hide SortKeys, Keys;
  }

  lemma ValuesAgree(keys: seq<string>, a: seq<Member>, b: seq<Member>, i: nat, j: nat)
    requires Distinct(Keys(a)) && Distinct(Keys(b))
    requires AllPresent(keys, a) && AllPresent(keys, b)
    requires CanonicalMembers(keys, a) == CanonicalMembers(keys, b)
    requires i < |a| && j < |b| && a[i].key == b[j].key && a[i].key in keys
    ensures Canonical(a[i].value) == Canonical(b[j].value)
  {
    CanonicalMembersAt(keys, a);
    CanonicalMembersAt(keys, b);
    hide CanonicalMembers, IndexOf, Canonical, Keys, Distinct;
    var k :| 0 <= k < |keys| && keys[k] == a[i].key;
    assert MemberAt(keys, a, k) && MemberAt(keys, b, k);
    CanonicalValueAt(keys, a, k, i);
    CanonicalValueAt(keys, b, k, j);
  }

  /** Objects with the same canonical members have the same keys, and equal canonical values under each. */
  lemma CanonicalMembersDetermine(a: seq<Member>, b: seq<Member>)
    requires CanonicalMembers(SortKeys(Keys(a)), a) == CanonicalMembers(SortKeys(Keys(b)), b)
    ensures SortKeys(Keys(a)) == SortKeys(Keys(b)) && SameKeys(a, b)
  {
    hide CanonicalMembers, SortKeys, AllPresent, SameKeys;
    SortedAllPresent(a);
    SortedAllPresent(b);
    SortedKeysAgree(SortKeys(Keys(a)), SortKeys(Keys(b)), a, b);
    KeysAgree(a, b);
  }

  lemma CanonicalValuesDetermine(a: seq<Member>, b: seq<Member>, i: nat, j: nat)
    requires Distinct(Keys(a)) && Distinct(Keys(b))
    requires CanonicalMembers(SortKeys(Keys(a)), a) == CanonicalMembers(SortKeys(Keys(b)), b)
    requires i < |a| && j < |b| && a[i].key == b[j].key
    ensures Canonical(a[i].value) == Canonical(b[j].value)
  {
    hide CanonicalMembers, SortKeys, Canonical, Distinct, AllPresent, SameKeys, Keys;
    CanonicalMembersDetermine(a, b);
    SortedAllPresent(a);
    SortedAllPresent(b);
    SortedHas(a, i);
    ValuesAgree(SortKeys(Keys(a)), a, b, i, j);
  }

  lemma CanonicalValueAt(keys: seq<string>, members: seq<Member>, k: nat, i: nat)
    requires Distinct(Keys(members)) && MemberAt(keys, members, k) && i < |members| && members[i].key == keys[k]
    ensures CanonicalMembers(keys, members)[k] == Member(keys[k], Canonical(members[i].value))
  {
    IndexOfDistinct(members, i);
    hide CanonicalMembers, IndexOf, Canonical;
  }

  lemma {:induction false} CanonicalDetermines(a: Json, b: Json)
    requires WellFormed(a) && WellFormed(b) && Canonical(a) == Canonical(b)
    ensures SameJson(a, b)
    decreases a
  {
    match a
    case Arr(items) =>
      forall i | 0 <= i < |items| ensures SameJson(items[i], b.items[i]) {
        CanonicalItemsAt(items, i);
        CanonicalItemsAt(b.items, i);
        CanonicalDetermines(items[i], b.items[i]);
      }
    case Obj(members) =>
      CanonicalMembersDetermine(members, b.members);
      forall i, j | 0 <= i < |members| && 0 <= j < |b.members| && members[i].key == b.members[j].key
        ensures SameJson(members[i].value, b.members[j].value)
      {
        CanonicalValuesDetermine(members, b.members, i, j);
        CanonicalDetermines(members[i].value, b.members[j].value);
      }
    case _ =>
  }

  /** The canonical text identifies a plain value: equal texts exactly for equal values. */
  lemma TextIdentifiesValue(a: Json, b: Json)
    requires WellFormed(a) && WellFormed(b) && Plain(a) && Plain(b)
    ensures Encode(a) == Encode(b) <==> SameJson(a, b)
  {
    EncodeSucceeds(a);
    EncodeSucceeds(b);
    if Encode(a) == Encode(b) {
      ReadsBack(a, "");
      ReadsBack(b, "");
      CanonicalDetermines(a, b);
    }
    if SameJson(a, b) {
      SameEncodesAlike(a, b);
    }
  }

  // ---------------------------------------------------------------- insertion order

  lemma {:induction false} SameAsItself(v: Json)
    requires WellFormed(v)
    ensures SameJson(v, v)
    decreases v
  {
    match v
    case Arr(items) =>
      forall i | 0 <= i < |items| ensures SameJson(items[i], items[i]) {
        SameAsItself(items[i]);
      }
    case Obj(members) =>
      forall i, j | 0 <= i < |members| && 0 <= j < |members| && members[i].key == members[j].key
        ensures SameJson(members[i].value, members[j].value)
      {
        assert Keys(members)[i] == Keys(members)[j];
        SameAsItself(members[i].value);
      }
    case _ =>
  }

  /** The order in which an object's members were inserted leaves no trace in the text. */
  lemma InsertionOrderIsIrrelevant(a: seq<Member>, b: seq<Member>)
    requires WellFormed(Obj(a)) && WellFormed(Obj(b))
    requires forall m :: m in a <==> m in b
    ensures Encode(Obj(a)) == Encode(Obj(b))
  {
    forall key ensures key in Keys(a) <==> key in Keys(b) {
      KeyTransfers(a, b, key);
      KeyTransfers(b, a, key);
    }
    forall i, j | 0 <= i < |a| && 0 <= j < |b| && a[i].key == b[j].key ensures SameJson(a[i].value, b[j].value) {
      assert a[i] in b;
      var k :| 0 <= k < |b| && b[k] == a[i];
      assert Keys(b)[k] == Keys(b)[j];
      SameAsItself(a[i].value);
    }
    SameEncodesAlike(Obj(a), Obj(b));
  }

  lemma KeyTransfers(a: seq<Member>, b: seq<Member>, key: string)
    requires forall m | m in a :: m in b
    ensures key in Keys(a) ==> key in Keys(b)
  {
    if key in Keys(a) {
      var i :| 0 <= i < |a| && Keys(a)[i] == key;
      assert a[i] in b;
      var k :| 0 <= k < |b| && b[k] == a[i];
      assert Keys(b)[k] == key;
    }
  }
}
