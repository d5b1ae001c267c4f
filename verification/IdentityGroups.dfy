/**
 Competitor identity grouping: `_should_merge` and `_groups` of app/competitors_v22/candidates.py.

 An observation object is represented by its position in the observation list; a group is the list
 of its members' positions. Names, addresses, domains and provider ids are opaque normalized values,
 with "" for the falsy ones.
 */
module IdentityGroups {
  import opened Base
  import opened UnionFind

  datatype Observation = Observation(
    domain: Option<string>,
    normalizedName: string,
    normalizedAddress: string,
    strongIds: set<string>)

  datatype Group = Group(members: seq<nat>, ambiguous: bool)

  predicate HasDomain(o: Observation) {
    o.domain.Some? && o.domain.value != ""
  }

  predicate ShareStrongId(left: Observation, right: Observation) {
    left.strongIds * right.strongIds != {}
  }

  predicate ShouldMerge(left: Observation, right: Observation) {
    if ShareStrongId(left, right) then true
    else if left.strongIds != {} && right.strongIds != {} then false
    else if HasDomain(left) && left.domain == right.domain then true
    else
      && left.normalizedName != ""
      && left.normalizedAddress != ""
      && left.normalizedName == right.normalizedName
      && left.normalizedAddress == right.normalizedAddress
  }

  predicate IsStrong(obs: seq<Observation>, i: nat) {
    i < |obs| && obs[i].strongIds != {}
  }

  predicate IsWeak(obs: seq<Observation>, i: nat) {
    i < |obs| && obs[i].strongIds == {}
  }

  /** The observations one call of `connected_groups` works on. */
  predicate InPlay(obs: seq<Observation>, strongOnly: bool, i: nat) {
    if strongOnly then IsStrong(obs, i) else IsWeak(obs, i)
  }

  predicate MergeTest(strongOnly: bool, left: Observation, right: Observation) {
    if strongOnly then ShareStrongId(left, right) else ShouldMerge(left, right)
  }

  predicate Edge(obs: seq<Observation>, strongOnly: bool, a: nat, b: nat) {
    InPlay(obs, strongOnly, a) && InPlay(obs, strongOnly, b) && MergeTest(strongOnly, obs[a], obs[b])
  }

  // ---------------------------------------------------------------- chains of merges

  ghost predicate IsChain(obs: seq<Observation>, strongOnly: bool, p: seq<nat>) {
    && |p| > 0
    && (forall k | 0 <= k < |p| :: InPlay(obs, strongOnly, p[k]))
    && (forall k | 0 < k < |p| :: Edge(obs, strongOnly, p[k - 1], p[k]))
  }

  /** A chain of pairwise merges leads from `a` to `b`. */
  ghost predicate Linked(obs: seq<Observation>, strongOnly: bool, a: nat, b: nat) {
    exists p: seq<nat> :: IsChain(obs, strongOnly, p) && p[0] == a && p[|p| - 1] == b
  }

  lemma LinkedRefl(obs: seq<Observation>, strongOnly: bool, a: nat)
    requires InPlay(obs, strongOnly, a)
    ensures Linked(obs, strongOnly, a, a)
  {
    assert IsChain(obs, strongOnly, [a]);
  }

  lemma LinkedEdge(obs: seq<Observation>, strongOnly: bool, a: nat, b: nat)
    requires Edge(obs, strongOnly, a, b)
    ensures Linked(obs, strongOnly, a, b)
  {
    assert IsChain(obs, strongOnly, [a, b]);
  }

  lemma LinkedSym(obs: seq<Observation>, strongOnly: bool, a: nat, b: nat)
    requires Linked(obs, strongOnly, a, b)
    ensures Linked(obs, strongOnly, b, a)
  {
    var p: seq<nat> :| IsChain(obs, strongOnly, p) && p[0] == a && p[|p| - 1] == b;
    var q: seq<nat> := seq(|p|, k requires 0 <= k < |p| => p[|p| - 1 - k]);
    forall k | 0 < k < |q| ensures Edge(obs, strongOnly, q[k - 1], q[k]) {
      assert Edge(obs, strongOnly, p[|p| - 1 - k], p[|p| - k]);
    }
    assert IsChain(obs, strongOnly, q);
  }

  lemma LinkedTrans(obs: seq<Observation>, strongOnly: bool, a: nat, b: nat, c: nat)
    requires Linked(obs, strongOnly, a, b) && Linked(obs, strongOnly, b, c)
    ensures Linked(obs, strongOnly, a, c)
  {
    var p: seq<nat> :| IsChain(obs, strongOnly, p) && p[0] == a && p[|p| - 1] == b;
    var q: seq<nat> :| IsChain(obs, strongOnly, q) && q[0] == b && q[|q| - 1] == c;
    var r := p + q[1..];
    forall k | 0 < k < |r| ensures Edge(obs, strongOnly, r[k - 1], r[k]) {
      if k < |p| {
        assert Edge(obs, strongOnly, p[k - 1], p[k]);
      } else {
        assert Edge(obs, strongOnly, q[k - |p|], q[k - |p| + 1]);
      }
    }
    assert IsChain(obs, strongOnly, r);
  }

  lemma LinkedInPlay(obs: seq<Observation>, strongOnly: bool, a: nat, b: nat)
    requires Linked(obs, strongOnly, a, b)
    ensures InPlay(obs, strongOnly, a) && InPlay(obs, strongOnly, b)
  {
  }

  // ---------------------------------------------------------------- connected_groups

  ghost predicate Increasing(s: seq<nat>) {
    forall i, j | 0 <= i < j < |s| :: s[i] < s[j]
  }

  /** Every listed item is in exactly one group, once, and groups keep the list's order. */
  ghost predicate Covers(groups: seq<seq<nat>>, items: seq<nat>) {
    && (forall g | 0 <= g < |groups| :: groups[g] != [] && Increasing(groups[g]))
    && (forall g, x | 0 <= g < |groups| && x in groups[g] :: x in items)
    && (forall x | x in items :: exists g :: 0 <= g < |groups| && x in groups[g])
    && (forall g, h, x | 0 <= g < |groups| && 0 <= h < |groups| && x in groups[g] && x in groups[h] :: g == h)
  }

  /** Two items share a group exactly when a chain of merges links them. */
  ghost predicate AreComponents(obs: seq<Observation>, strongOnly: bool, groups: seq<seq<nat>>) {
    forall g, h, x, y | 0 <= g < |groups| && 0 <= h < |groups| && x in groups[g] && y in groups[h] ::
      g == h <==> Linked(obs, strongOnly, x, y)
  }

  /** Items of the call: the strong observations, or the weak ones, in list order. */
  ghost predicate AreItems(obs: seq<Observation>, strongOnly: bool, items: seq<nat>) {
    && Increasing(items)
    && (forall x: nat :: x in items <==> InPlay(obs, strongOnly, x))
  }

  /** Roots never join observations that no chain links. */
  ghost predicate RootsSound(obs: seq<Observation>, strongOnly: bool, items: seq<nat>, roots: seq<nat>)
  {
    && |roots| == |items|
    && (forall a | 0 <= a < |roots| :: roots[a] < |items|)
    && (forall a | 0 <= a < |roots| :: Linked(obs, strongOnly, items[a], items[roots[a]]))
  }

  lemma UnionStaysSound(obs: seq<Observation>, strongOnly: bool, items: seq<nat>, roots: seq<nat>,
                        left: nat, right: nat, roots': seq<nat>)
    requires AreItems(obs, strongOnly, items) && RootsSound(obs, strongOnly, items, roots)
    requires left < |items| && right < |items|
    requires Edge(obs, strongOnly, items[left], items[right])
    requires |roots'| == |roots|
    requires forall a | 0 <= a < |roots| :: roots'[a] == if roots[a] == roots[right] then roots[left] else roots[a]
    ensures RootsSound(obs, strongOnly, items, roots')
  {
    forall a | 0 <= a < |roots| ensures Linked(obs, strongOnly, items[a], items[roots'[a]]) {
      if roots[a] == roots[right] {
        LinkedSym(obs, strongOnly, items[right], items[roots[right]]);
        LinkedTrans(obs, strongOnly, items[a], items[roots[right]], items[right]);
        LinkedEdge(obs, strongOnly, items[left], items[right]);
        LinkedSym(obs, strongOnly, items[left], items[right]);
        LinkedTrans(obs, strongOnly, items[a], items[right], items[left]);
        LinkedTrans(obs, strongOnly, items[a], items[left], items[roots[left]]);
      }
    }
  }

  /** Every pair that must merge already shares a root. */
  ghost predicate EdgesClosed(obs: seq<Observation>, strongOnly: bool, items: seq<nat>, roots: seq<nat>) {
    |roots| == |items| &&
    forall l, r | 0 <= l < r < |items| && Edge(obs, strongOnly, items[l], items[r]) :: roots[l] == roots[r]
  }

  /** A chain between two items stays inside one root. */
  lemma {:induction false} ChainSharesRoot(
      obs: seq<Observation>, strongOnly: bool, items: seq<nat>, roots: seq<nat>, p: seq<nat>, a: nat, b: nat)
    requires AreItems(obs, strongOnly, items) && EdgesClosed(obs, strongOnly, items, roots)
    requires IsChain(obs, strongOnly, p) && a < |items| && b < |items| && items[a] == p[0] && items[b] == p[|p| - 1]
    ensures roots[a] == roots[b]
  {
    if |p| == 1 {
      assert a == b;
    } else {
      var q := p[1..];
      forall k | 0 < k < |q| ensures Edge(obs, strongOnly, q[k - 1], q[k]) {
        assert Edge(obs, strongOnly, p[k], p[k + 1]);
      }
      assert InPlay(obs, strongOnly, p[1]);
      var c: nat :| c < |items| && items[c] == p[1];
      ChainSharesRoot(obs, strongOnly, items, roots, q, c, b);
      assert Edge(obs, strongOnly, p[0], p[1]);
      assert Edge(obs, strongOnly, p[1], p[0]);
      assert roots[a] == roots[c];
    }
  }

  /** Once every merging pair shares a root, equal roots mean exactly a chain of merges. */
  lemma RootsAreComponents(obs: seq<Observation>, strongOnly: bool, items: seq<nat>, roots: seq<nat>, a: nat, b: nat)
    requires AreItems(obs, strongOnly, items) && RootsSound(obs, strongOnly, items, roots)
    requires EdgesClosed(obs, strongOnly, items, roots)
    requires a < |items| && b < |items|
    ensures roots[a] == roots[b] <==> Linked(obs, strongOnly, items[a], items[b])
  {
    if roots[a] == roots[b] {
      LinkedSym(obs, strongOnly, items[b], items[roots[b]]);
      LinkedTrans(obs, strongOnly, items[a], items[roots[a]], items[b]);
    }
    if Linked(obs, strongOnly, items[a], items[b]) {
      var p: seq<nat> :| IsChain(obs, strongOnly, p) && p[0] == items[a] && p[|p| - 1] == items[b];
      ChainSharesRoot(obs, strongOnly, items, roots, p, a, b);
    }
  }

  /** The merging pairs visited before `(left, right)` in the double loop share their roots. */
  ghost predicate ClosedUpTo(obs: seq<Observation>, strongOnly: bool, items: seq<nat>, roots: seq<nat>, left: nat,
          right: nat)
  {
    |roots| == |items| &&
    forall l, r | 0 <= l < r < |items| && (l < left || (l == left && r < right)) &&
                  Edge(obs, strongOnly, items[l], items[r]) ::
      roots[l] == roots[r]
  }

  lemma UnionStaysClosed(obs: seq<Observation>, strongOnly: bool, items: seq<nat>, roots: seq<nat>, left: nat,
          right: nat)
    requires left < right < |items| && ClosedUpTo(obs, strongOnly, items, roots, left, right)
    ensures ClosedUpTo(obs, strongOnly, items, Merged(roots, roots[left], roots[right]), left, right + 1)
  {
  }

  lemma SkipStaysClosed(obs: seq<Observation>, strongOnly: bool, items: seq<nat>, roots: seq<nat>, left: nat,
          right: nat)
    requires left < right < |items| && ClosedUpTo(obs, strongOnly, items, roots, left, right)
    requires !Edge(obs, strongOnly, items[left], items[right])
    ensures ClosedUpTo(obs, strongOnly, items, roots, left, right + 1)
  {
  }

  /** One inner step of the double loop. */
  method MergePair(obs: seq<Observation>, items: seq<nat>, strongOnly: bool, sets: DisjointSets, left: nat, right: nat,
                   ghost roots: seq<nat>)
    returns (ghost roots': seq<nat>)
    requires AreItems(obs, strongOnly, items)
    requires left < right < |items|
    requires sets.Valid() && sets.parents.Length == |items| && sets.Roots() == roots
    requires RootsSound(obs, strongOnly, items, roots) && ClosedUpTo(obs, strongOnly, items, roots, left, right)
    modifies sets, sets.parents
    ensures sets.Valid() && sets.Roots() == roots'
    ensures RootsSound(obs, strongOnly, items, roots') && ClosedUpTo(obs, strongOnly, items, roots', left, right + 1)
  {
    assert InPlay(obs, strongOnly, items[left]) && InPlay(obs, strongOnly, items[right]);
    var shouldMerge := ShareStrongId(obs[items[left]], obs[items[right]]);
    if !strongOnly {
      shouldMerge := ShouldMerge(obs[items[left]], obs[items[right]]);
    }
    if shouldMerge {
      sets.Union(left, right);
      roots' := Merged(roots, roots[left], roots[right]);
      UnionStaysSound(obs, strongOnly, items, roots, left, right, roots');
      UnionStaysClosed(obs, strongOnly, items, roots, left, right);
    } else {
      roots' := roots;
      SkipStaysClosed(obs, strongOnly, items, roots, left, right);
    }
  }

  /** The double loop over `left < right`: afterwards equal roots mean exactly a chain of merges. */
  method MergePairs(obs: seq<Observation>, items: seq<nat>, strongOnly: bool)
    returns (sets: DisjointSets, ghost roots: seq<nat>)
    requires AreItems(obs, strongOnly, items)
    ensures fresh(sets) && fresh(sets.parents) && sets.Valid() && sets.parents.Length == |items| &&
            sets.Roots() == roots
    ensures RootsSound(obs, strongOnly, items, roots) && EdgesClosed(obs, strongOnly, items, roots)
  {
    sets := new DisjointSets(|items|);
    var left: nat := 0;
    roots := seq(|items|, i => i);
    forall a | 0 <= a < |items| ensures Linked(obs, strongOnly, items[a], items[roots[a]]) {
      LinkedRefl(obs, strongOnly, items[a]);
    }
    while left < |items|
      invariant left <= |items|
      invariant fresh(sets) && fresh(sets.parents) && sets.Valid() && sets.parents.Length == |items| &&
                sets.Roots() == roots
      invariant RootsSound(obs, strongOnly, items, roots) && ClosedUpTo(obs, strongOnly, items, roots, left, 0)
    {
      var right: nat := left + 1;
      while right < |items|
        invariant left < right <= |items|
        invariant fresh(sets) && fresh(sets.parents) && sets.Valid() && sets.parents.Length == |items| &&
                  sets.Roots() == roots
        invariant RootsSound(obs, strongOnly, items, roots) && ClosedUpTo(obs, strongOnly, items, roots, left, right)
      {
        roots := MergePair(obs, items, strongOnly, sets, left, right, roots);
        right := right + 1;
      }
      left := left + 1;
    }
  }

  /** The first `done` items whose root is `root`, in order. */
  ghost function Members(items: seq<nat>, roots: seq<nat>, done: nat, root: nat): (m: seq<nat>)
    requires |roots| == |items| && done <= |items|
  {
    if done == 0 then []
    else
      var before := Members(items, roots, done - 1, root);
      if roots[done - 1] == root then before + [items[done - 1]] else before
  }

  lemma {:induction false} MembersAre(items: seq<nat>, roots: seq<nat>, done: nat, root: nat)
    requires |roots| == |items| && done <= |items| && Increasing(items)
    ensures Increasing(Members(items, roots, done, root))
    ensures forall x :: x in Members(items, roots, done, root) <==>
                        exists a :: 0 <= a < done && items[a] == x && roots[a] == root
  {
    if done > 0 {
      MembersAre(items, roots, done - 1, root);
      var before := Members(items, roots, done - 1, root);
      forall k | 0 <= k < |before| ensures before[k] < items[done - 1] {
        assert before[k] in before;
      }
      forall x | x in Members(items, roots, done, root)
        ensures exists a :: 0 <= a < done && items[a] == x && roots[a] == root
      {
        if x !in before {
          assert items[done - 1] == x;
        }
      }
    }
  }

  lemma ComponentsByRoot(obs: seq<Observation>, strongOnly: bool, items: seq<nat>, roots: seq<nat>,
                         keys: seq<nat>, groups: seq<seq<nat>>)
    requires AreItems(obs, strongOnly, items) && RootsSound(obs, strongOnly, items, roots)
    requires EdgesClosed(obs, strongOnly, items, roots)
    requires Collected(items, roots, |items|, keys, groups)
    ensures Covers(groups, items) && AreComponents(obs, strongOnly, groups)
  {
    assert roots[..|items|] == roots;
    forall g | 0 <= g < |groups|
      ensures groups[g] != [] && Increasing(groups[g])
      ensures forall x | x in groups[g] :: x in items
    {
      MembersAre(items, roots, |items|, keys[g]);
      assert keys[g] in roots;
      var a :| 0 <= a < |roots| && roots[a] == keys[g];
      assert items[a] in groups[g];
    }
    forall x | x in items ensures exists g :: 0 <= g < |groups| && x in groups[g] {
      var a :| 0 <= a < |items| && items[a] == x;
      assert roots[a] in keys;
      var g :| 0 <= g < |keys| && keys[g] == roots[a];
      MembersAre(items, roots, |items|, keys[g]);
      assert x in groups[g];
    }
    forall g, h, x, y | 0 <= g < |groups| && 0 <= h < |groups| && x in groups[g] && y in groups[h]
      ensures g == h <==> Linked(obs, strongOnly, x, y)
    {
      MembersAre(items, roots, |items|, keys[g]);
      MembersAre(items, roots, |items|, keys[h]);
      var a :| 0 <= a < |items| && items[a] == x && roots[a] == keys[g];
      var b :| 0 <= b < |items| && items[b] == y && roots[b] == keys[h];
      RootsAreComponents(obs, strongOnly, items, roots, a, b);
    }
    forall g, h, x | 0 <= g < |groups| && 0 <= h < |groups| && x in groups[g] && x in groups[h] ensures g == h {
      LinkedRefl(obs, strongOnly, x);
    }
  }

  /** State of the grouping dictionary after the first `done` items: one key per root, in order of appearance. */
  ghost predicate Collected(items: seq<nat>, roots: seq<nat>, done: nat, keys: seq<nat>, groups: seq<seq<nat>>) {
    && |roots| == |items| && done <= |items|
    && |groups| == |keys| && Distinct(keys)
    && (forall k :: k in keys <==> k in roots[..done])
    && (forall g | 0 <= g < |keys| :: groups[g] == Members(items, roots, done, keys[g]))
  }

  lemma CollectNew(items: seq<nat>, roots: seq<nat>, done: nat, keys: seq<nat>, groups: seq<seq<nat>>)
    requires Collected(items, roots, done, keys, groups) && done < |items| && roots[done] !in keys
    ensures Collected(items, roots, done + 1, keys + [roots[done]], groups + [[items[done]]])
  {
    NoMembers(items, roots, done, roots[done]);
    assert roots[..done + 1] == roots[..done] + [roots[done]];
  }

  lemma CollectMore(items: seq<nat>, roots: seq<nat>, done: nat, keys: seq<nat>, groups: seq<seq<nat>>, at: nat)
    requires Collected(items, roots, done, keys, groups) && done < |items| && at < |keys| && keys[at] == roots[done]
    ensures Collected(items, roots, done + 1, keys, groups[at := groups[at] + [items[done]]])
  {
    assert roots[..done + 1] == roots[..done] + [roots[done]];
  }

  /** `position` says at which place of the insertion-ordered dictionary each root's group is. */
  ghost predicate Indexed(position: map<nat, nat>, keys: seq<nat>) {
    && (forall k | k in position :: position[k] < |keys| && keys[position[k]] == k)
    && (forall g | 0 <= g < |keys| :: keys[g] in position)
  }

  /** `grouped.setdefault(root, []).append(observation)`. */
  method AppendToGroup(items: seq<nat>, ghost roots: seq<nat>, index: nat, root: nat,
                       position: map<nat, nat>, ghost keys: seq<nat>, groups: seq<seq<nat>>)
    returns (position': map<nat, nat>, ghost keys': seq<nat>, groups': seq<seq<nat>>)
    requires Collected(items, roots, index, keys, groups) && Indexed(position, keys)
    requires index < |items| && roots[index] == root
    ensures Collected(items, roots, index + 1, keys', groups') && Indexed(position', keys')
  {
    if root !in position {
      CollectNew(items, roots, index, keys, groups);
      position' := position[root := |groups|];
      keys' := keys + [root];
      groups' := groups + [[items[index]]];
    } else {
      var at := position[root];
      CollectMore(items, roots, index, keys, groups, at);
      position', keys' := position, keys;
      groups' := groups[at := groups[at] + [items[index]]];
    }
  }

  /** Groups in order of first member. */
  method CollectGroups(items: seq<nat>, sets: DisjointSets, ghost roots: seq<nat>)
    returns (ghost keys: seq<nat>, groups: seq<seq<nat>>)
    requires sets.Valid() && sets.parents.Length == |items| && sets.Roots() == roots
    modifies sets.parents
    ensures Collected(items, roots, |items|, keys, groups)
  {
    var position: map<nat, nat> := map[];
    keys, groups := [], [];
    var index: nat := 0;
    while index < |items|
      invariant index <= |items|
      invariant sets.Valid() && sets.Roots() == roots
      invariant Collected(items, roots, index, keys, groups)
      invariant Indexed(position, keys)
    {
      var root: nat := sets.Find(index);
      position, keys, groups := AppendToGroup(items, roots, index, root, position, keys, groups);
      index := index + 1;
    }
  }

  lemma {:induction false} NoMembers(items: seq<nat>, roots: seq<nat>, done: nat, root: nat)
    requires |roots| == |items| && done <= |items| && root !in roots[..done]
    ensures Members(items, roots, done, root) == []
  {
    if done > 0 {
      assert roots[..done] == roots[..done - 1] + [roots[done - 1]];
      NoMembers(items, roots, done - 1, root);
    }
  }

  /** `connected_groups`: exactly the connected components of the merge graph, in order of first member. */
  method ConnectedGroups(obs: seq<Observation>, items: seq<nat>, strongOnly: bool) returns (groups: seq<seq<nat>>)
    requires AreItems(obs, strongOnly, items)
    ensures Covers(groups, items)
    ensures AreComponents(obs, strongOnly, groups)
  {
    var sets;
    ghost var roots, keys;
    sets, roots := MergePairs(obs, items, strongOnly);
    keys, groups := CollectGroups(items, sets, roots);
    ComponentsByRoot(obs, strongOnly, items, roots, keys, groups);
  }
}
