/**
 The `parents` list of `connected_groups` in app/competitors_v22/candidates.py: a union-find
 forest with path halving and no rank. Parents may point either way, so a ghost rank that
 strictly rises along parent pointers is what makes `find` terminate.
 */
module UnionFind {

  /** The pointer of `i` stays inside the forest and, unless `i` is a root, climbs in rank. */
  ghost predicate Climbs(parents: seq<nat>, rank: seq<nat>, bound: nat, i: nat)
    requires |rank| == |parents| && i < |parents|
  {
    && parents[i] < |parents|
    && rank[i] <= bound
    && (parents[i] != i ==> rank[i] < rank[parents[i]])
  }

  ghost predicate Ranked(parents: seq<nat>, rank: seq<nat>, bound: nat) {
    && |rank| == |parents|
    && (forall i: nat | i < |parents| :: Climbs(parents, rank, bound, i))
  }

  /** The root reached by following parents. */
  ghost function Root(parents: seq<nat>, rank: seq<nat>, bound: nat, i: nat): (r: nat)
    requires Ranked(parents, rank, bound) && i < |parents|
    ensures r < |parents| && parents[r] == r
    decreases bound - rank[i]
  {
    assert Climbs(parents, rank, bound, i) && Climbs(parents, rank, bound, parents[i]);
    if parents[i] == i then i else Root(parents, rank, bound, parents[i])
  }

  lemma HalvingKeepsRanks(parents: seq<nat>, rank: seq<nat>, bound: nat, at: nat, halved: seq<nat>)
    requires Ranked(parents, rank, bound) && at < |parents| && parents[at] < |parents|
    requires halved == parents[at := parents[parents[at]]]
    ensures Ranked(halved, rank, bound)
  {
    assert Climbs(parents, rank, bound, at) && Climbs(parents, rank, bound, parents[at]);
    forall k: nat | k < |halved| ensures Climbs(halved, rank, bound, k) {
      assert Climbs(parents, rank, bound, k);
    }
  }

  /** Path halving: pointing `at` to its grandparent moves no element to another root. */
  lemma {:induction false} HalvingKeepsRoots(parents: seq<nat>, rank: seq<nat>, bound: nat, at: nat, halved: seq<nat>,
          i: nat)
    requires Ranked(parents, rank, bound) && at < |parents| && parents[at] < |parents| && i < |parents|
    requires halved == parents[at := parents[parents[at]]] && Ranked(halved, rank, bound)
    ensures Root(halved, rank, bound, i) == Root(parents, rank, bound, i)
    decreases bound - rank[i]
  {
    assert Climbs(parents, rank, bound, i) && Climbs(parents, rank, bound, parents[i]);
    if parents[i] != i {
      HalvingKeepsRoots(parents, rank, bound, at, halved, parents[i]);
      if halved[i] != parents[i] {
        HalvingKeepsRoots(parents, rank, bound, at, halved, halved[i]);
      }
    }
  }

  /** The new rank list when root `from` is hung under root `to`. */
  ghost function Raised(rank: seq<nat>, to: nat, from: nat): seq<nat>
    requires to < |rank| && from < |rank|
  {
    rank[to := if rank[to] <= rank[from] then rank[from] + 1 else rank[to]]
  }

  lemma LinkKeepsRanks(parents: seq<nat>, rank: seq<nat>, bound: nat, to: nat, from: nat, higher: nat)
    requires Ranked(parents, rank, bound) && to < |parents| && from < |parents| && to != from
    requires parents[to] == to && parents[from] == from && higher == bound + 1
    ensures Ranked(parents[from := to], Raised(rank, to, from), higher)
  {
    var linked, rank' := parents[from := to], Raised(rank, to, from);
    forall k: nat | k < |linked| ensures Climbs(linked, rank', higher, k) {
      assert Climbs(parents, rank, bound, k) && Climbs(parents, rank, bound, to) && Climbs(parents, rank, bound, from);
    }
  }

  /** Hanging root `from` under root `to` merges exactly those two trees. */
  lemma {:induction false} LinkMergesRoots(
      parents: seq<nat>, rank: seq<nat>, bound: nat, to: nat, from: nat, linked: seq<nat>, rank': seq<nat>,
      higher: nat, i: nat)
    requires Ranked(parents, rank, bound) && i < |parents|
    requires to < |parents| && from < |parents| && to != from
    requires parents[to] == to && parents[from] == from
    requires linked == parents[from := to] && Ranked(linked, rank', higher)
    ensures var r := Root(parents, rank, bound, i);
            Root(linked, rank', higher, i) == if r == from then to else r
    decreases bound - rank[i]
  {
    assert Climbs(parents, rank, bound, i) && Climbs(parents, rank, bound, parents[i]);
    if parents[i] != i {
      LinkMergesRoots(parents, rank, bound, to, from, linked, rank', higher, parents[i]);
    }
  }

  /** The root of every element, in order. */
  ghost function RootsOf(parents: seq<nat>, rank: seq<nat>, bound: nat): (roots: seq<nat>)
    requires Ranked(parents, rank, bound)
    ensures |roots| == |parents|
    ensures forall i | 0 <= i < |roots| :: roots[i] < |roots| && parents[roots[i]] == roots[i]
  {
    seq(|parents|, i requires 0 <= i < |parents| => Root(parents, rank, bound, i))
  }

  /** Every element of tree `from` moves to tree `to`. */
  ghost function Merged(roots: seq<nat>, to: nat, from: nat): (merged: seq<nat>) {
    seq(|roots|, i requires 0 <= i < |roots| => if roots[i] == from then to else roots[i])
  }

  lemma HalvingKeepsAllRoots(parents: seq<nat>, rank: seq<nat>, bound: nat, at: nat, halved: seq<nat>)
    requires Ranked(parents, rank, bound) && at < |parents| && parents[at] < |parents|
    requires halved == parents[at := parents[parents[at]]]
    ensures Ranked(halved, rank, bound) && RootsOf(halved, rank, bound) == RootsOf(parents, rank, bound)
  {
    HalvingKeepsRanks(parents, rank, bound, at, halved);
    forall i: nat | i < |parents| ensures Root(halved, rank, bound, i) == Root(parents, rank, bound, i) {
      HalvingKeepsRoots(parents, rank, bound, at, halved, i);
    }
  }

  lemma LinkMergesAllRoots(parents: seq<nat>, rank: seq<nat>, bound: nat, to: nat, from: nat, higher: nat)
    requires Ranked(parents, rank, bound) && to < |parents| && from < |parents| && to != from
    requires parents[to] == to && parents[from] == from && higher == bound + 1
    ensures Ranked(parents[from := to], Raised(rank, to, from), higher)
    ensures RootsOf(parents[from := to], Raised(rank, to, from), higher) ==
            Merged(RootsOf(parents, rank, bound), to, from)
  {
    var linked, rank' := parents[from := to], Raised(rank, to, from);
    LinkKeepsRanks(parents, rank, bound, to, from, higher);
    forall i: nat | i < |parents|
      ensures var r := Root(parents, rank, bound, i);
              Root(linked, rank', higher, i) == if r == from then to else r
    {
      LinkMergesRoots(parents, rank, bound, to, from, linked, rank', higher, i);
    }
  }

  class DisjointSets {
    const parents: array<nat>
    ghost var rank: seq<nat>
    ghost var bound: nat

    ghost predicate Valid()
      reads this, parents
    {
      Ranked(parents[..], rank, bound)
    }

    /** The representatives of all elements, in order. */
    ghost function Roots(): (roots: seq<nat>)
      requires Valid()
      reads this, parents
      ensures |roots| == parents.Length
      ensures forall i | 0 <= i < |roots| :: roots[i] < |roots| && parents[roots[i]] == roots[i]
    {
      RootsOf(parents[..], rank, bound)
    }

    constructor (n: nat)
      ensures Valid() && fresh(parents) && parents.Length == n
      ensures Roots() == seq(n, i => i)
    {
      parents := new nat[n](i => i);
      rank := seq(n, _ => 0);
      bound := 0;
    }

    method Find(start: nat) returns (index: nat)
      requires Valid() && start < parents.Length
      modifies parents
      ensures Valid() && Roots() == old(Roots())
      ensures index == Roots()[start]
    {
      index := start;
      while parents[index] != index
        invariant Valid() && index < parents.Length
        invariant Roots() == old(Roots())
        invariant Root(parents[..], rank, bound, index) == Roots()[start]
        decreases bound - rank[index]
      {
        ghost var before: seq<nat> := parents[..];
        assert Climbs(before, rank, bound, index) && Climbs(before, rank, bound, before[index]);
        parents[index] := parents[parents[index]];
        HalvingKeepsAllRoots(before, rank, bound, index, parents[..]);
        assert Root(parents[..], rank, bound, index) == Roots()[index];
        index := parents[index];
      }
    }

    /** `parents[right_root] = left_root` for two distinct roots. */
    method Link(to: nat, from: nat)
      requires Valid() && to < parents.Length && from < parents.Length
      requires to != from && parents[to] == to && parents[from] == from
      modifies this, parents
      ensures Valid() && Roots() == Merged(old(Roots()), to, from)
    {
      LinkMergesAllRoots(parents[..], rank, bound, to, from, bound + 1);
      parents[from] := to;
      rank, bound := Raised(rank, to, from), bound + 1;
      assert parents[..] == old(parents[..])[from := to];
    }

    method Union(left: nat, right: nat)
      requires Valid() && left < parents.Length && right < parents.Length
      modifies this, parents
      ensures Valid()
      ensures Roots() == Merged(old(Roots()), old(Roots())[left], old(Roots())[right])
    {
      var leftRoot: nat := Find(left);
      var rightRoot: nat := Find(right);
      if leftRoot != rightRoot {
        Link(leftRoot, rightRoot);
      }
    }
  }
}
