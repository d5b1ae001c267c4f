/**
 What puts two observations of app/competitors_v22/candidates.py into one group, in their own fields: shared provider
 ids, a shared website, or the same name at the same address.
 */
module IdentityEvidence {
  import opened Base
  import opened IdentityGroups
  import opened IdentityPartition
  import opened IdentityKeys

  ghost predicate CommonId(a: Observation, b: Observation) {
    exists id :: id in a.strongIds && id in b.strongIds
  }

  predicate CommonWebsite(a: Observation, b: Observation) {
    a.domain.Some? && b.domain.Some? && a.domain.value == b.domain.value != ""
  }

  predicate SameNameAndAddress(a: Observation, b: Observation) {
    a.normalizedName == b.normalizedName != "" && a.normalizedAddress == b.normalizedAddress != ""
  }

  /** Where both have provider ids, nothing but a common one counts. */
  ghost predicate SameIdentity(a: Observation, b: Observation) {
    || CommonId(a, b)
    || ((a.strongIds == {} || b.strongIds == {}) && (CommonWebsite(a, b) || SameNameAndAddress(a, b)))
  }

  lemma MergesOnEvidence(a: Observation, b: Observation)
    ensures ShouldMerge(a, b) <==> SameIdentity(a, b)
    ensures ShareStrongId(a, b) <==> CommonId(a, b)
  {
    if CommonId(a, b) {
      var id :| id in a.strongIds && id in b.strongIds;
      assert id in a.strongIds * b.strongIds;
    }
    if ShareStrongId(a, b) {
      var id :| id in a.strongIds * b.strongIds;
      assert CommonId(a, b);
    }
  }

  lemma EdgeIsEvidence(obs: seq<Observation>, strongOnly: bool, x: nat, y: nat)
    requires Edge(obs, strongOnly, x, y)
    ensures x < |obs| && y < |obs| && SameIdentity(obs[x], obs[y])
  {
    MergesOnEvidence(obs[x], obs[y]);
  }

  // ---------------------------------------------------------------- two observations alone

  /** In a chain over two observations the one leads to the other directly. */
  lemma {:induction false} DirectLink(obs: seq<Observation>, strongOnly: bool, p: seq<nat>)
    requires |obs| == 2 && IsChain(obs, strongOnly, p) && p[0] != p[|p| - 1]
    ensures Edge(obs, strongOnly, p[0], p[|p| - 1])
    decreases |p|
  {
    var n := |p| - 1;
    assert Edge(obs, strongOnly, p[n - 1], p[n]);
    if p[n - 1] != p[0] {
      assert p[n - 1] == p[n];
      assert IsChain(obs, strongOnly, p[..n]);
      DirectLink(obs, strongOnly, p[..n]);
    }
  }

  lemma LinkedInPair(obs: seq<Observation>, strongOnly: bool, x: nat, y: nat)
    requires |obs| == 2 && x != y
    ensures Linked(obs, strongOnly, x, y) <==> Edge(obs, strongOnly, x, y)
  {
    if Linked(obs, strongOnly, x, y) {
      var p: seq<nat> :| IsChain(obs, strongOnly, p) && p[0] == x && p[|p| - 1] == y;
      DirectLink(obs, strongOnly, p);
    }
    if Edge(obs, strongOnly, x, y) {
      LinkedEdge(obs, strongOnly, x, y);
    }
  }

  lemma TouchesInPair(obs: seq<Observation>, w: nat, s: nat)
    requires |obs| == 2 && IsWeak(obs, w) && IsStrong(obs, s)
    ensures Touches(obs, w, s) <==> ShouldMerge(obs[w], obs[s])
    ensures OnlyMatch(obs, w, s) <==> ShouldMerge(obs[w], obs[s])
  {
    LinkedRefl(obs, false, w);
    LinkedRefl(obs, true, s);
    if Touches(obs, w, s) {
      var v: nat, t: nat :| Linked(obs, false, w, v) && Linked(obs, true, s, t) && ShouldMerge(obs[v], obs[t]);
      LinkedInPlay(obs, false, w, v);
      LinkedInPlay(obs, true, s, t);
      assert v == w && t == s;
    }
    forall t: nat | Touches(obs, w, t) ensures Linked(obs, true, s, t) {
      TouchedIsStrong(obs, w, t);
      assert t == s;
    }
  }

  /** Alone, two observations end in one group if and only if there is evidence for it. */
  lemma PairIsGrouped(a: Observation, b: Observation)
    ensures SameGroup([a, b], 0, 1) <==> SameIdentity(a, b)
  {
    var obs := [a, b];
    MergesOnEvidence(a, b);
    MergesOnEvidence(b, a);
    LinkedInPair(obs, true, 0, 1);
    LinkedInPair(obs, false, 0, 1);
    if IsWeak(obs, 0) && IsStrong(obs, 1) {
      TouchesInPair(obs, 0, 1);
    } else if IsStrong(obs, 0) && IsWeak(obs, 1) {
      TouchesInPair(obs, 1, 0);
    } else if IsWeak(obs, 0) {
      NothingToMatch(obs);
    }
  }

  /** What `Groups` makes of two observations. */
  lemma PairInGroups(a: Observation, b: Observation, groups: seq<Group>)
    requires IsPartition([a, b], groups)
    ensures (exists g: nat :: InGroup(groups, g, 0) && InGroup(groups, g, 1)) <==> SameIdentity(a, b)
  {
    var obs := [a, b];
    PairIsGrouped(a, b);
    hide SameGroup, SameIdentity;
    assert 0 < |obs| && Somewhere(groups, 0);
    var g: nat :| InGroup(groups, g, 0);
    assert InGroup(groups, g, 1) <==> SameGroup(obs, 0, 1);
  }

  lemma NothingToMatch(obs: seq<Observation>)
    requires |obs| == 2 && IsWeak(obs, 0) && IsWeak(obs, 1)
    ensures forall w: nat, s: nat :: !OnlyMatch(obs, w, s)
  {
    forall w: nat, s: nat ensures !OnlyMatch(obs, w, s) {
      if OnlyMatch(obs, w, s) {
        TouchedIsStrong(obs, w, s);
      }
    }
  }

  // ---------------------------------------------------------------- any list

  /** Neighbours on the path have evidence for each other. */
  ghost predicate IsTrail(obs: seq<Observation>, p: seq<nat>) {
    && |p| > 0
    && (forall k | 0 <= k < |p| :: p[k] < |obs|)
    && (forall k | 0 < k < |p| :: SameIdentity(obs[p[k - 1]], obs[p[k]]))
  }

  ghost predicate Trail(obs: seq<Observation>, x: nat, y: nat) {
    exists p: seq<nat> :: IsTrail(obs, p) && p[0] == x && p[|p| - 1] == y
  }

  lemma LinkedIsTrail(obs: seq<Observation>, strongOnly: bool, x: nat, y: nat)
    requires Linked(obs, strongOnly, x, y)
    ensures Trail(obs, x, y)
  {
    var p: seq<nat> :| IsChain(obs, strongOnly, p) && p[0] == x && p[|p| - 1] == y;
    forall k | 0 < k < |p| ensures SameIdentity(obs[p[k - 1]], obs[p[k]]) {
      EdgeIsEvidence(obs, strongOnly, p[k - 1], p[k]);
    }
    hide SameIdentity, Edge;
    assert IsTrail(obs, p);
  }

  lemma TrailJoins(obs: seq<Observation>, x: nat, y: nat, z: nat, w: nat)
    requires Trail(obs, x, y) && Trail(obs, z, w) && y < |obs| && z < |obs| && SameIdentity(obs[y], obs[z])
    ensures Trail(obs, x, w)
  {
    hide SameIdentity;
    var p: seq<nat> :| IsTrail(obs, p) && p[0] == x && p[|p| - 1] == y;
    var q: seq<nat> :| IsTrail(obs, q) && q[0] == z && q[|q| - 1] == w;
    var r := p + q;
    forall k | 0 < k < |r| ensures SameIdentity(obs[r[k - 1]], obs[r[k]]) {
      if k > |p| {
        assert r[k - 1] == q[k - 1 - |p|] && r[k] == q[k - |p|];
      }
    }
    assert IsTrail(obs, r);
  }

  lemma TrailAppends(obs: seq<Observation>, x: nat, y: nat, z: nat)
    requires Trail(obs, x, y) && Trail(obs, y, z)
    ensures Trail(obs, x, z)
  {
    hide SameIdentity;
    var p: seq<nat> :| IsTrail(obs, p) && p[0] == x && p[|p| - 1] == y;
    var q: seq<nat> :| IsTrail(obs, q) && q[0] == y && q[|q| - 1] == z;
    var r := p + q[1..];
    forall k | 0 < k < |r| ensures SameIdentity(obs[r[k - 1]], obs[r[k]]) {
      if k >= |p| {
        assert r[k - 1] == q[k - |p|] && r[k] == q[k - |p| + 1];
      }
    }
    assert IsTrail(obs, r);
  }

  /** A weak observation that touches a place is joined to it by a trail, either way round. */
  lemma TouchIsTrail(obs: seq<Observation>, w: nat, s: nat)
    requires Touches(obs, w, s)
    ensures Trail(obs, w, s) && Trail(obs, s, w)
  {
    var v: nat, t: nat :| Linked(obs, false, w, v) && Linked(obs, true, s, t) && ShouldMerge(obs[v], obs[t]);
    LinkedInPlay(obs, false, w, v);
    LinkedInPlay(obs, true, s, t);
    LinkedSym(obs, false, w, v);
    LinkedSym(obs, true, s, t);
    MergesOnEvidence(obs[v], obs[t]);
    EvidenceIsMutual(obs[v], obs[t]);
    LinkedIsTrail(obs, false, w, v);
    LinkedIsTrail(obs, false, v, w);
    LinkedIsTrail(obs, true, s, t);
    LinkedIsTrail(obs, true, t, s);
    hide SameIdentity, Linked, ShouldMerge;
    TrailJoins(obs, w, v, t, s);
    TrailJoins(obs, s, t, v, w);
  }

  lemma EvidenceIsMutual(a: Observation, b: Observation)
    requires SameIdentity(a, b)
    ensures SameIdentity(b, a)
  {
  }

  /** Whoever shares a group is joined by a trail of observations, each with evidence for the next. */
  lemma GroupsFollowTrails(obs: seq<Observation>, groups: seq<Group>, g: nat, x: nat, y: nat)
    requires IsPartition(obs, groups) && x < |obs| && y < |obs|
    requires InGroup(groups, g, x) && InGroup(groups, g, y)
    ensures Trail(obs, x, y)
  {
    hide SameGroup, Trail;
    SameGroupIsTrail(obs, x, y);
  }

  lemma SameGroupIsTrail(obs: seq<Observation>, x: nat, y: nat)
    requires x < |obs| && y < |obs| && SameGroup(obs, x, y)
    ensures Trail(obs, x, y)
  {
    hide SameIdentity, Touches, Linked;
    if IsStrong(obs, x) && IsStrong(obs, y) {
      LinkedIsTrail(obs, true, x, y);
    } else if IsWeak(obs, x) && IsStrong(obs, y) {
      TouchIsTrail(obs, x, y);
    } else if IsStrong(obs, x) && IsWeak(obs, y) {
      TouchIsTrail(obs, y, x);
    } else if Linked(obs, false, x, y) {
      LinkedIsTrail(obs, false, x, y);
    } else {
      var s: nat :| OnlyMatch(obs, x, s) && OnlyMatch(obs, y, s);
      TouchIsTrail(obs, x, s);
      TouchIsTrail(obs, y, s);
      TrailAppends(obs, x, s, y);
    }
  }
}
