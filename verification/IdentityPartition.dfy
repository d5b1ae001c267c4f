/**
 The two-level grouping `_groups` of app/competitors_v22/candidates.py: strong components first, then
 each weak component joins a strong group only when it matches exactly one.
 */
module IdentityPartition {
  import opened Base
  import opened IdentityGroups

  // ---------------------------------------------------------------- what the grouping means

  /** Some member of `weak`'s component should merge with some member of `strong`'s component. */
  ghost predicate Touches(obs: seq<Observation>, weak: nat, strong: nat) {
    exists w: nat, s: nat :: Linked(obs, false, weak, w) && Linked(obs, true, strong, s) && ShouldMerge(obs[w], obs[s])
  }

  /** `strong`'s component is the only one `weak`'s component touches. */
  ghost predicate OnlyMatch(obs: seq<Observation>, weak: nat, strong: nat) {
    Touches(obs, weak, strong) && forall t: nat | Touches(obs, weak, t) :: Linked(obs, true, strong, t)
  }

  /** The intended partition, with no reference to any order of the observations. */
  ghost predicate SameGroup(obs: seq<Observation>, x: nat, y: nat) {
    if IsStrong(obs, x) && IsStrong(obs, y) then Linked(obs, true, x, y)
    else if IsWeak(obs, x) && IsStrong(obs, y) then OnlyMatch(obs, x, y)
    else if IsStrong(obs, x) && IsWeak(obs, y) then OnlyMatch(obs, y, x)
    else Linked(obs, false, x, y) || exists s: nat :: OnlyMatch(obs, x, s) && OnlyMatch(obs, y, s)
  }

  /** The component touches two places that no chain of strong ids links. */
  ghost predicate Ambiguous(obs: seq<Observation>, x: nat) {
    exists s: nat, t: nat :: Touches(obs, x, s) && Touches(obs, x, t) && !Linked(obs, true, s, t)
  }

  ghost predicate InGroup(groups: seq<Group>, g: nat, x: nat) {
    g < |groups| && x in groups[g].members
  }

  ghost predicate Somewhere(groups: seq<Group>, x: nat) {
    exists g: nat :: InGroup(groups, g, x)
  }

  /** Every observation lands in exactly one group, exactly once. */
  ghost predicate ExactCover(obs: seq<Observation>, groups: seq<Group>) {
    && (forall x: nat | x < |obs| :: Somewhere(groups, x))
    && (forall g: nat, x: nat | InGroup(groups, g, x) :: x < |obs|)
    && (forall g: nat, h: nat, x: nat | InGroup(groups, g, x) && InGroup(groups, h, x) :: g == h)
    && (forall g | 0 <= g < |groups| :: Distinct(groups[g].members))
  }

  // ---------------------------------------------------------------- the two lists of components

  ghost predicate Components(obs: seq<Observation>, strongOnly: bool, groups: seq<seq<nat>>) {
    && AreComponents(obs, strongOnly, groups)
    && (forall g | 0 <= g < |groups| :: groups[g] != [] && Increasing(groups[g]))
    && (forall g, x | 0 <= g < |groups| && x in groups[g] :: InPlay(obs, strongOnly, x))
    && (forall x: nat | InPlay(obs, strongOnly, x) :: exists g :: 0 <= g < |groups| && x in groups[g])
  }

  predicate AnyMerge(obs: seq<Observation>, weakGroup: seq<nat>, strongGroup: seq<nat>) {
    exists w, s | w in weakGroup && s in strongGroup :: w < |obs| && s < |obs| && ShouldMerge(obs[w], obs[s])
  }

  /** The strong groups, by place, among the first `k` that a weak group should merge with. */
  function Matches(obs: seq<Observation>, weakGroup: seq<nat>, strong: seq<seq<nat>>, k: nat): (m: seq<nat>)
    requires k <= |strong|
    ensures forall i | 0 <= i < |m| :: m[i] < k
  {
    if k == 0 then []
    else
      var before := Matches(obs, weakGroup, strong, k - 1);
      if AnyMerge(obs, weakGroup, strong[k - 1]) then before + [k - 1] else before
  }

  lemma {:induction false} MatchesAre(obs: seq<Observation>, weakGroup: seq<nat>, strong: seq<seq<nat>>, k: nat)
    requires k <= |strong|
    ensures Increasing(Matches(obs, weakGroup, strong, k))
    ensures forall c: nat :: c in Matches(obs, weakGroup, strong, k) <==> c < k && AnyMerge(obs, weakGroup, strong[c])
  {
    if k > 0 {
      MatchesAre(obs, weakGroup, strong, k - 1);
    }
  }

  /** Where the members of one weak component end up: with the single match, or on their own. */
  function Home(obs: seq<Observation>, weakGroup: seq<nat>, strong: seq<seq<nat>>): (home: Option<nat>)
    ensures home.Some? ==> home.value < |strong|
  {
    var m := Matches(obs, weakGroup, strong, |strong|);
    if |m| == 1 then Some(m[0]) else None
  }

  /** Strong group `c` once the first `k` weak components have been handled. */
  function Grown(obs: seq<Observation>, strong: seq<seq<nat>>, weak: seq<seq<nat>>, k: nat, c: nat): (g: seq<nat>)
    requires k <= |weak| && c < |strong|
  {
    if k == 0 then strong[c]
    else
      var before := Grown(obs, strong, weak, k - 1, c);
      if Home(obs, weak[k - 1], strong) == Some(c) then before + weak[k - 1] else before
  }

  /** The weak components among the first `k` that stay on their own. */
  function Loose(obs: seq<Observation>, strong: seq<seq<nat>>, weak: seq<seq<nat>>, k: nat): (l: seq<nat>)
    requires k <= |weak|
    ensures forall i | 0 <= i < |l| :: l[i] < k
  {
    if k == 0 then []
    else
      var before := Loose(obs, strong, weak, k - 1);
      if Home(obs, weak[k - 1], strong) == None then before + [k - 1] else before
  }

  lemma {:induction false} LooseAre(obs: seq<Observation>, strong: seq<seq<nat>>, weak: seq<seq<nat>>, k: nat)
    requires k <= |weak|
    ensures Increasing(Loose(obs, strong, weak, k))
    ensures forall l: nat :: l in Loose(obs, strong, weak, k) <==> l < k && Home(obs, weak[l], strong) == None
  {
    hide Home;
    if k > 0 {
      LooseAre(obs, strong, weak, k - 1);
    }
  }

  lemma {:induction false} GrownMembers(obs: seq<Observation>, strong: seq<seq<nat>>, weak: seq<seq<nat>>, k: nat,
          c: nat)
    requires k <= |weak| && c < |strong|
    ensures forall x :: x in Grown(obs, strong, weak, k, c) <==>
                        || x in strong[c]
                        || exists l :: 0 <= l < k && Home(obs, weak[l], strong) == Some(c) && x in weak[l]
  {
    if k > 0 {
      GrownMembers(obs, strong, weak, k - 1, c);
      var before := Grown(obs, strong, weak, k - 1, c);
      forall x | x in Grown(obs, strong, weak, k, c)
        ensures x in strong[c] || exists l :: 0 <= l < k && Home(obs, weak[l], strong) == Some(c) && x in weak[l]
      {
        if x !in before {
          assert x in weak[k - 1];
        }
      }
    }
  }

  lemma WeakApartFromStrong(obs: seq<Observation>, strong: seq<seq<nat>>, weak: seq<seq<nat>>, l: nat, c: nat)
    requires Components(obs, true, strong) && Components(obs, false, weak)
    requires l < |weak| && c < |strong|
    ensures forall x | x in weak[l] :: x !in strong[c]
  {
    forall x | x in weak[l] ensures x !in strong[c] {
      assert InPlay(obs, false, x);
      assert x in strong[c] ==> InPlay(obs, true, x);
    }
  }

  lemma WeakApart(obs: seq<Observation>, weak: seq<seq<nat>>, a: nat, b: nat)
    requires Components(obs, false, weak) && a < |weak| && b < |weak| && a != b
    ensures forall x | x in weak[a] :: x !in weak[b]
  {
    forall x | x in weak[a] ensures x !in weak[b] {
      LinkedRefl(obs, false, x);
    }
  }

  lemma {:induction false} GrownDistinct(obs: seq<Observation>, strong: seq<seq<nat>>, weak: seq<seq<nat>>, k: nat,
          c: nat)
    requires Components(obs, true, strong) && Components(obs, false, weak)
    requires k <= |weak| && c < |strong|
    ensures Distinct(Grown(obs, strong, weak, k, c))
  {
    if k > 0 {
      GrownDistinct(obs, strong, weak, k - 1, c);
      GrownMembers(obs, strong, weak, k - 1, c);
      var before := Grown(obs, strong, weak, k - 1, c);
      WeakApartFromStrong(obs, strong, weak, k - 1, c);
      forall l: nat | l < k - 1 ensures forall x | x in weak[k - 1] :: x !in weak[l] {
        WeakApart(obs, weak, k - 1, l);
      }
      hide Components;
      if Home(obs, weak[k - 1], strong) == Some(c) {
        DistinctAppend(before, weak[k - 1]);
      }
    }
  }

  // ---------------------------------------------------------------- growing never changes a match

  lemma MergingAreTogether(obs: seq<Observation>, weak: seq<seq<nat>>, a: nat, b: nat, w: nat, s: nat)
    requires Components(obs, false, weak) && a < |weak| && b < |weak| && a != b
    requires w in weak[a] && w < |obs| && s < |obs| && ShouldMerge(obs[w], obs[s])
    ensures s !in weak[b]
  {
    if s in weak[b] {
      assert Edge(obs, false, w, s);
      LinkedEdge(obs, false, w, s);
    }
  }

  /** Members of different weak components never merge, so what joined a strong group attracts nobody else. */
  lemma GrowthAttractsNobody(obs: seq<Observation>, strong: seq<seq<nat>>, weak: seq<seq<nat>>, k: nat, c: nat)
    requires Components(obs, true, strong) && Components(obs, false, weak)
    requires k < |weak| && c < |strong|
    ensures AnyMerge(obs, weak[k], Grown(obs, strong, weak, k, c)) == AnyMerge(obs, weak[k], strong[c])
  {
    var grown := Grown(obs, strong, weak, k, c);
    GrownMembers(obs, strong, weak, k, c);
    if AnyMerge(obs, weak[k], grown) {
      var w, s :| w in weak[k] && s in grown && w < |obs| && s < |obs| && ShouldMerge(obs[w], obs[s]);
      if s !in strong[c] {
        forall l: nat | l < k ensures s !in weak[l] {
          MergingAreTogether(obs, weak, k, l, w, s);
        }
      }
    }
    if AnyMerge(obs, weak[k], strong[c]) {
      var w, s :| w in weak[k] && s in strong[c] && w < |obs| && s < |obs| && ShouldMerge(obs[w], obs[s]);
      assert s in grown;
    }
  }

  /** The comprehension `matches`, evaluated over the grown groups. */
  method FindMatches(obs: seq<Observation>, weakGroup: seq<nat>, groups: seq<seq<nat>>) returns (matches: seq<nat>)
    ensures matches == Matches(obs, weakGroup, groups, |groups|)
  {
    matches := [];
    var c: nat := 0;
    while c < |groups|
      invariant c <= |groups|
      invariant matches == Matches(obs, weakGroup, groups, c)
    {
      if AnyMerge(obs, weakGroup, groups[c]) {
        matches := matches + [c];
      }
      c := c + 1;
    }
  }

  lemma {:induction false} SameMatches(obs: seq<Observation>, weakGroup: seq<nat>, strong: seq<seq<nat>>,
        grown: seq<seq<nat>>, k: nat)
    requires |grown| == |strong| && k <= |strong|
    requires forall c | 0 <= c < |strong| :: AnyMerge(obs, weakGroup, grown[c]) == AnyMerge(obs, weakGroup, strong[c])
    ensures Matches(obs, weakGroup, grown, k) == Matches(obs, weakGroup, strong, k)
  {
    if k > 0 {
      SameMatches(obs, weakGroup, strong, grown, k - 1);
    }
  }

  function LooseGroup(obs: seq<Observation>, strong: seq<seq<nat>>, weak: seq<seq<nat>>, l: nat): Group
    requires l < |weak|
  {
    Group(weak[l], |Matches(obs, weak[l], strong, |strong|)| > 1)
  }

  /** The strong groups and the unmatched list after the first `k` weak components. */
  ghost predicate Attached(obs: seq<Observation>, strong: seq<seq<nat>>, weak: seq<seq<nat>>, k: nat,
                           grown: seq<seq<nat>>, unmatched: seq<Group>)
  {
    && k <= |weak| && |grown| == |strong|
    && (forall c | 0 <= c < |strong| :: grown[c] == Grown(obs, strong, weak, k, c))
    && |unmatched| == |Loose(obs, strong, weak, k)|
    && (forall u | 0 <= u < |unmatched| ::
          unmatched[u] == LooseGroup(obs, strong, weak, Loose(obs, strong, weak, k)[u]))
  }

  /** One turn of the loop over weak components: the matches are taken against groups that have already grown. */
  method AttachOne(obs: seq<Observation>, ghost strong: seq<seq<nat>>, weak: seq<seq<nat>>, k: nat,
                   grown: seq<seq<nat>>, unmatched: seq<Group>)
    returns (grown': seq<seq<nat>>, unmatched': seq<Group>)
    requires Components(obs, true, strong) && Components(obs, false, weak)
    requires k < |weak| && Attached(obs, strong, weak, k, grown, unmatched)
    ensures Attached(obs, strong, weak, k + 1, grown', unmatched')
  {
    var matches := FindMatches(obs, weak[k], grown);
    forall c | 0 <= c < |strong| ensures AnyMerge(obs, weak[k], grown[c]) == AnyMerge(obs, weak[k], strong[c]) {
      GrowthAttractsNobody(obs, strong, weak, k, c);
    }
    SameMatches(obs, weak[k], strong, grown, |strong|);
    hide Components, AnyMerge, Matches, Attached;
    if |matches| == 1 {
      HomeGrows(obs, strong, weak, k, grown, unmatched);
      grown', unmatched' := grown[matches[0] := grown[matches[0]] + weak[k]], unmatched;
    } else {
      LooseJoins(obs, strong, weak, k, grown, unmatched);
      grown', unmatched' := grown, unmatched + [Group(weak[k], |matches| > 1)];
    }
  }

  lemma HomeGrows(obs: seq<Observation>, strong: seq<seq<nat>>, weak: seq<seq<nat>>, k: nat,
                  grown: seq<seq<nat>>, unmatched: seq<Group>)
    requires k < |weak| && Attached(obs, strong, weak, k, grown, unmatched)
    requires |Matches(obs, weak[k], strong, |strong|)| == 1
    ensures var c := Matches(obs, weak[k], strong, |strong|)[0];
      c < |grown| && Attached(obs, strong, weak, k + 1, grown[c := grown[c] + weak[k]], unmatched)
  {
    hide Matches, LooseGroup;
  }

  lemma LooseJoins(obs: seq<Observation>, strong: seq<seq<nat>>, weak: seq<seq<nat>>, k: nat,
                   grown: seq<seq<nat>>, unmatched: seq<Group>)
    requires k < |weak| && Attached(obs, strong, weak, k, grown, unmatched)
    requires |Matches(obs, weak[k], strong, |strong|)| != 1
    ensures Attached(obs, strong, weak, k + 1, grown, unmatched + [LooseGroup(obs, strong, weak, k)])
  {
    hide Matches, LooseGroup;
  }

  method AttachWeak(obs: seq<Observation>, strong: seq<seq<nat>>, weak: seq<seq<nat>>)
    returns (grown: seq<seq<nat>>, unmatched: seq<Group>)
    requires Components(obs, true, strong) && Components(obs, false, weak)
    ensures Attached(obs, strong, weak, |weak|, grown, unmatched)
  {
    grown, unmatched := strong, [];
    var k: nat := 0;
    while k < |weak|
      invariant k <= |weak| && Attached(obs, strong, weak, k, grown, unmatched)
    {
      grown, unmatched := AttachOne(obs, strong, weak, k, grown, unmatched);
      k := k + 1;
    }
  }

  // ---------------------------------------------------------------- what the two loops produced

  /** A weak component should merge with a strong one, as lists, exactly when its members touch that place. */
  lemma MergeIsTouch(obs: seq<Observation>, strong: seq<seq<nat>>, weak: seq<seq<nat>>, l: nat, c: nat, x: nat, s: nat)
    requires Components(obs, true, strong) && Components(obs, false, weak)
    requires l < |weak| && c < |strong| && x in weak[l] && s in strong[c]
    ensures AnyMerge(obs, weak[l], strong[c]) <==> Touches(obs, x, s)
  {
    if AnyMerge(obs, weak[l], strong[c]) {
      var w, t :| w in weak[l] && t in strong[c] && w < |obs| && t < |obs| && ShouldMerge(obs[w], obs[t]);
      assert Linked(obs, false, x, w) && Linked(obs, true, s, t);
    }
    if Touches(obs, x, s) {
      var w: nat, t: nat :| Linked(obs, false, x, w) && Linked(obs, true, s, t) && ShouldMerge(obs[w], obs[t]);
      LinkedInPlay(obs, false, x, w);
      LinkedInPlay(obs, true, s, t);
      var l' :| 0 <= l' < |weak| && w in weak[l'];
      var c' :| 0 <= c' < |strong| && t in strong[c'];
      assert l' == l && c' == c;
    }
  }

  /** A weak component finds its home in strong group `c` exactly when that is the only place it touches. */
  lemma HomeIsOnlyMatch(obs: seq<Observation>, strong: seq<seq<nat>>, weak: seq<seq<nat>>, l: nat, c: nat, x: nat,
          s: nat)
    requires Components(obs, true, strong) && Components(obs, false, weak)
    requires l < |weak| && c < |strong| && x in weak[l] && s in strong[c]
    ensures Home(obs, weak[l], strong) == Some(c) <==> OnlyMatch(obs, x, s)
  {
    var m := Matches(obs, weak[l], strong, |strong|);
    MatchesAre(obs, weak[l], strong, |strong|);
    MergeIsTouch(obs, strong, weak, l, c, x, s);
    hide Components, Matches, Touches, Linked, AnyMerge;
    if Home(obs, weak[l], strong) == Some(c) {
      assert c in m;
      forall t: nat | Touches(obs, x, t) ensures Linked(obs, true, s, t) {
        HomeTouches(obs, strong, weak, l, c, x, s, t);
      }
    }
    if OnlyMatch(obs, x, s) {
      assert c in m;
      forall d: nat | d in m ensures d == c {
        MatchTouches(obs, strong, weak, l, c, d, x, s);
      }
      OnlyMember(m, c);
    }
  }

  /** Whatever a component with a home touches lies in that place. */
  lemma HomeTouches(obs: seq<Observation>, strong: seq<seq<nat>>, weak: seq<seq<nat>>, l: nat, c: nat, x: nat, s: nat,
          t: nat)
    requires Components(obs, true, strong) && Components(obs, false, weak)
    requires l < |weak| && c < |strong| && x in weak[l] && s in strong[c] && Touches(obs, x, t)
    requires Matches(obs, weak[l], strong, |strong|) == [c]
    ensures Linked(obs, true, s, t)
  {
    MatchesAre(obs, weak[l], strong, |strong|);
    var c' := TouchedPlace(obs, strong, weak, l, x, t);
    hide Matches, AnyMerge, Touches;
    assert c' in [c];
  }

  /** A place that matches is the one the component touches only. */
  lemma MatchTouches(obs: seq<Observation>, strong: seq<seq<nat>>, weak: seq<seq<nat>>, l: nat, c: nat, d: nat, x: nat,
          s: nat)
    requires Components(obs, true, strong) && Components(obs, false, weak)
    requires l < |weak| && c < |strong| && x in weak[l] && s in strong[c] && OnlyMatch(obs, x, s)
    requires d in Matches(obs, weak[l], strong, |strong|)
    ensures d == c
  {
    MatchesAre(obs, weak[l], strong, |strong|);
    hide Matches, AnyMerge;
    var t := strong[d][0];
    assert t in strong[d];
    MergeIsTouch(obs, strong, weak, l, d, x, t);
  }

  lemma TouchedPlace(obs: seq<Observation>, strong: seq<seq<nat>>, weak: seq<seq<nat>>, l: nat, x: nat, t: nat)
    returns (c: nat)
    requires Components(obs, true, strong) && Components(obs, false, weak)
    requires l < |weak| && x in weak[l] && Touches(obs, x, t)
    ensures c < |strong| && t in strong[c] && AnyMerge(obs, weak[l], strong[c])
  {
    var w: nat, t': nat :| Linked(obs, false, x, w) && Linked(obs, true, t, t') && ShouldMerge(obs[w], obs[t']);
    LinkedInPlay(obs, true, t, t');
    c :| 0 <= c < |strong| && t in strong[c];
    MergeIsTouch(obs, strong, weak, l, c, x, t);
  }

  lemma OnlyMember(m: seq<nat>, c: nat)
    requires Increasing(m) && c in m && forall d: nat | d in m :: d == c
    ensures m == [c]
  {
    if |m| > 1 {
      FirstTwoDiffer(m);
      assert false;
    }
  }

  lemma FirstTwoDiffer(m: seq<nat>)
    requires Increasing(m) && |m| > 1
    ensures m[0] in m && m[1] in m && m[0] != m[1]
  {
  }

  lemma TwoMembers(m: seq<nat>, c: nat, d: nat)
    requires c in m && d in m && c != d
    ensures |m| > 1
  {
    var i :| 0 <= i < |m| && m[i] == c;
    var j :| 0 <= j < |m| && m[j] == d;
  }

  lemma MergeIsMatch(obs: seq<Observation>, strong: seq<seq<nat>>, weakGroup: seq<nat>, c: nat)
    requires c < |strong| && AnyMerge(obs, weakGroup, strong[c])
    ensures c in Matches(obs, weakGroup, strong, |strong|)
  {
    MatchesAre(obs, weakGroup, strong, |strong|);
  }

  /** More than one match is exactly ambiguity between two places. */
  lemma ManyMatchesIsAmbiguous(obs: seq<Observation>, strong: seq<seq<nat>>, weak: seq<seq<nat>>, l: nat, x: nat)
    requires Components(obs, true, strong) && Components(obs, false, weak)
    requires l < |weak| && x in weak[l]
    ensures |Matches(obs, weak[l], strong, |strong|)| > 1 <==> Ambiguous(obs, x)
  {
    if |Matches(obs, weak[l], strong, |strong|)| > 1 {
      TwoMatchesAreAmbiguous(obs, strong, weak, l, x);
    }
    if Ambiguous(obs, x) {
      var s: nat, t: nat :| Touches(obs, x, s) && Touches(obs, x, t) && !Linked(obs, true, s, t);
      AmbiguityIsTwoMatches(obs, strong, weak, l, x, s, t);
    }
  }

  lemma AmbiguityIsTwoMatches(obs: seq<Observation>, strong: seq<seq<nat>>, weak: seq<seq<nat>>, l: nat, x: nat, s: nat,
          t: nat)
    requires Components(obs, true, strong) && Components(obs, false, weak)
    requires l < |weak| && x in weak[l]
    requires Touches(obs, x, s) && Touches(obs, x, t) && !Linked(obs, true, s, t)
    ensures |Matches(obs, weak[l], strong, |strong|)| > 1
  {
    var c := TouchedPlace(obs, strong, weak, l, x, s);
    var d := TouchedPlace(obs, strong, weak, l, x, t);
    assert c != d;
    MergeIsMatch(obs, strong, weak[l], c);
    MergeIsMatch(obs, strong, weak[l], d);
    TwoMembers(Matches(obs, weak[l], strong, |strong|), c, d);
  }

  lemma TwoMatchesAreAmbiguous(obs: seq<Observation>, strong: seq<seq<nat>>, weak: seq<seq<nat>>, l: nat, x: nat)
    requires Components(obs, true, strong) && Components(obs, false, weak)
    requires l < |weak| && x in weak[l]
    requires |Matches(obs, weak[l], strong, |strong|)| > 1
    ensures Ambiguous(obs, x)
  {
    var m := Matches(obs, weak[l], strong, |strong|);
    MatchesAre(obs, weak[l], strong, |strong|);
    var c, d := m[0], m[1];
    assert c in m && d in m && c < d;
    var s, t := strong[c][0], strong[d][0];
    assert s in strong[c] && t in strong[d];
    MergeIsTouch(obs, strong, weak, l, c, x, s);
    MergeIsTouch(obs, strong, weak, l, d, x, t);
    assert !Linked(obs, true, s, t);
  }

  // ---------------------------------------------------------------- the assembled result

  /** `[*(_ObservationGroup(group) for group in strong_groups), *unmatched_weak]`. */
  ghost predicate Assembled(obs: seq<Observation>, strong: seq<seq<nat>>, weak: seq<seq<nat>>, groups: seq<Group>) {
    var loose := Loose(obs, strong, weak, |weak|);
    && |groups| == |strong| + |loose|
    && (forall c | 0 <= c < |strong| :: groups[c] == Group(Grown(obs, strong, weak, |weak|, c), false))
    && (forall u | 0 <= u < |loose| :: groups[|strong| + u] == LooseGroup(obs, strong, weak, loose[u]))
  }

  ghost predicate OnlyIn(groups: seq<Group>, g: nat, x: nat) {
    forall h: nat :: InGroup(groups, h, x) <==> h == g
  }

  /** A strong observation sits in the group of its own component and nowhere else. */
  lemma StrongPlace(obs: seq<Observation>, strong: seq<seq<nat>>, weak: seq<seq<nat>>, groups: seq<Group>, c: nat,
          x: nat)
    requires Components(obs, true, strong) && Components(obs, false, weak) && Assembled(obs, strong, weak, groups)
    requires c < |strong| && x in strong[c]
    ensures OnlyIn(groups, c, x)
  {
    forall h: nat ensures InGroup(groups, h, x) <==> h == c {
      if h < |strong| {
        GrownMembers(obs, strong, weak, |weak|, h);
        forall l | 0 <= l < |weak| ensures x !in weak[l] {
          WeakApartFromStrong(obs, strong, weak, l, c);
        }
        LinkedRefl(obs, true, x);
      } else if h < |groups| {
        WeakApartFromStrong(obs, strong, weak, Loose(obs, strong, weak, |weak|)[h - |strong|], c);
      }
    }
  }

  /** A weak observation is in the group of a place exactly when that place is its component's home. */
  lemma WeakInPlace(obs: seq<Observation>, strong: seq<seq<nat>>, weak: seq<seq<nat>>, groups: seq<Group>, l: nat,
        x: nat, h: nat)
    requires Components(obs, true, strong) && Components(obs, false, weak) && Assembled(obs, strong, weak, groups)
    requires l < |weak| && x in weak[l] && h < |strong|
    ensures InGroup(groups, h, x) <==> Home(obs, weak[l], strong) == Some(h)
  {
    hide Home, Loose, Linked;
    GrownMembers(obs, strong, weak, |weak|, h);
    WeakApartFromStrong(obs, strong, weak, l, h);
    forall m: nat | m < |weak| && m != l ensures x !in weak[m] {
      WeakApart(obs, weak, l, m);
    }
  }

  /** A weak observation is in the group of a component on its own exactly when that is its component. */
  lemma WeakInLoose(obs: seq<Observation>, strong: seq<seq<nat>>, weak: seq<seq<nat>>, groups: seq<Group>, l: nat,
        x: nat, h: nat)
    requires Components(obs, false, weak) && Assembled(obs, strong, weak, groups)
    requires l < |weak| && x in weak[l] && h >= |strong|
    ensures var loose := Loose(obs, strong, weak, |weak|);
      InGroup(groups, h, x) <==> h < |strong| + |loose| && loose[h - |strong|] == l
  {
    hide Home, Loose, Linked, Grown;
    var loose := Loose(obs, strong, weak, |weak|);
    if h < |groups| {
      var u := h - |strong|;
      assert groups[|strong| + u] == LooseGroup(obs, strong, weak, loose[u]);
      if loose[u] != l {
        WeakApart(obs, weak, l, loose[u]);
      }
    }
  }

  /** A weak observation sits with its single match, or in its own component's group. */
  lemma WeakPlace(obs: seq<Observation>, strong: seq<seq<nat>>, weak: seq<seq<nat>>, groups: seq<Group>, l: nat, x: nat)
    returns (g: nat)
    requires Components(obs, true, strong) && Components(obs, false, weak) && Assembled(obs, strong, weak, groups)
    requires l < |weak| && x in weak[l]
    ensures OnlyIn(groups, g, x)
    ensures g < |strong| ==> Home(obs, weak[l], strong) == Some(g)
    ensures g >= |strong| ==>
              Home(obs, weak[l], strong) == None && g < |groups| && groups[g] == LooseGroup(obs, strong, weak, l)
  {
    var loose := Loose(obs, strong, weak, |weak|);
    LooseAre(obs, strong, weak, |weak|);
    var home := Home(obs, weak[l], strong);
    if home.Some? {
      g := home.value;
    } else {
      assert l in loose;
      var u: nat :| u < |loose| && loose[u] == l;
      g := |strong| + u;
    }
    hide Assembled, InGroup, Loose, Home;
    forall h: nat ensures InGroup(groups, h, x) <==> h == g {
      if h < |strong| {
        WeakInPlace(obs, strong, weak, groups, l, x, h);
      } else {
        WeakInLoose(obs, strong, weak, groups, l, x, h);
        assert h == g ==> loose[h - |strong|] == l;
      }
    }
  }

  lemma PlaceOf(obs: seq<Observation>, strong: seq<seq<nat>>, weak: seq<seq<nat>>, groups: seq<Group>, x: nat)
    returns (g: nat)
    requires Components(obs, true, strong) && Components(obs, false, weak) && Assembled(obs, strong, weak, groups)
    requires x < |obs|
    ensures OnlyIn(groups, g, x)
  {
    if IsStrong(obs, x) {
      assert InPlay(obs, true, x);
      var c: nat :| c < |strong| && x in strong[c];
      StrongPlace(obs, strong, weak, groups, c, x);
      g := c;
    } else {
      assert InPlay(obs, false, x);
      var l: nat :| l < |weak| && x in weak[l];
      g := WeakPlace(obs, strong, weak, groups, l, x);
    }
  }

  lemma AssembledCovers(obs: seq<Observation>, strong: seq<seq<nat>>, weak: seq<seq<nat>>, groups: seq<Group>)
    requires Components(obs, true, strong) && Components(obs, false, weak) && Assembled(obs, strong, weak, groups)
    ensures ExactCover(obs, groups)
  {
    var loose := Loose(obs, strong, weak, |weak|);
    forall g: nat, x: nat | InGroup(groups, g, x) ensures x < |obs| {
      if g < |strong| {
        GrownMembers(obs, strong, weak, |weak|, g);
        if x in strong[g] {
          assert InPlay(obs, true, x);
        } else {
          var l :| 0 <= l < |weak| && x in weak[l];
          assert InPlay(obs, false, x);
        }
      } else {
        assert x in weak[loose[g - |strong|]];
        assert InPlay(obs, false, x);
      }
    }
    forall x: nat | x < |obs| ensures Somewhere(groups, x) {
      var g := PlaceOf(obs, strong, weak, groups, x);
      assert InGroup(groups, g, x);
    }
    forall g: nat, h: nat, x: nat | InGroup(groups, g, x) && InGroup(groups, h, x) ensures g == h {
      var p := PlaceOf(obs, strong, weak, groups, x);
      assert g == p && h == p;
    }
    forall g | 0 <= g < |groups| ensures Distinct(groups[g].members) {
      if g < |strong| {
        GrownDistinct(obs, strong, weak, |weak|, g);
      } else {
        assert groups[g].members == weak[loose[g - |strong|]];
      }
    }
  }

  lemma StrongPairTogether(obs: seq<Observation>, strong: seq<seq<nat>>, weak: seq<seq<nat>>, groups: seq<Group>,
        x: nat, y: nat, g: nat)
    requires Components(obs, true, strong) && Components(obs, false, weak) && Assembled(obs, strong, weak, groups)
    requires IsStrong(obs, x) && IsStrong(obs, y) && InGroup(groups, g, x)
    ensures InGroup(groups, g, y) <==> Linked(obs, true, x, y)
  {
    assert InPlay(obs, true, x) && InPlay(obs, true, y);
    var c: nat :| c < |strong| && x in strong[c];
    var d: nat :| d < |strong| && y in strong[d];
    StrongPlace(obs, strong, weak, groups, c, x);
    StrongPlace(obs, strong, weak, groups, d, y);
    assert g == c;
  }

  lemma MixedPairTogether(obs: seq<Observation>, strong: seq<seq<nat>>, weak: seq<seq<nat>>, groups: seq<Group>, x: nat,
        y: nat, g: nat)
    requires Components(obs, true, strong) && Components(obs, false, weak) && Assembled(obs, strong, weak, groups)
    requires IsWeak(obs, x) && IsStrong(obs, y) && InGroup(groups, g, x)
    ensures InGroup(groups, g, y) <==> OnlyMatch(obs, x, y)
  {
    assert InPlay(obs, false, x) && InPlay(obs, true, y);
    var l: nat :| l < |weak| && x in weak[l];
    var d: nat :| d < |strong| && y in strong[d];
    var p := WeakPlace(obs, strong, weak, groups, l, x);
    StrongPlace(obs, strong, weak, groups, d, y);
    HomeIsOnlyMatch(obs, strong, weak, l, d, x, y);
    assert g == p;
  }

  lemma WeakPairTogether(obs: seq<Observation>, strong: seq<seq<nat>>, weak: seq<seq<nat>>, groups: seq<Group>, x: nat,
        y: nat, g: nat)
    requires Components(obs, true, strong) && Components(obs, false, weak) && Assembled(obs, strong, weak, groups)
    requires IsWeak(obs, x) && IsWeak(obs, y) && InGroup(groups, g, x)
    ensures InGroup(groups, g, y) <==>
            Linked(obs, false, x, y) || exists s: nat :: OnlyMatch(obs, x, s) && OnlyMatch(obs, y, s)
  {
    assert InPlay(obs, false, x) && InPlay(obs, false, y);
    var l: nat :| l < |weak| && x in weak[l];
    var m: nat :| m < |weak| && y in weak[m];
    var p := WeakPlace(obs, strong, weak, groups, l, x);
    var q := WeakPlace(obs, strong, weak, groups, m, y);
    assert g == p;
    hide Assembled, Home, ShouldMerge, LooseGroup;
    if p == q && p < |strong| {
      var s := strong[p][0];
      assert s in strong[p];
      HomeIsOnlyMatch(obs, strong, weak, l, p, x, s);
      HomeIsOnlyMatch(obs, strong, weak, m, p, y, s);
    }
    if s: nat :| OnlyMatch(obs, x, s) && OnlyMatch(obs, y, s) {
      var c := TouchedPlace(obs, strong, weak, l, x, s);
      HomeIsOnlyMatch(obs, strong, weak, l, c, x, s);
      HomeIsOnlyMatch(obs, strong, weak, m, c, y, s);
    }
  }

  /** Two observations share a final group exactly when the intended partition puts them together. */
  lemma TogetherIsSameGroup(obs: seq<Observation>, strong: seq<seq<nat>>, weak: seq<seq<nat>>, groups: seq<Group>,
        x: nat, y: nat, g: nat)
    requires Components(obs, true, strong) && Components(obs, false, weak) && Assembled(obs, strong, weak, groups)
    requires x < |obs| && y < |obs| && InGroup(groups, g, x)
    ensures InGroup(groups, g, y) <==> SameGroup(obs, x, y)
  {
    if IsStrong(obs, x) && IsStrong(obs, y) {
      StrongPairTogether(obs, strong, weak, groups, x, y, g);
    } else if IsWeak(obs, x) && IsStrong(obs, y) {
      MixedPairTogether(obs, strong, weak, groups, x, y, g);
    } else if IsStrong(obs, x) && IsWeak(obs, y) {
      var h := PlaceOf(obs, strong, weak, groups, y);
      var g' := PlaceOf(obs, strong, weak, groups, x);
      MixedPairTogether(obs, strong, weak, groups, y, x, h);
    } else {
      WeakPairTogether(obs, strong, weak, groups, x, y, g);
    }
  }

  /** A group is flagged exactly when its members are a weak component that touches two places. */
  lemma FlagIsAmbiguity(obs: seq<Observation>, strong: seq<seq<nat>>, weak: seq<seq<nat>>, groups: seq<Group>, x: nat,
          g: nat)
    requires Components(obs, true, strong) && Components(obs, false, weak) && Assembled(obs, strong, weak, groups)
    requires x < |obs| && InGroup(groups, g, x)
    ensures groups[g].ambiguous <==> IsWeak(obs, x) && Ambiguous(obs, x)
  {
    if IsStrong(obs, x) {
      assert InPlay(obs, true, x);
      var c: nat :| c < |strong| && x in strong[c];
      StrongPlace(obs, strong, weak, groups, c, x);
    } else {
      assert InPlay(obs, false, x);
      var l: nat :| l < |weak| && x in weak[l];
      var p := WeakPlace(obs, strong, weak, groups, l, x);
      assert g == p;
      ManyMatchesIsAmbiguous(obs, strong, weak, l, x);
    }
  }

  /** `[item for item in observations if item.strong_ids]`, or its complement. */
  method SelectItems(obs: seq<Observation>, strongOnly: bool) returns (items: seq<nat>)
    ensures AreItems(obs, strongOnly, items)
  {
    items := [];
    var i: nat := 0;
    while i < |obs|
      invariant i <= |obs| && Increasing(items)
      invariant forall x: nat :: x in items <==> x < i && InPlay(obs, strongOnly, x)
      invariant forall k | 0 <= k < |items| :: items[k] < i
    {
      if InPlay(obs, strongOnly, i) {
        items := items + [i];
      }
      i := i + 1;
    }
  }

  lemma CoversIsComponents(obs: seq<Observation>, strongOnly: bool, items: seq<nat>, groups: seq<seq<nat>>)
    requires AreItems(obs, strongOnly, items) && Covers(groups, items) && AreComponents(obs, strongOnly, groups)
    ensures Components(obs, strongOnly, groups)
  {
  }

  /**
   `_groups`: every observation is in exactly one group; two observations share a group exactly when the
   intended partition says so; a group is flagged ambiguous exactly when it touches two distinct places.
   */
  method Groups(obs: seq<Observation>) returns (groups: seq<Group>)
    ensures ExactCover(obs, groups)
    ensures forall g: nat, x: nat, y: nat | x < |obs| && y < |obs| && InGroup(groups, g, x) ::
              InGroup(groups, g, y) <==> SameGroup(obs, x, y)
    ensures forall g: nat, x: nat | x < |obs| && InGroup(groups, g, x) ::
              groups[g].ambiguous <==> IsWeak(obs, x) && Ambiguous(obs, x)
  {
    var strongItems := SelectItems(obs, true);
    var strong := ConnectedGroups(obs, strongItems, true);
    CoversIsComponents(obs, true, strongItems, strong);
    var weakItems := SelectItems(obs, false);
    var weak := ConnectedGroups(obs, weakItems, false);
    CoversIsComponents(obs, false, weakItems, weak);
    var grown, unmatched := AttachWeak(obs, strong, weak);
    groups := seq(|grown|, c requires 0 <= c < |grown| => Group(grown[c], false)) + unmatched;
    assert Assembled(obs, strong, weak, groups);
    AssembledCovers(obs, strong, weak, groups);
    forall g: nat, x: nat, y: nat | x < |obs| && y < |obs| && InGroup(groups, g, x)
      ensures InGroup(groups, g, y) <==> SameGroup(obs, x, y)
    {
      TogetherIsSameGroup(obs, strong, weak, groups, x, y, g);
    }
    forall g: nat, x: nat | x < |obs| && InGroup(groups, g, x)
      ensures groups[g].ambiguous <==> IsWeak(obs, x) && Ambiguous(obs, x)
    {
      FlagIsAmbiguity(obs, strong, weak, groups, x, g);
    }
  }

  // ---------------------------------------------------------------- laws of the partition

  lemma TouchedIsStrong(obs: seq<Observation>, w: nat, s: nat)
    requires Touches(obs, w, s)
    ensures IsWeak(obs, w) && IsStrong(obs, s)
  {
    var v: nat, t: nat :| Linked(obs, false, w, v) && Linked(obs, true, s, t) && ShouldMerge(obs[v], obs[t]);
    LinkedInPlay(obs, false, w, v);
    LinkedInPlay(obs, true, s, t);
  }

  /** No weak observation, and no chain of them, ever joins two places that share no chain of strong ids. */
  lemma NeverBridges(obs: seq<Observation>, x: nat, w: nat, y: nat)
    requires IsStrong(obs, x) && IsStrong(obs, y) && w < |obs|
    requires SameGroup(obs, x, w) && SameGroup(obs, w, y)
    ensures Linked(obs, true, x, y)
  {
    if IsStrong(obs, w) {
      LinkedTrans(obs, true, x, w, y);
    } else {
      assert OnlyMatch(obs, w, x) && OnlyMatch(obs, w, y);
    }
  }

  /** A weak observation joins a place exactly when that is the only place it touches; otherwise it joins none. */
  lemma JoinsOnlyMatch(obs: seq<Observation>, w: nat)
    requires IsWeak(obs, w)
    ensures (exists s: nat :: IsStrong(obs, s) && SameGroup(obs, w, s)) <==>
            (exists s: nat :: Touches(obs, w, s)) && !Ambiguous(obs, w)
  {
    if s: nat :| IsStrong(obs, s) && SameGroup(obs, w, s) {
      assert OnlyMatch(obs, w, s);
      if t: nat, u: nat :| Touches(obs, w, t) && Touches(obs, w, u) && !Linked(obs, true, t, u) {
        LinkedSym(obs, true, s, t);
        LinkedTrans(obs, true, t, s, u);
        assert false;
      }
    }
    if s: nat :| Touches(obs, w, s) && !Ambiguous(obs, w) {
      TouchedIsStrong(obs, w, s);
      assert OnlyMatch(obs, w, s);
      assert SameGroup(obs, w, s);
    }
  }

  /** `f` carries positions of `to` to positions of `from` holding the same observation; `b` is its inverse. */
  ghost predicate Reorders(from: seq<Observation>, to: seq<Observation>, f: seq<nat>, b: seq<nat>) {
    && |from| == |to| == |f| == |b|
    && (forall i | 0 <= i < |f| :: f[i] < |from| && to[i] == from[f[i]] && b[f[i]] == i)
    && (forall j | 0 <= j < |b| :: b[j] < |to| && from[j] == to[b[j]] && f[b[j]] == j)
  }

  lemma LinkedMoves(from: seq<Observation>, to: seq<Observation>, f: seq<nat>, b: seq<nat>, strongOnly: bool, x: nat,
          y: nat)
    requires Reorders(from, to, f, b) && Linked(to, strongOnly, x, y)
    ensures x < |f| && y < |f| && Linked(from, strongOnly, f[x], f[y])
  {
    var p: seq<nat> :| IsChain(to, strongOnly, p) && p[0] == x && p[|p| - 1] == y;
    assert forall k | 0 <= k < |p| :: InPlay(to, strongOnly, p[k]);
    var q: seq<nat> := seq(|p|, k requires 0 <= k < |p| => f[p[k]]);
    forall k | 0 < k < |q| ensures Edge(from, strongOnly, q[k - 1], q[k]) {
      assert Edge(to, strongOnly, p[k - 1], p[k]);
    }
    assert IsChain(from, strongOnly, q);
  }

  lemma TouchesMoves(from: seq<Observation>, to: seq<Observation>, f: seq<nat>, b: seq<nat>, w: nat, s: nat)
    requires Reorders(from, to, f, b) && Touches(to, w, s)
    ensures w < |f| && s < |f| && Touches(from, f[w], f[s])
  {
    var v: nat, t: nat :| Linked(to, false, w, v) && Linked(to, true, s, t) && ShouldMerge(to[v], to[t]);
    LinkedMoves(from, to, f, b, false, w, v);
    LinkedMoves(from, to, f, b, true, s, t);
  }

  lemma OnlyMatchMoves(from: seq<Observation>, to: seq<Observation>, f: seq<nat>, b: seq<nat>, w: nat, s: nat)
    requires Reorders(from, to, f, b) && OnlyMatch(to, w, s)
    ensures w < |f| && s < |f| && OnlyMatch(from, f[w], f[s])
  {
    TouchesMoves(from, to, f, b, w, s);
    forall t: nat | Touches(from, f[w], t) ensures Linked(from, true, f[s], t) {
      TouchesMoves(to, from, b, f, f[w], t);
      assert Touches(to, w, b[t]);
      LinkedMoves(from, to, f, b, true, s, b[t]);
    }
  }

  lemma SameGroupMoves(from: seq<Observation>, to: seq<Observation>, f: seq<nat>, b: seq<nat>, x: nat, y: nat)
    requires Reorders(from, to, f, b) && x < |to| && y < |to| && SameGroup(to, x, y)
    ensures SameGroup(from, f[x], f[y])
  {
    if IsStrong(to, x) && IsStrong(to, y) {
      LinkedMoves(from, to, f, b, true, x, y);
    } else if IsStrong(to, y) {
      OnlyMatchMoves(from, to, f, b, x, y);
    } else if IsStrong(to, x) {
      OnlyMatchMoves(from, to, f, b, y, x);
    } else if Linked(to, false, x, y) {
      LinkedMoves(from, to, f, b, false, x, y);
    } else {
      var s: nat :| OnlyMatch(to, x, s) && OnlyMatch(to, y, s);
      OnlyMatchMoves(from, to, f, b, x, s);
      OnlyMatchMoves(from, to, f, b, y, s);
    }
  }

  /** Reordering the observations reorders the groups and nothing else. */
  lemma OrderIndependent(from: seq<Observation>, to: seq<Observation>, f: seq<nat>, b: seq<nat>, x: nat, y: nat)
    requires Reorders(from, to, f, b) && x < |to| && y < |to|
    ensures SameGroup(to, x, y) <==> SameGroup(from, f[x], f[y])
    ensures Ambiguous(to, x) <==> Ambiguous(from, f[x])
  {
    if SameGroup(to, x, y) {
      SameGroupMoves(from, to, f, b, x, y);
    }
    if SameGroup(from, f[x], f[y]) {
      SameGroupMoves(to, from, b, f, f[x], f[y]);
    }
    if Ambiguous(to, x) {
      AmbiguousMoves(from, to, f, b, x);
    }
    if Ambiguous(from, f[x]) {
      AmbiguousMoves(to, from, b, f, f[x]);
    }
  }

  lemma AmbiguousMoves(from: seq<Observation>, to: seq<Observation>, f: seq<nat>, b: seq<nat>, x: nat)
    requires Reorders(from, to, f, b) && x < |to| && Ambiguous(to, x)
    ensures Ambiguous(from, f[x])
  {
    var s: nat, t: nat :| Touches(to, x, s) && Touches(to, x, t) && !Linked(to, true, s, t);
    TouchesMoves(from, to, f, b, x, s);
    TouchesMoves(from, to, f, b, x, t);
    if Linked(from, true, f[s], f[t]) {
      LinkedMoves(to, from, b, f, true, f[s], f[t]);
      assert false;
    }
  }
}
