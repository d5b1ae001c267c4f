/**
 The shortlist of `rank_competitor_candidates` (app/competitors_v22/candidates.py, lines 482-521):
 the six best eligible records, into which eligible supplemental competitors are moved in place.
 */
module Selection {
  import opened Base
  import opened Ranking

  function Website(r: AuditRecord): string
    requires IsEligible(r)
  {
    r.candidate.value.domain
  }

  /** What suppression leaves: sorted strictly, with pairwise distinct ids and websites. */
  ghost predicate Suppressible(eligible: seq<AuditRecord>) {
    && AllEligible(eligible)
    && StrictlySorted(eligible)
    && DistinctIds(eligible)
    && forall i, j | 0 <= i < j < |eligible| && Website(eligible[i]) != "" ::
         Website(eligible[i]) != Website(eligible[j])
  }

  /** Suppression followed by sorting meets what the selection relies on. */
  lemma SuppressionSuffices(records: seq<AuditRecord>, result: seq<AuditRecord>)
    requires WellKeyed(records) && IsOutcome(records, result)
    ensures Suppressible(Sort(Eligibles(result)))
  {
    assert WellKeyed(result) by {
      forall i | 0 <= i < |result| && IsEligible(result[i]) ensures IsEligible(records[i]) && result[i] == records[i] {
        assert result[i] == Outcome(records, records[i]);
      }
      forall i | 0 <= i < |result| ensures result[i].identityKey == records[i].identityKey {
        assert result[i] == Outcome(records, records[i]);
      }
    }
    SortedEligibles(result);
    var sorted := Sort(Eligibles(result));
    forall i, j | 0 <= i < j < |sorted|
      ensures sorted[i].candidate.value.competitorId != sorted[j].candidate.value.competitorId
      ensures Website(sorted[i]) != "" ==> Website(sorted[i]) != Website(sorted[j])
    {
      assert sorted[i] in sorted && sorted[j] in sorted;
      var a :| 0 <= a < |result| && result[a] == sorted[i];
      var b :| 0 <= b < |result| && result[b] == sorted[j];
      assert Before(sorted[i], sorted[j]);
      BeforeIrreflexive(sorted[i]);
      SurvivorsHaveDistinctWebsites(records, result, a, b);
    }
  }

  // ---------------------------------------------------------------- the shortlist

  predicate Supplemental(r: AuditRecord, domains: seq<string>)
    requires IsEligible(r)
  {
    Website(r) in domains
  }

  /** `eligible_by_domain.get(domain)`: the mapping keeps the last record of each website. */
  function LookUp(eligible: seq<AuditRecord>, domain: string): (found: Option<AuditRecord>)
    requires AllEligible(eligible)
    ensures found.Some? ==> found.value in eligible && IsEligible(found.value) && Website(found.value) == domain
    ensures found.None? ==> forall r | r in eligible :: Website(r) != domain
  {
    if eligible == [] then None
    else if Website(eligible[|eligible| - 1]) == domain then Some(eligible[|eligible| - 1])
    else LookUp(eligible[..|eligible| - 1], domain)
  }

  /** Sorted, drawn from the eligible records, and as large as the limit allows. */
  ghost predicate Shortlist(s: seq<AuditRecord>, eligible: seq<AuditRecord>) {
    && AllEligible(s)
    && StrictlySorted(s)
    && (forall r | r in s :: r in eligible)
    && |s| == Min(CANDIDATE_LIMIT, |eligible|)
  }

  /** Among the records nobody asked for, a chosen one has no better one left out. */
  ghost predicate BestOthers(s: seq<AuditRecord>, eligible: seq<AuditRecord>, domains: seq<string>)
    requires AllEligible(s) && AllEligible(eligible)
  {
    forall r, o | r in s && o in eligible && !Supplemental(r, domains) && !Supplemental(o, domains) && Before(o, r) ::
      o in s
  }

  ghost predicate TopKept(s: seq<AuditRecord>, eligible: seq<AuditRecord>, domains: seq<string>)
    requires AllEligible(eligible)
  {
    forall i | 0 <= i < Min(CANDIDATE_LIMIT, |eligible|) && Supplemental(eligible[i], domains) :: eligible[i] in s
  }

  ghost predicate OnlySupplemental(s: seq<AuditRecord>, domains: seq<string>)
    requires AllEligible(s)
  {
    forall r | r in s :: Supplemental(r, domains)
  }

  /** The eligible records of the first `k` supplemental websites are in. */
  ghost predicate Included(s: seq<AuditRecord>, eligible: seq<AuditRecord>, domains: seq<string>, k: nat)
    requires AllEligible(eligible) && k <= |domains|
  {
    forall r | r in eligible && Website(r) in domains[..k] :: r in s
  }

  /** A supplemental record moved in from outside the top is preceded by all earlier websites' records. */
  ghost predicate InTurn(s: seq<AuditRecord>, eligible: seq<AuditRecord>, domains: seq<string>)
    requires AllEligible(s) && AllEligible(eligible)
  {
    forall r, j | r in s && 0 <= j < |domains| && Website(r) == domains[j] &&
          r !in eligible[..Min(CANDIDATE_LIMIT, |eligible|)] ::
      Included(s, eligible, domains, j)
  }

  /** What holds when the loop has considered the first `k` supplemental websites. */
  ghost predicate Chosen(s: seq<AuditRecord>, eligible: seq<AuditRecord>, domains: seq<string>, k: nat)
    requires AllEligible(eligible) && k <= |domains|
  {
    && Shortlist(s, eligible)
    && BestOthers(s, eligible, domains)
    && TopKept(s, eligible, domains)
    && InTurn(s, eligible, domains)
    && (Included(s, eligible, domains, k) || OnlySupplemental(s, domains))
  }

  /** The supplemental websites without an eligible record, each reported as a data gap. */
  function Gaps(eligible: seq<AuditRecord>, domains: seq<string>): seq<string>
    requires AllEligible(eligible)
  {
    if domains == [] then []
    else
      var last := domains[|domains| - 1];
      Gaps(eligible, domains[..|domains| - 1]) + if LookUp(eligible, last).None? then [last] else []
  }

  lemma GapsGrow(eligible: seq<AuditRecord>, domains: seq<string>, k: nat)
    requires AllEligible(eligible) && k < |domains|
    ensures Gaps(eligible, domains[..k + 1]) ==
            Gaps(eligible, domains[..k]) + if LookUp(eligible, domains[k]).None? then [domains[k]] else []
  {
    hide LookUp;
    assert domains[..k + 1][..k] == domains[..k];
  }

  // ---------------------------------------------------------------- the loop keeps Chosen

  lemma SameWebsiteSameRecord(eligible: seq<AuditRecord>, a: AuditRecord, b: AuditRecord)
    requires Suppressible(eligible) && a in eligible && b in eligible
    requires Website(a) == Website(b) != "" || a.candidate.value.competitorId == b.candidate.value.competitorId
    ensures a == b
  {
    var i :| 0 <= i < |eligible| && eligible[i] == a;
    var j :| 0 <= j < |eligible| && eligible[j] == b;
  }

  lemma TopIsChosen(eligible: seq<AuditRecord>, domains: seq<string>)
    requires Suppressible(eligible)
    ensures Chosen(eligible[..Min(CANDIDATE_LIMIT, |eligible|)], eligible, domains, 0)
  {
    var top := eligible[..Min(CANDIDATE_LIMIT, |eligible|)];
    forall r, o | r in top && o in eligible && Before(o, r) ensures o in top {
      var i :| 0 <= i < |top| && top[i] == r;
      var j :| 0 <= j < |eligible| && eligible[j] == o;
      NotAfter(eligible, i, j);
      assert top[j] == o;
    }
    forall i | 0 <= i < Min(CANDIDATE_LIMIT, |eligible|) ensures eligible[i] in top {
      assert top[i] == eligible[i];
    }
  }

  lemma NothingToAdd(s: seq<AuditRecord>, eligible: seq<AuditRecord>, domains: seq<string>, k: nat)
    requires AllEligible(eligible) && k < |domains| && Chosen(s, eligible, domains, k)
    requires LookUp(eligible, domains[k]).None?
    ensures Chosen(s, eligible, domains, k + 1)
  {
    assert domains[..k + 1] == domains[..k] + [domains[k]];
    if Included(s, eligible, domains, k) {
      assert Included(s, eligible, domains, k + 1);
    }
  }

  lemma AlreadyIn(s: seq<AuditRecord>, eligible: seq<AuditRecord>, domains: seq<string>, k: nat, r: AuditRecord)
    requires Suppressible(eligible) && k < |domains| && Chosen(s, eligible, domains, k) && "" !in domains
    requires r in eligible && Website(r) == domains[k] && r in s
    ensures Chosen(s, eligible, domains, k + 1)
  {
    assert domains[..k + 1] == domains[..k] + [domains[k]];
    if Included(s, eligible, domains, k) {
      forall o | o in eligible && Website(o) in domains[..k + 1] ensures o in s {
        if Website(o) == domains[k] {
          SameWebsiteSameRecord(eligible, o, r);
        }
      }
    }
  }

  /** The replaced list, before and after sorting, has the old members but one, and the new one. */
  lemma ReplacementMembers(s: seq<AuditRecord>, eligible: seq<AuditRecord>, x: AuditRecord, i: nat)
    requires Suppressible(eligible) && Shortlist(s, eligible)
    requires x in eligible && x !in s && i < |s|
    ensures Shortlist(Sort(s[i := x]), eligible)
    ensures forall r :: r in Sort(s[i := x]) <==> r == x || (r in s && r != s[i])
  {
    var t := s[i := x];
    forall a, b | 0 <= a < b < |t| ensures t[a].candidate.value.competitorId != t[b].candidate.value.competitorId {
      if t[a].candidate.value.competitorId == t[b].candidate.value.competitorId {
        SameWebsiteSameRecord(eligible, t[a], t[b]);
        DistinctShortlist(s, eligible);
        assert false;
      }
    }
    SortIsStrict(t);
    var u := Sort(t);
    forall r ensures r in u <==> r in t {
      assert r in multiset(u) <==> r in multiset(t);
    }
    assert |u| == |multiset(u)| == |multiset(t)| == |t|;
    DistinctShortlist(s, eligible);
    forall r ensures r in t <==> r == x || (r in s && r != s[i]) {
      assert t[i] == x;
      if r in s && r != s[i] {
        var j :| 0 <= j < |s| && s[j] == r;
        assert t[j] == r;
      }
    }
  }

  lemma DistinctShortlist(s: seq<AuditRecord>, eligible: seq<AuditRecord>)
    requires Shortlist(s, eligible)
    ensures Distinct(s)
  {
    forall i, j | 0 <= i < j < |s| ensures s[i] != s[j] {
      BeforeIrreflexive(s[i]);
    }
  }

  lemma ReplacementKeeps(s: seq<AuditRecord>, eligible: seq<AuditRecord>, domains: seq<string>, k: nat, x: AuditRecord,
          i: nat)
    requires Suppressible(eligible) && k < |domains| && Distinct(domains) && "" !in domains
    requires Chosen(s, eligible, domains, k)
    requires x in eligible && Website(x) == domains[k] && x !in s
    requires i < |s| && !Supplemental(s[i], domains)
    requires forall j | i < j < |s| :: Supplemental(s[j], domains)
    ensures Chosen(Sort(s[i := x]), eligible, domains, k + 1)
  {
    hide Sort, StrictlySorted, DistinctIds;
    var u := Sort(s[i := x]);
    ReplacementMembers(s, eligible, x, i);
    assert Included(s, eligible, domains, k);
    assert BestOthers(u, eligible, domains) by {
      forall r, o | r in u && o in eligible && !Supplemental(r, domains) && !Supplemental(o, domains) && Before(o, r)
        ensures o in u
      {
        assert Supplemental(x, domains) && r in s && o in s;
        if o == s[i] {
          LastOther(s, eligible, domains, i, r);
          assert false;
        }
      }
    }
    forall j: nat | j <= k ensures Included(u, eligible, domains, j) {
      IncludedStays(s, u, eligible, domains, j, i);
    }
    IncludedGrows(u, eligible, domains, k, x);
    assert InTurn(u, eligible, domains) by {
      forall r, j | r in u && 0 <= j < |domains| && Website(r) == domains[j] &&
            r !in eligible[..Min(CANDIDATE_LIMIT, |eligible|)]
        ensures Included(u, eligible, domains, j)
      {
        if r == x {
          assert j == k;
        } else {
          assert Included(s, eligible, domains, j);
          IncludedStays(s, u, eligible, domains, j, i);
        }
      }
    }
  }

  /** The last record nobody asked for is behind all the others like it. */
  lemma LastOther(s: seq<AuditRecord>, eligible: seq<AuditRecord>, domains: seq<string>, i: nat, r: AuditRecord)
    requires Shortlist(s, eligible) && i < |s| && r in s && !Supplemental(r, domains)
    requires forall j | i < j < |s| :: Supplemental(s[j], domains)
    ensures !Before(s[i], r)
  {
    var j :| 0 <= j < |s| && s[j] == r;
    BeforeIrreflexive(r);
    if j < i && Before(s[i], r) {
      BeforeTransitive(r, s[i], r);
    }
  }

  lemma IncludedStays(s: seq<AuditRecord>, u: seq<AuditRecord>, eligible: seq<AuditRecord>, domains: seq<string>,
          j: nat, i: nat)
    requires AllEligible(s) && AllEligible(eligible) && j <= |domains| && i < |s|
    requires Included(s, eligible, domains, j) && !Supplemental(s[i], domains)
    requires forall r | r in s && r != s[i] :: r in u
    ensures Included(u, eligible, domains, j)
  {
    forall r | r in eligible && Website(r) in domains[..j] ensures r in u {
      assert Website(r) in domains;
    }
  }

  lemma IncludedGrows(u: seq<AuditRecord>, eligible: seq<AuditRecord>, domains: seq<string>, k: nat, x: AuditRecord)
    requires Suppressible(eligible) && k < |domains| && "" !in domains
    requires Included(u, eligible, domains, k) && x in u && x in eligible && Website(x) == domains[k]
    ensures Included(u, eligible, domains, k + 1)
  {
    assert domains[..k + 1] == domains[..k] + [domains[k]];
    forall r | r in eligible && Website(r) in domains[..k + 1] ensures r in u {
      if Website(r) == domains[k] {
        SameWebsiteSameRecord(eligible, r, x);
      }
    }
  }

  /** The last position held by a record that was not asked for. */
  method ReplaceIndex(s: seq<AuditRecord>, domains: seq<string>) returns (index: Option<nat>)
    requires AllEligible(s)
    ensures index.None? ==> OnlySupplemental(s, domains)
    ensures index.Some? ==> index.value < |s| && !Supplemental(s[index.value], domains)
    ensures index.Some? ==> forall i | index.value < i < |s| :: Supplemental(s[i], domains)
  {
    var i := |s|;
    while i > 0
      invariant 0 <= i <= |s|
      invariant forall j | i <= j < |s| :: Supplemental(s[j], domains)
    {
      i := i - 1;
      if !Supplemental(s[i], domains) {
        return Some(i);
      }
    }
    index := None;
  }

  /** One turn of the loop over the supplemental websites. */
  method Consider(eligible: seq<AuditRecord>, domains: seq<string>, k: nat, selected: seq<AuditRecord>)
    returns (after: seq<AuditRecord>, missing: bool)
    requires Suppressible(eligible)
    requires Distinct(domains) && "" !in domains && k < |domains|
    requires Chosen(selected, eligible, domains, k)
    ensures Chosen(after, eligible, domains, k + 1)
    ensures missing <==> LookUp(eligible, domains[k]).None?
  {
    hide Sort, StrictlySorted, BestOthers, TopKept, InTurn, DistinctIds, Included;
    after, missing := selected, false;
    var supplemental := LookUp(eligible, domains[k]);
    if supplemental.None? {
      missing := true;
      NothingToAdd(selected, eligible, domains, k);
    } else if supplemental.value in selected {
      AlreadyIn(selected, eligible, domains, k, supplemental.value);
    } else {
      var index := ReplaceIndex(selected, domains);
      if index.Some? {
        ReplacementKeeps(selected, eligible, domains, k, supplemental.value, index.value);
        after := Sort(selected[index.value := supplemental.value]);
      }
    }
  }

  method SelectCandidates(eligible: seq<AuditRecord>, domains: seq<string>) returns (selected: seq<AuditRecord>,
        gaps: seq<string>)
    requires Suppressible(eligible)
    requires Distinct(domains) && "" !in domains
    ensures Chosen(selected, eligible, domains, |domains|)
    ensures ShortlistRight(selected, eligible, domains)
    ensures gaps == Gaps(eligible, domains)
    ensures forall d :: d in gaps <==> d in domains && forall r | r in eligible :: r.candidate.value.domain != d
  {
    assert AllEligible(eligible);
    hide Chosen, Suppressible, LookUp, Distinct, AllEligible, ShortlistRight;
    selected := eligible[..Min(CANDIDATE_LIMIT, |eligible|)];
    gaps := [];
    TopIsChosen(eligible, domains);
    var k: nat := 0;
    while k < |domains|
      invariant k <= |domains| && AllEligible(eligible)
      invariant Chosen(selected, eligible, domains, k)
      invariant gaps == Gaps(eligible, domains[..k])
    {
      var missing: bool;
      selected, missing := Consider(eligible, domains, k, selected);
      GapsGrow(eligible, domains, k);
      gaps := gaps + if missing then [domains[k]] else [];
      k := k + 1;
    }
    assert domains[..|domains|] == domains;
    ChosenIsRight(selected, eligible, domains);
    GapsAre(eligible, domains);
  }

  lemma {:induction false} GapsAre(eligible: seq<AuditRecord>, domains: seq<string>)
    requires AllEligible(eligible)
    ensures forall d :: d in Gaps(eligible, domains) <==>
              d in domains && forall r | r in eligible :: r.candidate.value.domain != d
  {
    if domains != [] {
      GapsAre(eligible, domains[..|domains| - 1]);
      assert domains == domains[..|domains| - 1] + [domains[|domains| - 1]];
    }
  }

  /**
   The shortlist in the fields of its records: six of them, or all if there are fewer; ranked; and no record left
   out ranks ahead of a listed one where neither website was asked for.
   */
  ghost predicate ShortlistRight(s: seq<AuditRecord>, eligible: seq<AuditRecord>, domains: seq<string>)
    requires AllEligible(eligible)
  {
    && |s| == (if |eligible| < 6 then |eligible| else 6)
    && (forall r | r in s :: r in eligible)
    && (forall i, j | 0 <= i < j < |s| :: InRank(s[i], s[j]))
    && (forall r, o | r in s && o in eligible && o !in s && r.candidate.Some? &&
                      r.candidate.value.domain !in domains && o.candidate.value.domain !in domains ::
          RanksAhead(r, o))
  }

  ghost predicate InRank(a: AuditRecord, b: AuditRecord) {
    a.candidate.Some? && b.candidate.Some? && RanksAhead(a, b)
  }

  lemma ChosenIsRight(s: seq<AuditRecord>, eligible: seq<AuditRecord>, domains: seq<string>)
    requires Suppressible(eligible) && Chosen(s, eligible, domains, |domains|)
    ensures ShortlistRight(s, eligible, domains)
  {
    hide RanksAhead, Before;
    forall i, j | 0 <= i < j < |s| ensures InRank(s[i], s[j]) {
      BeforeIsAhead(s[i], s[j]);
    }
    forall r, o | r in s && o in eligible && o !in s && r.candidate.Some? &&
                  r.candidate.value.domain !in domains && o.candidate.value.domain !in domains
      ensures RanksAhead(r, o)
    {
      EligibleTotal(eligible, r, o);
      BeforeIsAhead(r, o);
    }
  }

  // ---------------------------------------------------------------- what the shortlist is

  /** The eligible records of supplemental websites. */
  function Requested(eligible: seq<AuditRecord>, domains: seq<string>): set<AuditRecord>
    requires AllEligible(eligible)
  {
    set r | r in eligible && Supplemental(r, domains)
  }

  /** All requested records make the shortlist exactly when there are at most six of them. */
  lemma AllRequestedFit(s: seq<AuditRecord>, eligible: seq<AuditRecord>, domains: seq<string>)
    requires Suppressible(eligible) && Chosen(s, eligible, domains, |domains|)
    ensures Requested(eligible, domains) <= Elements(s) <==> |Requested(eligible, domains)| <= 6
    ensures (forall r | r in eligible && r.candidate.value.domain in domains :: r in s) <==>
            |set r | r in eligible && r.candidate.value.domain in domains| <= 6
  {
    var requested := Requested(eligible, domains);
    assert requested == set r | r in eligible && r.candidate.value.domain in domains;
    RequestedFit(s, eligible, domains);
    forall r ensures r in s <==> r in Elements(s) {
    }
    forall r ensures r in requested <==> r in eligible && r.candidate.value.domain in domains {
    }
  }

  lemma RequestedFit(s: seq<AuditRecord>, eligible: seq<AuditRecord>, domains: seq<string>)
    requires Suppressible(eligible) && Chosen(s, eligible, domains, |domains|)
    ensures Requested(eligible, domains) <= Elements(s) <==> |Requested(eligible, domains)| <= CANDIDATE_LIMIT
  {
    var requested := Requested(eligible, domains);
    DistinctShortlist(s, eligible);
    DistinctSize(s);
    if requested <= Elements(s) {
      SubsetSize(requested, Elements(s));
    } else if |requested| <= CANDIDATE_LIMIT {
      assert domains[..|domains|] == domains;
      assert OnlySupplemental(s, domains);
      assert Elements(s) <= requested;
      SubsetSize(requested, Elements(eligible));
      DistinctEligible(eligible);
      DistinctSize(eligible);
      SameSizeSubset(Elements(s), requested);
    }
  }

  lemma DistinctEligible(eligible: seq<AuditRecord>)
    requires AllEligible(eligible) && StrictlySorted(eligible)
    ensures Distinct(eligible)
  {
    forall i, j | 0 <= i < j < |eligible| ensures eligible[i] != eligible[j] {
      BeforeIrreflexive(eligible[i]);
    }
  }

  /** With more than six requested records, nothing else is chosen. */
  lemma OnlyRequestedRemain(s: seq<AuditRecord>, eligible: seq<AuditRecord>, domains: seq<string>)
    requires Suppressible(eligible) && Chosen(s, eligible, domains, |domains|)
    requires |Requested(eligible, domains)| > 6
    ensures Elements(s) < Requested(eligible, domains)
    ensures forall r | r in s :: r.candidate.Some? && r.candidate.value.domain in domains
  {
    AllRequestedFit(s, eligible, domains);
    assert domains[..|domains|] == domains;
    assert !Included(s, eligible, domains, |domains|);
    forall r | r in s ensures r.candidate.Some? && r.candidate.value.domain in domains {
      assert r in Elements(s);
    }
  }

  /** Two lists of one size with different members each have a member the other lacks. */
  lemma Exchange(s: seq<AuditRecord>, t: seq<AuditRecord>, r: AuditRecord) returns (o: AuditRecord)
    requires Distinct(s) && Distinct(t) && |s| == |t| && r in s && r !in t
    ensures o in t && o !in s
  {
    DistinctSize(s);
    DistinctSize(t);
    assert r in Elements(s) && r !in Elements(t);
    if Elements(t) <= Elements(s) {
      SameSizeSubset(Elements(t), Elements(s));
    }
    o :| o in Elements(t) && o !in Elements(s);
  }

  /**
   The result in one sentence: all requested records, then the best of the others. Its only input about the
   supplemental websites is which records they request, so the order in which they are handled cannot matter.
   */
  ghost predicate RequestedThenBest(s: seq<AuditRecord>, eligible: seq<AuditRecord>, requested: set<AuditRecord>)
    requires AllEligible(eligible)
  {
    && Shortlist(s, eligible)
    && requested <= Elements(s)
    && forall r, o | r in s && o in eligible && r !in requested && o !in requested && Before(o, r) :: o in s
  }

  lemma ChosenIsRequestedThenBest(s: seq<AuditRecord>, eligible: seq<AuditRecord>, domains: seq<string>)
    requires Suppressible(eligible) && Chosen(s, eligible, domains, |domains|)
    requires |Requested(eligible, domains)| <= CANDIDATE_LIMIT
    ensures RequestedThenBest(s, eligible, Requested(eligible, domains))
  {
    AllRequestedFit(s, eligible, domains);
  }

  lemma RequestedThenBestMembers(s: seq<AuditRecord>, t: seq<AuditRecord>, eligible: seq<AuditRecord>,
        requested: set<AuditRecord>, r: AuditRecord)
    requires Suppressible(eligible)
    requires RequestedThenBest(s, eligible, requested) && RequestedThenBest(t, eligible, requested)
    requires r in s
    ensures r in t
  {
    if r !in t {
      DistinctShortlist(s, eligible);
      DistinctShortlist(t, eligible);
      var o := Exchange(s, t, r);
      assert o !in Elements(s) && r !in Elements(t);
      EligibleTotal(eligible, r, o);
      assert false;
    }
  }

  lemma EligibleTotal(eligible: seq<AuditRecord>, a: AuditRecord, b: AuditRecord)
    requires Suppressible(eligible) && a in eligible && b in eligible && a != b
    ensures Before(a, b) || Before(b, a)
  {
    var i :| 0 <= i < |eligible| && eligible[i] == a;
    var j :| 0 <= j < |eligible| && eligible[j] == b;
  }

  lemma {:induction false} SortedByMembers(s: seq<AuditRecord>, t: seq<AuditRecord>)
    requires AllEligible(s) && AllEligible(t) && StrictlySorted(s) && StrictlySorted(t)
    requires forall r :: r in s <==> r in t
    ensures s == t
  {
    if s != [] {
      assert s[0] in t;
      FirstIsBest(s, t);
      FirstIsBest(t, s);
      if s[0] != t[0] {
        BeforeTransitive(s[0], t[0], s[0]);
        BeforeIrreflexive(s[0]);
        assert false;
      }
      forall r ensures r in s[1..] <==> r in t[1..] {
        TailMembers(s, r);
        TailMembers(t, r);
      }
      SortedByMembers(s[1..], t[1..]);
      assert s == [s[0]] + s[1..] && t == [t[0]] + t[1..];
    } else {
      FirstIsMember(t);
    }
  }

  lemma FirstIsMember<T>(t: seq<T>)
    ensures t != [] ==> t[0] in t
  {
  }

  lemma FirstIsBest(s: seq<AuditRecord>, t: seq<AuditRecord>)
    requires AllEligible(s) && AllEligible(t) && StrictlySorted(s) && s != [] && t != []
    requires forall r | r in t :: r in s
    ensures s[0] == t[0] || Before(s[0], t[0])
  {
    assert t[0] in s;
    var i :| 0 <= i < |s| && s[i] == t[0];
  }

  lemma TailMembers(s: seq<AuditRecord>, r: AuditRecord)
    requires AllEligible(s) && StrictlySorted(s) && s != []
    ensures r in s[1..] <==> r in s && r != s[0]
  {
    BeforeIrreflexive(s[0]);
    if r in s && r != s[0] {
      var i :| 0 <= i < |s| && s[i] == r;
      assert s[1..][i - 1] == r;
    }
    if r in s[1..] {
      var i :| 0 <= i < |s[1..]| && s[1..][i] == r;
      assert Before(s[0], s[i + 1]);
    }
  }

  /** With at most six requested records the shortlist does not depend on the order of the websites. */
  lemma OrderOfWebsitesIsIrrelevant(eligible: seq<AuditRecord>, domains: seq<string>, others: seq<string>,
                                    s: seq<AuditRecord>, t: seq<AuditRecord>)
    requires Suppressible(eligible) && Elements(domains) == Elements(others)
    requires |Requested(eligible, domains)| <= CANDIDATE_LIMIT
    requires Chosen(s, eligible, domains, |domains|) && Chosen(t, eligible, others, |others|)
    ensures s == t
  {
    forall d ensures d in domains <==> d in others {
      assert d in Elements(domains) <==> d in Elements(others);
    }
    assert Requested(eligible, domains) == Requested(eligible, others);
    ChosenIsRequestedThenBest(s, eligible, domains);
    ChosenIsRequestedThenBest(t, eligible, others);
    RequestedThenBestIsUnique(s, t, eligible, Requested(eligible, domains));
  }

  lemma RequestedThenBestIsUnique(s: seq<AuditRecord>, t: seq<AuditRecord>, eligible: seq<AuditRecord>,
        requested: set<AuditRecord>)
    requires Suppressible(eligible)
    requires RequestedThenBest(s, eligible, requested) && RequestedThenBest(t, eligible, requested)
    ensures s == t
  {
    forall r ensures r in s <==> r in t {
      if r in s {
        RequestedThenBestMembers(s, t, eligible, requested, r);
      }
      if r in t {
        RequestedThenBestMembers(t, s, eligible, requested, r);
      }
    }
    SortedByMembers(s, t);
  }

  // ---------------------------------------------------------------- more than six requests

  lemma ChosenMembers(eligible: seq<AuditRecord>, domains: seq<string>, s: seq<AuditRecord>, t: seq<AuditRecord>,
          r: AuditRecord)
    requires Suppressible(eligible) && "" !in domains && |Requested(eligible, domains)| > CANDIDATE_LIMIT
    requires Chosen(s, eligible, domains, |domains|) && Chosen(t, eligible, domains, |domains|)
    requires r in s
    ensures r in t
  {
    if r !in t {
      DistinctShortlist(s, eligible);
      DistinctShortlist(t, eligible);
      var o := Exchange(s, t, r);
      OnlyRequestedRemain(s, eligible, domains);
      OnlyRequestedRemain(t, eligible, domains);
      assert r in Elements(s) && o in Elements(t);
      TopStays(t, eligible, domains, r);
      TopStays(s, eligible, domains, o);
      var a :| 0 <= a < |domains| && domains[a] == Website(r);
      var b :| 0 <= b < |domains| && domains[b] == Website(o);
      if a == b {
        SameWebsiteSameRecord(eligible, r, o);
      }
      EarlierIncluded(t, eligible, domains, o, b, r, a);
      EarlierIncluded(s, eligible, domains, r, a, o, b);
      assert false;
    }
  }

  lemma TopStays(s: seq<AuditRecord>, eligible: seq<AuditRecord>, domains: seq<string>, r: AuditRecord)
    requires AllEligible(eligible) && Chosen(s, eligible, domains, |domains|)
    requires r in eligible && Supplemental(r, domains) && r !in s
    ensures r !in eligible[..Min(CANDIDATE_LIMIT, |eligible|)]
  {
  }

  lemma EarlierIncluded(s: seq<AuditRecord>, eligible: seq<AuditRecord>, domains: seq<string>, r: AuditRecord, j: nat,
        o: AuditRecord, i: nat)
    requires AllEligible(eligible) && Chosen(s, eligible, domains, |domains|)
    requires r in s && j < |domains| && Website(r) == domains[j] && r !in eligible[..Min(CANDIDATE_LIMIT, |eligible|)]
    requires o in eligible && i < |domains| && Website(o) == domains[i]
    ensures i < j ==> o in s
  {
    assert Included(s, eligible, domains, j);
    if i < j {
      assert domains[..j][i] == Website(o);
    }
  }

  /** In every case the stated conditions determine the whole shortlist. */
  lemma ChosenIsUnique(eligible: seq<AuditRecord>, domains: seq<string>, s: seq<AuditRecord>, t: seq<AuditRecord>)
    requires Suppressible(eligible) && "" !in domains
    requires Chosen(s, eligible, domains, |domains|) && Chosen(t, eligible, domains, |domains|)
    ensures s == t
  {
    if |Requested(eligible, domains)| <= CANDIDATE_LIMIT {
      OrderOfWebsitesIsIrrelevant(eligible, domains, domains, s, t);
    } else {
      forall r ensures r in s <==> r in t {
        if r in s {
          ChosenMembers(eligible, domains, s, t, r);
        }
        if r in t {
          ChosenMembers(eligible, domains, t, s, r);
        }
      }
      SortedByMembers(s, t);
    }
  }
}
