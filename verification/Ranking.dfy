/**
 Duplicate-website suppression and the selection loop of `rank_competitor_candidates` in
 app/competitors_v22/candidates.py. Scores are real numbers that are only compared.
 */
module Ranking {
  import opened Base
  import opened Lexicographic

  datatype Score = Score(total: real, rank: real, businessRelevance: real)

  /** `domain` is the normalized host of the candidate's website. */
  datatype Candidate = Candidate(competitorId: string, queryAppearanceCount: nat, domain: string)

  datatype Disposition = Eligible | Excluded | Ambiguous

  datatype AuditRecord = AuditRecord(
    identityKey: string,
    disposition: Disposition,
    reasonCode: string,
    score: Score,
    candidate: Option<Candidate>)

  const CANDIDATE_LIMIT: nat := 6

  predicate IsEligible(r: AuditRecord) {
    r.disposition == Eligible && r.candidate.Some?
  }

  // ---------------------------------------------------------------- _sort_key

  /** `_sort_key(a) < _sort_key(b)`: higher scores first, ties broken by competitor id. */
  predicate Before(a: AuditRecord, b: AuditRecord)
    requires IsEligible(a) && IsEligible(b)
  {
    if a.score.total != b.score.total then a.score.total > b.score.total
    else if a.candidate.value.queryAppearanceCount != b.candidate.value.queryAppearanceCount then
      a.candidate.value.queryAppearanceCount > b.candidate.value.queryAppearanceCount
    else if a.score.rank != b.score.rank then a.score.rank > b.score.rank
    else if a.score.businessRelevance != b.score.businessRelevance then
      a.score.businessRelevance > b.score.businessRelevance
    else StringLess(a.candidate.value.competitorId, b.candidate.value.competitorId)
  }

  /**
   What the order means: a higher total, among equal totals more query appearances, then a higher rank score,
   then a higher business relevance, and in the end the smaller competitor id.
   */
  ghost predicate RanksAhead(a: AuditRecord, b: AuditRecord)
    requires a.candidate.Some? && b.candidate.Some?
  {
    var x, y, p, q := a.score, b.score, a.candidate.value, b.candidate.value;
    var sameTotal := x.total == y.total;
    var sameCount := sameTotal && p.queryAppearanceCount == q.queryAppearanceCount;
    var sameRank := sameCount && x.rank == y.rank;
    var sameRelevance := sameRank && x.businessRelevance == y.businessRelevance;
    && x.total >= y.total
    && (sameTotal ==> p.queryAppearanceCount >= q.queryAppearanceCount)
    && (sameCount ==> x.rank >= y.rank)
    && (sameRank ==> x.businessRelevance >= y.businessRelevance)
    && (sameRelevance ==> TextBefore(p.competitorId, q.competitorId))
  }

  /** Coming first in the sort is ranking ahead. */
  lemma BeforeIsAhead(a: AuditRecord, b: AuditRecord)
    requires IsEligible(a) && IsEligible(b)
    ensures Before(a, b) <==> RanksAhead(a, b)
  {
    StringLessIs(a.candidate.value.competitorId, b.candidate.value.competitorId);
  }

  predicate AllEligible(s: seq<AuditRecord>) {
    forall i | 0 <= i < |s| :: IsEligible(s[i])
  }

  /** Distinct eligible records have distinct competitor ids. */
  ghost predicate DistinctIds(s: seq<AuditRecord>)
    requires AllEligible(s)
  {
    forall i, j | 0 <= i < j < |s| :: s[i].candidate.value.competitorId != s[j].candidate.value.competitorId
  }

  ghost predicate StrictlySorted(s: seq<AuditRecord>)
    requires AllEligible(s)
  {
    forall i, j | 0 <= i < j < |s| :: Before(s[i], s[j])
  }

  lemma BeforeIrreflexive(a: AuditRecord)
    requires IsEligible(a)
    ensures !Before(a, a)
  {
    LexIrreflexive(Codes(a.candidate.value.competitorId));
  }

  lemma BeforeTransitive(a: AuditRecord, b: AuditRecord, c: AuditRecord)
    requires IsEligible(a) && IsEligible(b) && IsEligible(c) && Before(a, b) && Before(b, c)
    ensures Before(a, c)
  {
    if StringLess(a.candidate.value.competitorId, b.candidate.value.competitorId) &&
       StringLess(b.candidate.value.competitorId, c.candidate.value.competitorId)
    {
      LexTransitive(Codes(a.candidate.value.competitorId), Codes(b.candidate.value.competitorId),
            Codes(c.candidate.value.competitorId));
    }
  }

  lemma BeforeTotal(a: AuditRecord, b: AuditRecord)
    requires IsEligible(a) && IsEligible(b)
    requires a.candidate.value.competitorId != b.candidate.value.competitorId
    ensures Before(a, b) || Before(b, a)
  {
    StringLessTotal(a.candidate.value.competitorId, b.candidate.value.competitorId);
  }

  // ---------------------------------------------------------------- sorted(..., key=_sort_key)

  /** Stable insertion: `r` goes behind everything it is not strictly before. */
  function Insert(r: AuditRecord, s: seq<AuditRecord>): (t: seq<AuditRecord>)
    requires IsEligible(r) && AllEligible(s)
    ensures AllEligible(t) && multiset(t) == multiset(s) + multiset{r}
  {
    if s == [] then [r]
    else
      var last := s[|s| - 1];
      assert s == s[..|s| - 1] + [last];
      if Before(r, last) then Insert(r, s[..|s| - 1]) + [last] else s + [r]
  }

  function Sort(s: seq<AuditRecord>): (t: seq<AuditRecord>)
    requires AllEligible(s)
    ensures AllEligible(t) && multiset(t) == multiset(s)
  {
    if s == [] then []
    else
      assert s == s[..|s| - 1] + [s[|s| - 1]];
      Insert(s[|s| - 1], Sort(s[..|s| - 1]))
  }

  lemma {:induction false} InsertKeepsSorted(r: AuditRecord, s: seq<AuditRecord>)
    requires IsEligible(r) && AllEligible(s) && StrictlySorted(s)
    requires forall i | 0 <= i < |s| :: s[i].candidate.value.competitorId != r.candidate.value.competitorId
    ensures StrictlySorted(Insert(r, s))
  {
    if s != [] {
      var front, last := s[..|s| - 1], s[|s| - 1];
      if Before(r, last) {
        InsertKeepsSorted(r, front);
        var t := Insert(r, front);
        forall i | 0 <= i < |t| ensures Before(t[i], last) {
          assert t[i] in multiset(t);
          assert t[i] in multiset(front) + multiset{r};
          if t[i] != r {
            assert t[i] in front;
          }
        }
      } else {
        BeforeTotal(r, last);
        forall i | 0 <= i < |s| ensures Before(s[i], r) {
          if i < |s| - 1 {
            BeforeTransitive(s[i], last, r);
          }
        }
      }
    }
  }

  /** With distinct ids the sort is strict, so its outcome depends on the contents alone. */
  lemma SortSorts(s: seq<AuditRecord>)
    requires AllEligible(s) && DistinctIds(s)
    ensures StrictlySorted(Sort(s))
    ensures |Sort(s)| == |s| && forall i, j | 0 <= i < j < |s| :: RanksAhead(Sort(s)[i], Sort(s)[j])
  {
    SortIsStrict(s);
    var t := Sort(s);
    assert |t| == |multiset(t)| == |multiset(s)| == |s|;
    forall i, j | 0 <= i < j < |s| ensures RanksAhead(t[i], t[j]) {
      BeforeIsAhead(t[i], t[j]);
    }
  }

  lemma {:induction false} SortIsStrict(s: seq<AuditRecord>)
    requires AllEligible(s) && DistinctIds(s)
    ensures StrictlySorted(Sort(s))
  {
    if s != [] {
      var front, last := s[..|s| - 1], s[|s| - 1];
      SortIsStrict(front);
      var t := Sort(front);
      forall i | 0 <= i < |t| ensures t[i].candidate.value.competitorId != last.candidate.value.competitorId {
        assert t[i] in multiset(t);
        assert t[i] in multiset(front);
        assert t[i] in front;
      }
      InsertKeepsSorted(last, t);
    }
  }

  // ---------------------------------------------------------------- _suppress_shared_websites

  /** `[record for record in records if record.disposition == "eligible"]`. */
  function Eligibles(records: seq<AuditRecord>): (e: seq<AuditRecord>)
    ensures AllEligible(e)
  {
    if records == [] then []
    else
      var before := Eligibles(records[..|records| - 1]);
      var last := records[|records| - 1];
      if IsEligible(last) then before + [last] else before
  }

  /** Identity keys single out the eligible records, and competitor ids do not collide. */
  ghost predicate WellKeyed(records: seq<AuditRecord>) {
    && (forall i, j | 0 <= i < |records| && 0 <= j < |records| && i != j && IsEligible(records[i]) ::
          records[i].identityKey != records[j].identityKey)
    && (forall i, j | 0 <= i < |records| && 0 <= j < |records| && i != j &&
                      IsEligible(records[i]) && IsEligible(records[j]) ::
          records[i].candidate.value.competitorId != records[j].candidate.value.competitorId)
  }

  lemma {:induction false} EligiblesAre(records: seq<AuditRecord>)
    requires WellKeyed(records)
    ensures DistinctIds(Eligibles(records))
    ensures forall r :: r in Eligibles(records) <==> r in records && IsEligible(r)
  {
    if records != [] {
      var front, last := records[..|records| - 1], records[|records| - 1];
      assert WellKeyed(front);
      EligiblesAre(front);
      var before := Eligibles(front);
      if IsEligible(last) {
        forall i | 0 <= i < |before|
          ensures before[i].candidate.value.competitorId != last.candidate.value.competitorId
        {
          assert before[i] in before;
          var j :| 0 <= j < |front| && front[j] == before[i];
          assert records[j] == before[i];
        }
      }
    }
  }

  ghost predicate SharesDomain(a: AuditRecord, b: AuditRecord)
    requires IsEligible(a) && IsEligible(b)
  {
    a.candidate.value.domain != "" && a.candidate.value.domain == b.candidate.value.domain
  }

  /** A better-ranked eligible record has the same website. */
  ghost predicate Shadowed(records: seq<AuditRecord>, r: AuditRecord)
    requires IsEligible(r)
  {
    exists o :: o in records && IsEligible(o) && SharesDomain(o, r) && Before(o, r)
  }

  function Suppressed(r: AuditRecord): AuditRecord {
    r.(disposition := Excluded, reasonCode := "shared_competitor_website", candidate := None)
  }

  /** What the pass over the first `k` sorted records has found. */
  ghost predicate Scanned(sorted: seq<AuditRecord>, k: nat, seen: set<string>, replacements: map<string, AuditRecord>)
    requires AllEligible(sorted) && k <= |sorted|
  {
    && (forall d :: d in seen <==> d != "" && exists i :: 0 <= i < k && sorted[i].candidate.value.domain == d)
    && (forall key | key in replacements :: Justified(sorted, k, key, replacements[key]))
    && (forall i | 0 <= i < k && EarlierShare(sorted, i) :: sorted[i].identityKey in replacements)
  }

  /** The replacement under `key` is a suppressed record with that key among the first `k`. */
  ghost predicate Justified(sorted: seq<AuditRecord>, k: nat, key: string, replacement: AuditRecord)
    requires AllEligible(sorted) && k <= |sorted|
  {
    exists i :: 0 <= i < k && sorted[i].identityKey == key && EarlierShare(sorted, i) &&
                replacement == Suppressed(sorted[i])
  }

  ghost predicate KeysDiffer(s: seq<AuditRecord>) {
    forall i, j | 0 <= i < |s| && 0 <= j < |s| && i != j :: s[i].identityKey != s[j].identityKey
  }

  ghost predicate EarlierShare(sorted: seq<AuditRecord>, i: nat)
    requires AllEligible(sorted) && i < |sorted|
  {
    exists j :: 0 <= j < i && SharesDomain(sorted[j], sorted[i])
  }

  method ScanDomains(sorted: seq<AuditRecord>) returns (replacements: map<string, AuditRecord>, ghost seen: set<string>)
    requires AllEligible(sorted)
    requires KeysDiffer(sorted)
    ensures Scanned(sorted, |sorted|, seen, replacements)
  {
    hide Scanned, KeysDiffer, EarlierShare, Justified, Suppressed, AllEligible;
    var seenDomains: set<string> := {};
    replacements, seen := map[], {};
    NothingScanned(sorted);
    var k: nat := 0;
    while k < |sorted|
      invariant k <= |sorted| && Scanned(sorted, k, seen, replacements) && seen == seenDomains
    {
      EligibleAt(sorted, k);
      var record := sorted[k];
      var domain := record.candidate.value.domain;
      if domain in seenDomains {
        ScanSuppresses(sorted, k, seen, replacements);
        replacements := replacements[record.identityKey := Suppressed(record)];
      } else if domain != "" {
        ScanKeeps(sorted, k, seen, replacements);
        seenDomains := seenDomains + {domain};
        seen := seenDomains;
      } else {
        ScanSkips(sorted, k, seen, replacements);
      }
      k := k + 1;
    }
  }

  lemma NothingScanned(sorted: seq<AuditRecord>)
    requires AllEligible(sorted)
    ensures Scanned(sorted, 0, {}, map[])
  {
  }

  lemma EligibleAt(s: seq<AuditRecord>, k: nat)
    requires AllEligible(s) && k < |s|
    ensures IsEligible(s[k])
  {
  }

  lemma ScanSuppresses(sorted: seq<AuditRecord>, k: nat, seen: set<string>, replacements: map<string, AuditRecord>)
    requires AllEligible(sorted) && k < |sorted| && Scanned(sorted, k, seen, replacements)
    requires KeysDiffer(sorted)
    requires sorted[k].candidate.value.domain in seen
    ensures Scanned(sorted, k + 1, seen, replacements[sorted[k].identityKey := Suppressed(sorted[k])])
  {
    var j :| 0 <= j < k && sorted[j].candidate.value.domain == sorted[k].candidate.value.domain;
    assert SharesDomain(sorted[j], sorted[k]);
    var after := replacements[sorted[k].identityKey := Suppressed(sorted[k])];
    assert EarlierShare(sorted, k);
    forall key | key in after ensures Justified(sorted, k + 1, key, after[key]) {
      if key != sorted[k].identityKey {
        assert Justified(sorted, k, key, replacements[key]);
      }
    }
  }

  lemma ScanSkips(sorted: seq<AuditRecord>, k: nat, seen: set<string>, replacements: map<string, AuditRecord>)
    requires AllEligible(sorted) && k < |sorted| && Scanned(sorted, k, seen, replacements)
    requires sorted[k].candidate.value.domain == ""
    ensures Scanned(sorted, k + 1, seen, replacements)
  {
    assert !EarlierShare(sorted, k);
    forall key | key in replacements ensures Justified(sorted, k + 1, key, replacements[key]) {
      assert Justified(sorted, k, key, replacements[key]);
    }
  }

  lemma ScanKeeps(sorted: seq<AuditRecord>, k: nat, seen: set<string>, replacements: map<string, AuditRecord>)
    requires AllEligible(sorted) && k < |sorted| && Scanned(sorted, k, seen, replacements)
    requires sorted[k].candidate.value.domain !in seen && sorted[k].candidate.value.domain != ""
    ensures Scanned(sorted, k + 1, seen + {sorted[k].candidate.value.domain}, replacements)
  {
    assert !EarlierShare(sorted, k);
    forall key | key in replacements ensures Justified(sorted, k + 1, key, replacements[key]) {
      assert Justified(sorted, k, key, replacements[key]);
    }
  }

  /** `_suppress_shared_websites`: a record is suppressed exactly when a better one has its website. */
  method SuppressSharedWebsites(records: seq<AuditRecord>) returns (result: seq<AuditRecord>)
    requires WellKeyed(records)
    ensures |result| == |records|
    ensures forall i | 0 <= i < |records| :: result[i] == Outcome(records, records[i])
    ensures forall i | 0 <= i < |records| && !Outranked(records, i) :: result[i] == records[i]
    ensures forall i | 0 <= i < |records| && Outranked(records, i) ::
              result[i] == records[i].(disposition := Excluded, reasonCode := "shared_competitor_website",
                                       candidate := None)
  {
    hide WellKeyed, Scanned, StrictlySorted, Outranked, Outcome, Shadowed, Eligibles, Sort;
    var sorted := Sort(Eligibles(records));
    SortedEligibles(records);
    var replacements, seen := ScanDomains(sorted);
    result := seq(|records|, i requires 0 <= i < |records| =>
      if records[i].identityKey in replacements then replacements[records[i].identityKey] else records[i]);
    forall i | 0 <= i < |records| ensures result[i] == Outcome(records, records[i]) {
      ReplacedIsShadowed(records, sorted, seen, replacements, i);
    }
    forall i | 0 <= i < |records|
      ensures Outcome(records, records[i]) == if Outranked(records, i) then
                records[i].(disposition := Excluded, reasonCode := "shared_competitor_website", candidate := None)
              else records[i]
    {
      OutcomeIs(records, i);
    }
  }

  lemma OutcomeIs(records: seq<AuditRecord>, i: nat)
    requires i < |records|
    ensures Outcome(records, records[i]) == if Outranked(records, i) then
              records[i].(disposition := Excluded, reasonCode := "shared_competitor_website", candidate := None)
            else records[i]
  {
    ShadowedIsOutranked(records, i);
  }

  ghost function Outcome(records: seq<AuditRecord>, r: AuditRecord): AuditRecord {
    if IsEligible(r) && Shadowed(records, r) then Suppressed(r) else r
  }

  /** An eligible record with the same website ranks ahead of record `i`. */
  ghost predicate Outranked(records: seq<AuditRecord>, i: nat)
    requires i < |records|
  {
    var r := records[i];
    && r.disposition == Eligible && r.candidate.Some? && r.candidate.value.domain != ""
    && exists j | 0 <= j < |records| :: Outranks(records[j], r)
  }

  ghost predicate Outranks(o: AuditRecord, r: AuditRecord)
    requires r.candidate.Some?
  {
    && o.disposition == Eligible && o.candidate.Some?
    && o.candidate.value.domain == r.candidate.value.domain
    && RanksAhead(o, r)
  }

  lemma ShadowedIsOutranked(records: seq<AuditRecord>, i: nat)
    requires i < |records|
    ensures Outranked(records, i) <==> IsEligible(records[i]) && Shadowed(records, records[i])
  {
    var r := records[i];
    if IsEligible(r) {
      if Shadowed(records, r) {
        var o :| o in records && IsEligible(o) && SharesDomain(o, r) && Before(o, r);
        var j :| 0 <= j < |records| && records[j] == o;
        BeforeIsAhead(o, r);
        assert Outranks(records[j], r);
      }
      if Outranked(records, i) {
        var j :| 0 <= j < |records| && Outranks(records[j], r);
        BeforeIsAhead(records[j], r);
        assert SharesDomain(records[j], r);
      }
    }
  }

  lemma SortedEligibles(records: seq<AuditRecord>)
    requires WellKeyed(records)
    ensures StrictlySorted(Sort(Eligibles(records)))
    ensures forall r :: r in Sort(Eligibles(records)) <==> r in records && IsEligible(r)
    ensures KeysDiffer(Sort(Eligibles(records)))
  {
    var e := Eligibles(records);
    EligiblesAre(records);
    SortIsStrict(e);
    var sorted := Sort(e);
    forall r ensures r in sorted <==> r in e {
      assert r in multiset(sorted) <==> r in multiset(e);
    }
    forall i, j | 0 <= i < |sorted| && 0 <= j < |sorted| && i != j
      ensures sorted[i].identityKey != sorted[j].identityKey
    {
      assert sorted[i] in sorted && sorted[j] in sorted;
      var a :| 0 <= a < |records| && records[a] == sorted[i];
      var b :| 0 <= b < |records| && records[b] == sorted[j];
      BeforeIrreflexive(sorted[i]);
      assert a != b;
    }
  }

  /** Sharing with an earlier record is sharing with a better one. */
  lemma EarlierIsBetter(records: seq<AuditRecord>, sorted: seq<AuditRecord>, i: nat)
    requires AllEligible(sorted) && StrictlySorted(sorted) && i < |sorted|
    requires forall r :: r in sorted <==> r in records && IsEligible(r)
    ensures EarlierShare(sorted, i) <==> Shadowed(records, sorted[i])
  {
    if EarlierShare(sorted, i) {
      var j :| 0 <= j < i && SharesDomain(sorted[j], sorted[i]);
      assert sorted[j] in sorted && Before(sorted[j], sorted[i]);
    }
    if Shadowed(records, sorted[i]) {
      var o :| o in records && IsEligible(o) && SharesDomain(o, sorted[i]) && Before(o, sorted[i]);
      assert o in sorted;
      var j :| 0 <= j < |sorted| && sorted[j] == o;
      NotAfter(sorted, i, j);
    }
  }

  lemma NotAfter(sorted: seq<AuditRecord>, i: nat, j: nat)
    requires AllEligible(sorted) && StrictlySorted(sorted) && i < |sorted| && j < |sorted|
    requires Before(sorted[j], sorted[i])
    ensures j < i
  {
    BeforeIrreflexive(sorted[i]);
    if i < j {
      BeforeTransitive(sorted[j], sorted[i], sorted[j]);
      BeforeIrreflexive(sorted[j]);
    }
  }

  lemma ReplacedIsShadowed(records: seq<AuditRecord>, sorted: seq<AuditRecord>, seen: set<string>,
        replacements: map<string, AuditRecord>, i: nat)
    requires WellKeyed(records) && i < |records|
    requires AllEligible(sorted) && StrictlySorted(sorted)
    requires forall r :: r in sorted <==> r in records && IsEligible(r)
    requires Scanned(sorted, |sorted|, seen, replacements)
    ensures (if records[i].identityKey in replacements then replacements[records[i].identityKey] else records[i]) ==
          Outcome(records, records[i])
  {
    var r := records[i];
    if r.identityKey in replacements {
      var k := Replaced(sorted, seen, replacements, r.identityKey);
      assert sorted[k] in sorted;
      var a :| 0 <= a < |records| && records[a] == sorted[k];
      assert a == i;
      EarlierIsBetter(records, sorted, k);
    } else if IsEligible(r) {
      assert r in sorted;
      var k :| 0 <= k < |sorted| && sorted[k] == r;
      EarlierIsBetter(records, sorted, k);
      assert !EarlierShare(sorted, k);
    }
  }

  lemma Replaced(sorted: seq<AuditRecord>, seen: set<string>, replacements: map<string, AuditRecord>,
        key: string) returns (k: nat)
    requires AllEligible(sorted) && Scanned(sorted, |sorted|, seen, replacements) && key in replacements
    ensures k < |sorted| && sorted[k].identityKey == key && EarlierShare(sorted, k) &&
            replacements[key] == Suppressed(sorted[k])
  {
    assert Justified(sorted, |sorted|, key, replacements[key]);
    k :| 0 <= k < |sorted| && sorted[k].identityKey == key && EarlierShare(sorted, k) && replacements[key] ==
          Suppressed(sorted[k]);
  }

  // ---------------------------------------------------------------- what suppression achieves

  ghost predicate IsOutcome(records: seq<AuditRecord>, result: seq<AuditRecord>) {
    |result| == |records| && forall i | 0 <= i < |records| :: result[i] == Outcome(records, records[i])
  }

  /** After suppression no two eligible records share a website. */
  lemma SurvivorsHaveDistinctWebsites(records: seq<AuditRecord>, result: seq<AuditRecord>, i: nat, j: nat)
    requires WellKeyed(records) && IsOutcome(records, result)
    requires i < |result| && j < |result| && i != j && IsEligible(result[i]) && IsEligible(result[j])
    ensures !SharesDomain(result[i], result[j])
  {
    var a, b := records[i], records[j];
    assert result[i] == Outcome(records, a) && result[j] == Outcome(records, b);
    assert a in records && b in records;
    BeforeTotal(a, b);
  }

  /** Every website with an eligible record keeps one, and it is the best of them. */
  lemma BestSurvives(records: seq<AuditRecord>, result: seq<AuditRecord>, i: nat) returns (best: nat)
    requires WellKeyed(records) && IsOutcome(records, result)
    requires i < |records| && IsEligible(records[i]) && records[i].candidate.value.domain != ""
    ensures best < |result| && IsEligible(result[best]) && result[best] == records[best]
    ensures SharesDomain(result[best], records[i])
    ensures best == i || RanksAhead(result[best], records[i])
  {
    SortedEligibles(records);
    var sorted := Sort(Eligibles(records));
    assert records[i] in records;
    var k :| 0 <= k < |sorted| && sorted[k] == records[i];
    var first := FirstOfDomain(sorted, k);
    EarlierIsBetter(records, sorted, first);
    assert sorted[first] in sorted;
    best :| 0 <= best < |records| && records[best] == sorted[first];
    assert result[best] == Outcome(records, records[best]);
    if best != i {
      BeforeIsAhead(records[best], records[i]);
    }
  }

  /** A suppressed record leaves behind an eligible one of its website that ranks ahead of it. */
  lemma SuppressedForBetter(records: seq<AuditRecord>, result: seq<AuditRecord>, i: nat) returns (best: nat)
    requires WellKeyed(records) && IsOutcome(records, result)
    requires i < |records| && result[i] != records[i]
    ensures records[i].candidate.Some? && records[i].candidate.value.domain != ""
    ensures best < |result| && result[best].disposition == Eligible && result[best].candidate.Some?
    ensures result[best].candidate.value.domain == records[i].candidate.value.domain
    ensures RanksAhead(result[best], records[i])
  {
    assert result[i] == Outcome(records, records[i]);
    best := BestSurvives(records, result, i);
  }

  lemma {:induction false} FirstOfDomain(sorted: seq<AuditRecord>, k: nat) returns (first: nat)
    requires AllEligible(sorted) && k < |sorted| && sorted[k].candidate.value.domain != ""
    ensures first <= k && SharesDomain(sorted[first], sorted[k]) && !EarlierShare(sorted, first)
  {
    if EarlierShare(sorted, k) {
      var j: nat :| j < k && SharesDomain(sorted[j], sorted[k]);
      first := FirstOfDomain(sorted, j);
    } else {
      first := k;
    }
  }
}
