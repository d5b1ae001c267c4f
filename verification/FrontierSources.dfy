/**
 What app/collectors/site_inventory.py remembers about how a page was found: no merge of sources, aliases or records
 ever loses a discovery source, or makes a page look deeper than it was when it was accepted.
 */
module FrontierSources {
  import opened Base
  import opened Frontier

  /** The entry lists the source and is no deeper than the offer. */
  predicate Remembers(sources: seq<Source>, depth: nat, s: Source, d: nat) {
    s in sources && depth <= d
  }

  ghost predicate FlyingWith(inflight: seq<Candidate>, u: Url, s: Source, d: nat) {
    exists i :: 0 <= i < |inflight| && inflight[i].url == u && Remembers(inflight[i].sources, inflight[i].depth, s, d)
  }

  ghost predicate RecordedAs(st: State, k: Url, s: Source, d: nat) {
    k in st.records && Remembers(st.records[k].sources, st.records[k].depth, s, d)
  }

  ghost predicate WaitingAs(st: State, u: Url, s: Source, d: nat) {
    u in st.candidates && Remembers(st.candidates[u].sources, st.candidates[u].depth, s, d)
  }

  ghost predicate ResolvedAs(st: State, u: Url, s: Source, d: nat) {
    exists k :: (u, k) in st.resolved && RecordedAs(st, k, s, d)
  }

  /** Where the offer of `u` by source `s` at depth `d` is remembered while the crawl goes on. */
  ghost predicate Kept(st: State, inflight: seq<Candidate>, u: Url, s: Source, d: nat) {
    RecordedAs(st, u, s, d) || WaitingAs(st, u, s, d) || ResolvedAs(st, u, s, d) || FlyingWith(inflight, u, s, d)
  }

  /** Records are not forgotten, gain sources and only move up. */
  ghost predicate RecordsGrow(st: State, st': State) {
    && (forall k, s, d | RecordedAs(st, k, s, d) :: RecordedAs(st', k, s, d))
    && st.resolved <= st'.resolved
  }

  ghost predicate Grows(st: State, st': State) {
    RecordsGrow(st, st') && forall u, s, d | WaitingAs(st, u, s, d) :: WaitingAs(st', u, s, d)
  }

  lemma ResolvedGrows(st: State, st': State, u: Url, s: Source, d: nat)
    requires RecordsGrow(st, st') && ResolvedAs(st, u, s, d)
    ensures ResolvedAs(st', u, s, d)
  {
    var k :| (u, k) in st.resolved && RecordedAs(st, k, s, d);
    assert (u, k) in st'.resolved && RecordedAs(st', k, s, d);
  }

  lemma GrowthKeeps(st: State, st': State, inflight: seq<Candidate>, u: Url, s: Source, d: nat)
    requires Grows(st, st') && Kept(st, inflight, u, s, d)
    ensures Kept(st', inflight, u, s, d)
  {
    hide RecordedAs, WaitingAs, FlyingWith;
    if ResolvedAs(st, u, s, d) {
      ResolvedGrows(st, st', u, s, d);
    }
  }

  lemma MergeRemembers(sources: seq<Source>, extra: seq<Source>, s: Source)
    ensures s in MergeSources(sources, extra) <==> s in sources || s in extra
  {
    assert s in Elements(MergeSources(sources, extra)) <==> s in Elements(sources) || s in Elements(extra);
    hide MergeSources;
  }

  lemma NoteSourceGrows(st: State, u: Url, source: Source)
    requires u in st.records
    ensures Grows(st, NoteSource(st, u, source))
  {
    var st' := NoteSource(st, u, source);
    forall k, s, d | RecordedAs(st, k, s, d) ensures RecordedAs(st', k, s, d) {
      MergeRemembers(st.records[u].sources, [source], s);
    }
  }

  lemma UpdateCandidateGrows(st: State, u: Url, source: Source, depth: nat, prefetched: Option<Response>)
    requires u in st.candidates
    ensures Grows(st, UpdateCandidate(st, u, source, depth, prefetched))
  {
    var st' := UpdateCandidate(st, u, source, depth, prefetched);
    forall v, s, d | WaitingAs(st, v, s, d) ensures WaitingAs(st', v, s, d) {
      MergeRemembers(st.candidates[u].sources, [source], s);
    }
  }

  lemma AddGrows(cfg: Config, st: State, raw: Url, base: Option<Url>, source: Source, depth: nat,
          prefetched: Option<Response>)
    ensures Grows(st, Add(cfg, st, raw, base, source, depth, prefetched).0)
  {
    var admitted := Admit(cfg, raw, base, source);
    if admitted.Some? && admitted.value in st.records {
      NoteSourceGrows(st, admitted.value, source);
    } else if admitted.Some? && admitted.value in st.candidates {
      UpdateCandidateGrows(st, admitted.value, source, depth, prefetched);
    }
    hide MergeSources;
  }

  /** An accepted offer is remembered; for a page that is already recorded only its source is new. */
  lemma AcceptedIsKept(cfg: Config, st: State, raw: Url, base: Option<Url>, source: Source, depth: nat,
                       prefetched: Option<Response>, inflight: seq<Candidate>)
    requires Add(cfg, st, raw, base, source, depth, prefetched).1
    ensures var u := Admit(cfg, raw, base, source);
      u.Some? && Kept(Add(cfg, st, raw, base, source, depth, prefetched).0, inflight, u.value, source,
                      if u.value in st.records then st.records[u.value].depth else depth)
  {
    var u := Admit(cfg, raw, base, source).value;
    var st' := Add(cfg, st, raw, base, source, depth, prefetched).0;
    if u in st.records {
      MergeRemembers(st.records[u].sources, [source], source);
      assert RecordedAs(st', u, source, st.records[u].depth);
    } else {
      if u in st.candidates {
        MergeRemembers(st.candidates[u].sources, [source], source);
      }
      assert WaitingAs(st', u, source, depth);
    }
  }

  lemma {:induction false} AddLinksGrow(cfg: Config, st: State, record: Record, k: nat)
    requires k <= |record.links|
    ensures Grows(st, AddLinks(cfg, st, record, k))
  {
    hide Add, RecordedAs, WaitingAs;
    if k > 0 {
      AddLinksGrow(cfg, st, record, k - 1);
      AddGrows(cfg, AddLinks(cfg, st, record, k - 1), record.links[k - 1], record.finalUrl, InternalLink,
               record.depth + 1, None);
    }
  }

  // ---------------------------------------------------------------- recording a checked page

  /** The record entered for `c` remembers whatever `c` and its waiting alias did. */
  lemma EnteredRemembers(st: State, c: Candidate, record: Record, s: Source, d: nat)
    requires record.sources == c.sources && record.depth == c.depth
    requires var alias := PendingAlias(st, c, ChosenUrl(c, record));
      Remembers(c.sources, c.depth, s, d) || (alias.Some? && Remembers(alias.value.sources, alias.value.depth, s, d))
    ensures RecordedAs(Enter(st, c, record), ChosenUrl(c, record), s, d)
  {
    var chosen := ChosenUrl(c, record);
    var alias := PendingAlias(st, c, chosen);
    if alias.Some? {
      MergeRemembers(c.sources, alias.value.sources, s);
    }
    var sources := MergedSources(c, alias);
    assert s in sources && MergedDepth(c, alias) <= d;
    if chosen in st.records {
      MergeRemembers(st.records[chosen].sources, sources, s);
    }
  }

  lemma EnterGrows(st: State, c: Candidate, record: Record)
    ensures RecordsGrow(st, Enter(st, c, record))
    ensures (c.url, ChosenUrl(c, record)) in Enter(st, c, record).resolved
  {
    var chosen := ChosenUrl(c, record);
    var st' := Enter(st, c, record);
    forall k, s, d | RecordedAs(st, k, s, d) ensures RecordedAs(st', k, s, d) {
      if k == chosen {
        MergeRemembers(st.records[chosen].sources, MergedSources(c, PendingAlias(st, c, chosen)), s);
      }
    }
  }

  lemma WaitingOrDropped(st: State, c: Candidate, record: Record, u: Url, s: Source, d: nat)
    requires WaitingAs(st, u, s, d)
    ensures WaitingAs(Enter(st, c, record), u, s, d) ||
            (PendingAlias(st, c, ChosenUrl(c, record)) == Some(st.candidates[u]) && u == ChosenUrl(c, record))
  {
    hide MergeSources;
  }

  lemma EnterKeepsOffers(st: State, c: Candidate, record: Record, rest: seq<Candidate>, u: Url, s: Source, d: nat)
    requires record.sources == c.sources && record.depth == c.depth
    requires Kept(st, [c] + rest, u, s, d)
    ensures Kept(Enter(st, c, record), rest, u, s, d)
  {
    var st' := Enter(st, c, record);
    EnterGrows(st, c, record);
    if FlyingWith([c] + rest, u, s, d) {
      var i :| 0 <= i < |[c] + rest| && ([c] + rest)[i].url == u &&
            Remembers(([c] + rest)[i].sources, ([c] + rest)[i].depth, s, d);
      if i == 0 {
        EnteredRemembers(st, c, record, s, d);
        assert (u, ChosenUrl(c, record)) in st'.resolved;
      } else {
        assert rest[i - 1] == ([c] + rest)[i];
      }
    }
    hide Enter, ChosenUrl;
    if WaitingAs(st, u, s, d) {
      WaitingOrDropped(st, c, record, u, s, d);
      if !WaitingAs(st', u, s, d) {
        EnteredRemembers(st, c, record, s, d);
      }
    }
    if ResolvedAs(st, u, s, d) {
      ResolvedGrows(st, st', u, s, d);
    }
  }

  lemma SettleKeepsOffers(cfg: Config, st: State, c: Candidate, record: Record, rest: seq<Candidate>, u: Url, s: Source,
          d: nat)
    requires Check(cfg, c) == Some(record) && Kept(st, [c] + rest, u, s, d)
    ensures Kept(Settle(cfg, st, c, record), rest, u, s, d)
  {
    hide Kept, Grows, Enter;
    EnterKeepsOffers(st, c, record, rest, u, s, d);
    var chosen := ChosenUrl(c, record);
    var entered := Enter(st, c, record);
    if chosen !in st.records && Followed(record) {
      EnterProgress(st, c, record);
      EnteredLinks(st, c, record);
      AddLinksGrow(cfg, entered, entered.records[chosen], |record.links|);
      GrowthKeeps(entered, Settle(cfg, st, c, record), rest, u, s, d);
    }
  }

  lemma {:induction false} SettleAllKeepsOffers(cfg: Config, st: State, batch: seq<Candidate>, k: nat, u: Url,
          s: Source, d: nat)
    requires k <= |batch| && AllChecked(cfg, batch) && Kept(st, batch, u, s, d)
    ensures Kept(SettleAll(cfg, st, batch, k), batch[k..], u, s, d)
  {
    hide Kept, Settle, Check;
    if k > 0 {
      SettleAllKeepsOffers(cfg, st, batch, k - 1, u, s, d);
      assert batch[k - 1..] == [batch[k - 1]] + batch[k..];
      var before := SettleAll(cfg, st, batch, k - 1);
      SettleKeepsOffers(cfg, before, batch[k - 1], Check(cfg, batch[k - 1]).value, batch[k..], u, s, d);
    } else {
      assert batch[0..] == batch;
    }
  }

  // ---------------------------------------------------------------- taking a batch

  lemma FlyingMore(flown: seq<Candidate>, c: Candidate, u: Url, s: Source, d: nat)
    ensures FlyingWith(flown, u, s, d) ==> FlyingWith(flown + [c], u, s, d)
    ensures c.url == u && Remembers(c.sources, c.depth, s, d) ==> FlyingWith(flown + [c], u, s, d)
  {
    if FlyingWith(flown, u, s, d) {
      var i :| 0 <= i < |flown| && flown[i].url == u && Remembers(flown[i].sources, flown[i].depth, s, d);
      assert (flown + [c])[i] == flown[i];
    }
    assert (flown + [c])[|flown|] == c;
  }

  lemma PopKeepsOffers(st: State, flown: seq<Candidate>, u: Url, s: Source, d: nat)
    requires CandidatesGood(st) && st.queue != [] && Kept(st, flown, u, s, d)
    ensures Kept(Pop(st).0, Flown(flown, Pop(st).1), u, s, d)
  {
    var (st', c) := Pop(st);
    if c.Some? {
      FlyingMore(flown, c.value, u, s, d);
    }
    if ResolvedAs(st, u, s, d) {
      ResolvedGrows(st, st', u, s, d);
    }
    hide FlyingWith, ResolvedAs;
  }

  lemma {:induction false} TakeBatchKeepsOffers(cfg: Config, st: State, flown: seq<Candidate>, room: nat, u: Url,
        s: Source, d: nat)
    requires Invariant(cfg, st, flown) && |flown| + room <= cfg.batchSize && Kept(st, flown, u, s, d)
    ensures Kept(TakeBatch(st, room).0, flown + TakeBatch(st, room).1, u, s, d)
    decreases |st.queue|
  {
    hide Kept, Pop, Invariant;
    if st.queue == [] || room == 0 {
      assert flown + [] == flown;
    } else {
      var (next, c) := Pop(st);
      var room' := if c.Some? then room - 1 else room;
      InvariantCandidates(cfg, st, flown);
      PopKeepsOffers(st, flown, u, s, d);
      PopKeeps(cfg, st, flown);
      TakeBatchUnfolds(st, flown, room, room');
      PopShortens(st);
      TakeBatchKeepsOffers(cfg, next, Flown(flown, c), room', u, s, d);
    }
  }

  lemma PopShortens(st: State)
    requires st.queue != []
    ensures |Pop(st).0.queue| < |st.queue|
  {
  }

  lemma InvariantCandidates(cfg: Config, st: State, flown: seq<Candidate>)
    requires Invariant(cfg, st, flown)
    ensures CandidatesGood(st)
  {
  }

  // ---------------------------------------------------------------- whole drains

  /** After a drain the offer is remembered by a record: the page's own, or the one it was merged into. */
  ghost predicate Published(st: State, u: Url, s: Source, d: nat) {
    RecordedAs(st, u, s, d) || ResolvedAs(st, u, s, d)
  }

  /**
   Every source under which an address was accepted is listed in the record the address ends in, and that record is
   no deeper than the address was when it was accepted.
   */
  lemma {:induction false} DrainKeepsOffers(cfg: Config, st: State, u: Url, s: Source, d: nat)
    requires Invariant(cfg, st, []) && cfg.batchSize >= 1 && Kept(st, [], u, s, d)
    ensures Drain(cfg, st).1 ==> Published(Drain(cfg, st).0, u, s, d)
    decreases cfg.discoveryLimit + cfg.batchSize - |st.records|, |st.queue|
  {
    hide Kept, Invariant, TakeBatch, SettleAll, Published;
    if st.queue == [] {
      IdleIsPublished(cfg, st, u, s, d);
    } else {
      var (taken, batch) := TakeBatch(st, cfg.batchSize);
      if AllChecked(cfg, batch) {
        TurnKeeps(cfg, st, taken, batch);
        TakeBatchKeepsOffers(cfg, st, [], cfg.batchSize, u, s, d);
        assert [] + batch == batch;
        SettleAllKeepsOffers(cfg, taken, batch, |batch|, u, s, d);
        assert batch[|batch|..] == [];
        RoomLeft(cfg, SettleAll(cfg, taken, batch, |batch|));
        DrainKeepsOffers(cfg, SettleAll(cfg, taken, batch, |batch|), u, s, d);
      }
    }
  }

  lemma IdleIsPublished(cfg: Config, st: State, u: Url, s: Source, d: nat)
    requires Invariant(cfg, st, []) && st.queue == [] && Kept(st, [], u, s, d)
    ensures Published(st, u, s, d)
  {
    EmptyQueueMeansNoCandidates(st);
  }
}
