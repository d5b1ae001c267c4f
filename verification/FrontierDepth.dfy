/**
 When the crawl of app/collectors/site_inventory.py ends with an exception: a record with a crawl depth over 100 is
 rejected by its schema. Exactly the discovery limits up to 101 rule that out, whatever the batch size.
 */
module FrontierDepth {
  import opened Base
  import opened Frontier

  function AtLeastOne(n: int): nat {
    if n < 1 then 1 else n
  }

  /** With `n` records: each is less deep than `n`, and whatever waits is not deeper than `n`, or named by a sitemap. */
  ghost predicate DepthsWithin(st: State, inflight: seq<Candidate>, n: nat, limit: nat) {
    && (forall k | k in st.records :: st.records[k].depth < n)
    && (forall u | u in st.candidates :: DepthFits(st.candidates[u].depth, n, limit))
    && (forall i | 0 <= i < |inflight| :: DepthFits(inflight[i].depth, n, limit))
  }

  predicate DepthFits(depth: nat, n: nat, limit: nat) {
    depth <= AtLeastOne(n) && depth <= AtLeastOne(limit - 1)
  }

  ghost predicate Shallow(cfg: Config, st: State, inflight: seq<Candidate>) {
    DepthsWithin(st, inflight, |st.records|, cfg.discoveryLimit)
  }

  /** The first page to be recorded is one of depth 0, the homepage. */
  ghost predicate Rooted(st: State, inflight: seq<Candidate>) {
    || st.records != map[]
    || (inflight != [] && inflight[0].depth == 0)
    || (inflight == [] && st.queue != [] && st.queue[0] in st.candidates && st.candidates[st.queue[0]].depth == 0)
  }

  // ---------------------------------------------------------------- the depths stay within the records

  lemma NoteSourceKeepsDepths(st: State, u: Url, source: Source, inflight: seq<Candidate>, n: nat, limit: nat)
    requires DepthsWithin(st, inflight, n, limit) && u in st.records
    ensures DepthsWithin(NoteSource(st, u, source), inflight, n, limit)
    ensures |NoteSource(st, u, source).records| == |st.records|
  {
    hide MergeSources, DepthFits;
    assert NoteSource(st, u, source).records.Keys == st.records.Keys + {u};
    MoreKeys(st.records, NoteSource(st, u, source).records, u);
  }

  lemma UpdateCandidateKeepsDepths(st: State, u: Url, source: Source, depth: nat, prefetched: Option<Response>,
                                   inflight: seq<Candidate>, n: nat, limit: nat)
    requires DepthsWithin(st, inflight, n, limit) && u in st.candidates
    ensures DepthsWithin(UpdateCandidate(st, u, source, depth, prefetched), inflight, n, limit)
  {
    hide MergeSources;
    assert DepthFits(st.candidates[u].depth, n, limit);
  }

  lemma EnqueueKeepsDepths(st: State, u: Url, source: Source, depth: nat, prefetched: Option<Response>,
                           inflight: seq<Candidate>, n: nat, limit: nat)
    requires DepthsWithin(st, inflight, n, limit) && DepthFits(depth, n, limit)
    ensures DepthsWithin(Enqueue(st, u, source, depth, prefetched), inflight, n, limit)
  {
    hide DepthFits;
  }

  lemma EnqueueKeepsCount(st: State, u: Url, source: Source, depth: nat, prefetched: Option<Response>)
    ensures Enqueue(st, u, source, depth, prefetched).records == st.records
  {
  }

  lemma UpdateKeepsCount(st: State, u: Url, source: Source, depth: nat, prefetched: Option<Response>)
    requires u in st.candidates
    ensures UpdateCandidate(st, u, source, depth, prefetched).records == st.records
  {
    hide MergeSources;
  }

  lemma AddStaysShallow(cfg: Config, st: State, raw: Url, base: Option<Url>, source: Source, depth: nat,
                        prefetched: Option<Response>, inflight: seq<Candidate>)
    requires Shallow(cfg, st, inflight) && depth <= AtLeastOne(|st.records|)
    ensures Shallow(cfg, Add(cfg, st, raw, base, source, depth, prefetched).0, inflight)
    ensures |Add(cfg, st, raw, base, source, depth, prefetched).0.records| == |st.records|
  {
    hide MergeSources, Admit, NoteSource, UpdateCandidate, Enqueue;
    var n, limit := |st.records|, cfg.discoveryLimit;
    match Admit(cfg, raw, base, source)
    case None =>
      hide DepthsWithin;
    case Some(u) =>
      EnqueueKeepsCount(st, u, source, depth, prefetched);
      if u in st.records {
        hide DepthsWithin;
        NoteSourceKeepsDepths(st, u, source, inflight, n, limit);
      } else if u in st.candidates {
        hide DepthsWithin;
        UpdateKeepsCount(st, u, source, depth, prefetched);
        UpdateCandidateKeepsDepths(st, u, source, depth, prefetched, inflight, n, limit);
      } else if |st.records| + |st.candidates| < cfg.discoveryLimit {
        hide DepthsWithin;
        EnqueueKeepsDepths(st, u, source, depth, prefetched, inflight, n, limit);
      }
  }

  lemma {:induction false} AddLinksStayShallow(cfg: Config, st: State, record: Record, k: nat, inflight: seq<Candidate>)
    requires Shallow(cfg, st, inflight) && record.depth < |st.records| && k <= |record.links|
    ensures Shallow(cfg, AddLinks(cfg, st, record, k), inflight) &&
            |AddLinks(cfg, st, record, k).records| == |st.records|
  {
    hide Add, Shallow;
    if k > 0 {
      AddLinksStayShallow(cfg, st, record, k - 1, inflight);
      AddStaysShallow(cfg, AddLinks(cfg, st, record, k - 1), record.links[k - 1], record.finalUrl, InternalLink,
                      record.depth + 1, None, inflight);
    }
  }

  lemma EnterKeepsDepths(st: State, c: Candidate, record: Record, rest: seq<Candidate>, n: nat, n': nat, limit: nat)
    requires DepthsWithin(st, [c] + rest, n, limit) && record.depth == c.depth
    requires n <= n' && (ChosenUrl(c, record) !in st.records ==> n < n' && (n > 0 || c.depth == 0))
    ensures DepthsWithin(Enter(st, c, record), rest, n', limit)
  {
    hide MergeSources, MergedSources;
    assert ([c] + rest)[0] == c;
    forall i | 0 <= i < |rest| ensures DepthFits(rest[i].depth, n', limit) {
      assert ([c] + rest)[i + 1] == rest[i];
    }
    forall u | u in st.candidates ensures DepthFits(st.candidates[u].depth, n', limit) {
      assert DepthFits(st.candidates[u].depth, n, limit);
    }
  }

  lemma EnterStaysShallow(cfg: Config, st: State, c: Candidate, record: Record, rest: seq<Candidate>)
    requires Shallow(cfg, st, [c] + rest) && Rooted(st, [c] + rest) && record.depth == c.depth
    ensures Shallow(cfg, Enter(st, c, record), rest) && |Enter(st, c, record).records| > 0
  {
    EnterProgress(st, c, record);
    hide Enter, DepthsWithin;
    assert st.records == map[] ==> ([c] + rest)[0].depth == 0;
    MoreKeys(st.records, Enter(st, c, record).records, ChosenUrl(c, record));
    EnterKeepsDepths(st, c, record, rest, |st.records|, |Enter(st, c, record).records|, cfg.discoveryLimit);
  }

  lemma RecordIsShallow(cfg: Config, st: State, inflight: seq<Candidate>, k: Url)
    requires Shallow(cfg, st, inflight) && k in st.records
    ensures st.records[k].depth < |st.records|
  {
  }

  lemma CheckKeepsDepth(cfg: Config, c: Candidate)
    requires Check(cfg, c).Some?
    ensures Check(cfg, c).value.depth == c.depth
  {
  }

  lemma SettleStaysShallow(cfg: Config, st: State, c: Candidate, rest: seq<Candidate>)
    requires Shallow(cfg, st, [c] + rest) && Rooted(st, [c] + rest) && Check(cfg, c).Some?
    ensures var st' := Settle(cfg, st, c, Check(cfg, c).value); Shallow(cfg, st', rest) && st'.records != map[]
  {
    hide Enter, AddLink, Shallow, Check;
    var record := Check(cfg, c).value;
    CheckKeepsDepth(cfg, c);
    EnterStaysShallow(cfg, st, c, record, rest);
    EnteredLinks(st, c, record);
    var entered := Enter(st, c, record);
    RecordIsShallow(cfg, entered, rest, ChosenUrl(c, record));
    if ChosenUrl(c, record) !in st.records && Followed(record) {
      AddLinksStayShallow(cfg, entered, entered.records[ChosenUrl(c, record)], |record.links|, rest);
    }
  }

  lemma {:induction false} SettleAllStayShallow(cfg: Config, st: State, batch: seq<Candidate>, k: nat)
    requires Shallow(cfg, st, batch) && Rooted(st, batch) && k <= |batch| && AllChecked(cfg, batch)
    ensures var st' := SettleAll(cfg, st, batch, k); Shallow(cfg, st', batch[k..]) && (k > 0 ==> st'.records != map[])
  {
    hide Settle, Check, Shallow;
    if k == 0 {
      assert batch[0..] == batch;
    } else {
      SettleAllStayShallow(cfg, st, batch, k - 1);
      assert batch[k - 1..] == [batch[k - 1]] + batch[k..];
      SettleStaysShallow(cfg, SettleAll(cfg, st, batch, k - 1), batch[k - 1], batch[k..]);
    }
  }

  lemma PopStaysShallow(cfg: Config, st: State, flown: seq<Candidate>)
    requires st.queue != [] && Shallow(cfg, st, flown) && Rooted(st, flown)
    ensures Shallow(cfg, Pop(st).0, Flown(flown, Pop(st).1)) && Rooted(Pop(st).0, Flown(flown, Pop(st).1))
  {
    hide DepthFits;
  }

  lemma {:induction false} TakeBatchStaysShallow(cfg: Config, st: State, flown: seq<Candidate>, room: nat)
    requires Shallow(cfg, st, flown) && Rooted(st, flown)
    ensures var (st', batch) := TakeBatch(st, room); Shallow(cfg, st', flown + batch) && Rooted(st', flown + batch)
    decreases |st.queue|
  {
    if st.queue == [] || room == 0 {
      assert flown + [] == flown;
    } else {
      var (next, c) := Pop(st);
      PopStaysShallow(cfg, st, flown);
      var room' := if c.Some? then room - 1 else room;
      TakeBatchUnfolds(st, flown, room, room');
      hide Shallow, Rooted;
      TakeBatchStaysShallow(cfg, next, Flown(flown, c), room');
    }
  }

  /** A drain that turns from an empty table records at least the homepage. */
  lemma TurnRoots(cfg: Config, taken: State, batch: seq<Candidate>)
    requires Shallow(cfg, taken, batch) && Rooted(taken, batch) && AllChecked(cfg, batch)
    requires batch == [] ==> taken.records != map[]
    ensures Rooted(SettleAll(cfg, taken, batch, |batch|), [])
  {
    SettleAllStayShallow(cfg, taken, batch, |batch|);
  }

  lemma EmptyBatchIsRooted(st: State, room: nat)
    requires st.queue != [] && room > 0 && Rooted(st, []) && TakeBatch(st, room).1 == []
    ensures TakeBatch(st, room).0.records != map[]
  {
    TakeBatchUnfolds(st, [], room, if Pop(st).1.Some? then room - 1 else room);
  }

  lemma ShallowBatchChecks(cfg: Config, st: State, batch: seq<Candidate>)
    requires Shallow(cfg, st, batch) && cfg.discoveryLimit <= MAX_CRAWL_DEPTH + 1
    ensures AllChecked(cfg, batch)
  {
    forall c | c in batch ensures Check(cfg, c).Some? {
      var i :| 0 <= i < |batch| && batch[i] == c;
      assert DepthFits(c.depth, |st.records|, cfg.discoveryLimit);
    }
  }

  // ---------------------------------------------------------------- starting a crawl

  /** A crawl whose homepage has been offered, and possibly pages named by sitemaps. */
  ghost predicate Started(cfg: Config, st: State) {
    Invariant(cfg, st, []) && Shallow(cfg, st, []) && Rooted(st, [])
  }

  lemma HomeStarts(cfg: Config, raw: Url, prefetched: Option<Response>)
    requires cfg.batchSize >= 1
    requires var r := Add(cfg, EMPTY_STATE, raw, None, Seed, 0, prefetched); r.1
    ensures Started(cfg, Add(cfg, EMPTY_STATE, raw, None, Seed, 0, prefetched).0)
  {
    var empty := EMPTY_STATE;
    EmptyInvariant(cfg);
    OfferKeeps(cfg, empty, raw, Seed, 0, prefetched);
    AddStaysShallow(cfg, empty, raw, None, Seed, 0, prefetched, []);
    hide Invariant, Shallow;
  }

  /** Sitemap pages are offered at depth 1. */
  lemma OfferKeepsStarted(cfg: Config, st: State, raw: Url, source: Source, depth: nat)
    requires Started(cfg, st) && cfg.batchSize >= 1 && depth <= 1
    ensures Started(cfg, Add(cfg, st, raw, None, source, depth, None).0)
  {
    OfferKeeps(cfg, st, raw, source, depth, None);
    AddStaysShallow(cfg, st, raw, None, source, depth, None, []);
    hide Invariant, Shallow, Rooted;
    OfferStaysRooted(cfg, st, raw, source, depth);
  }

  lemma OfferStaysRooted(cfg: Config, st: State, raw: Url, source: Source, depth: nat)
    requires Rooted(st, [])
    ensures Rooted(Add(cfg, st, raw, None, source, depth, None).0, [])
  {
    hide MergeSources, Admit;
    match Admit(cfg, raw, None, source)
    case None =>
    case Some(u) =>
      if u in st.records {
        assert u in NoteSource(st, u, source).records;
      }
  }

  /** A drain that does not raise leaves a started crawl. */
  lemma {:induction false} DrainStaysStarted(cfg: Config, st: State)
    requires Started(cfg, st) && cfg.batchSize >= 1
    ensures Drain(cfg, st).1 ==> Started(cfg, Drain(cfg, st).0)
    ensures cfg.discoveryLimit <= MAX_CRAWL_DEPTH + 1 ==> Drain(cfg, st).1
    decreases cfg.discoveryLimit + cfg.batchSize - |st.records|, |st.queue|
  {
    if st.queue != [] {
      hide Started, TakeBatch, SettleAll;
      var (taken, batch) := TakeBatch(st, cfg.batchSize);
      BatchStaysShallow(cfg, st, taken, batch);
      if AllChecked(cfg, batch) {
        TurnStaysStarted(cfg, st, taken, batch);
        DrainStaysStarted(cfg, SettleAll(cfg, taken, batch, |batch|));
      }
    }
  }

  lemma BatchStaysShallow(cfg: Config, st: State, taken: State, batch: seq<Candidate>)
    requires Started(cfg, st) && cfg.batchSize >= 1 && (taken, batch) == TakeBatch(st, cfg.batchSize)
    ensures Invariant(cfg, st, []) && Shallow(cfg, taken, batch) && Rooted(taken, batch)
    ensures cfg.discoveryLimit <= MAX_CRAWL_DEPTH + 1 ==> AllChecked(cfg, batch)
  {
    hide Invariant, Shallow, Rooted, TakeBatch;
    assert [] + batch == batch;
    TakeBatchStaysShallow(cfg, st, [], cfg.batchSize);
    if cfg.discoveryLimit <= MAX_CRAWL_DEPTH + 1 {
      ShallowBatchChecks(cfg, taken, batch);
    }
  }

  lemma TurnStaysStarted(cfg: Config, st: State, taken: State, batch: seq<Candidate>)
    requires Started(cfg, st) && cfg.batchSize >= 1 && st.queue != [] && AllChecked(cfg, batch)
    requires (taken, batch) == TakeBatch(st, cfg.batchSize)
    ensures Invariant(cfg, st, [])
    ensures var next := SettleAll(cfg, taken, batch, |batch|);
      && Started(cfg, next) && |next.records| <= cfg.discoveryLimit + cfg.batchSize - 1
      && |st.records| <= |next.records| && (|next.records| == |st.records| ==> |next.queue| < |st.queue|)
  {
    hide Invariant, Shallow, Rooted, TakeBatch, SettleAll;
    BatchStaysShallow(cfg, st, taken, batch);
    TurnKeeps(cfg, st, taken, batch);
    if batch == [] {
      EmptyBatchIsRooted(st, cfg.batchSize);
    }
    TurnRoots(cfg, taken, batch);
    SettleAllStayShallow(cfg, taken, batch, |batch|);
    assert batch[|batch|..] == [];
    RoomLeft(cfg, SettleAll(cfg, taken, batch, |batch|));
  }

  // ---------------------------------------------------------------- a chain of pages

  /** A site in which every page links to the next one. */
  function ChainConfig(limit: nat, batch: nat): Config {
    Config((u: Url) => Some(Response(u, false, Structure(None, false, [Page(|u.text| + 1)]))), (u, _) => Some(u),
          _ => true, limit, batch)
  }

  function ChainCandidate(d: nat, source: Source): Candidate {
    Candidate(Page(d), [source], d, None)
  }

  /** The first `d` pages of the chain are recorded, the next one waits. */
  ghost predicate ChainAt(st: State, d: nat) {
    && |st.records| == d && (forall u | u in st.records :: |u.text| < d)
    && exists source :: st.candidates == map[Page(d) := ChainCandidate(d, source)] && st.queue == [Page(d)]
  }

  lemma ChainBatch(cfg: Config, st: State, d: nat, source: Source)
    requires cfg.batchSize >= 1 && st.candidates == map[Page(d) := ChainCandidate(d, source)] && st.queue == [Page(d)]
    ensures TakeBatch(st, cfg.batchSize) == (st.(candidates := map[], queue := []), [ChainCandidate(d, source)])
  {
    var next := st.(candidates := map[], queue := []);
    assert st.candidates - {Page(d)} == map[];
    assert Pop(st) == (next, Some(ChainCandidate(d, source)));
    assert TakeBatch(next, cfg.batchSize - 1) == (next, []);
    assert [ChainCandidate(d, source)] + [] == [ChainCandidate(d, source)];
    hide ChainCandidate, Page;
  }

  function ChainRecord(d: nat, source: Source): Record {
    Record(Page(d), [source], d, Some(Page(d)), None, false, [Page(d + 1)])
  }

  lemma ChainChecks(cfg: Config, d: nat, source: Source)
    requires cfg == ChainConfig(cfg.discoveryLimit, cfg.batchSize)
    ensures Check(cfg, ChainCandidate(d, source)) == if d > MAX_CRAWL_DEPTH then None else Some(ChainRecord(d, source))
  {
  }

  /** Recording page `d` makes room for nothing but page `d + 1`. */
  lemma ChainSettles(cfg: Config, taken: State, d: nat, source: Source)
    requires cfg == ChainConfig(cfg.discoveryLimit, cfg.batchSize) && d + 1 < cfg.discoveryLimit
    requires taken.candidates == map[] && taken.queue == []
    requires |taken.records| == d && forall u | u in taken.records :: |u.text| < d
    ensures ChainAt(Settle(cfg, taken, ChainCandidate(d, source), ChainRecord(d, source)), d + 1)
  {
    ChainEnters(taken, d, source);
    hide Enter;
    var entered := Enter(taken, ChainCandidate(d, source), ChainRecord(d, source));
    ChainLinks(cfg, entered, d, source);
    hide AddLinks, ChainConfig;
  }

  lemma ChainEnters(taken: State, d: nat, source: Source)
    requires taken.candidates == map[] && taken.queue == []
    requires |taken.records| == d && forall u | u in taken.records :: |u.text| < d
    ensures var entered := Enter(taken, ChainCandidate(d, source), ChainRecord(d, source));
      && entered.candidates == map[] && entered.queue == [] && |entered.records| == d + 1
      && Page(d) in entered.records && entered.records[Page(d)] == ChainRecord(d, source)
      && Page(d) !in taken.records
      && forall u | u in entered.records :: |u.text| < d + 1
  {
    hide MergeSources;
    var entered := Enter(taken, ChainCandidate(d, source), ChainRecord(d, source));
    assert Page(d) !in taken.records;
    assert entered.records == taken.records[Page(d) := ChainRecord(d, source)];
    MoreKeys(taken.records, entered.records, Page(d));
  }

  lemma ChainLinks(cfg: Config, entered: State, d: nat, source: Source)
    requires cfg == ChainConfig(cfg.discoveryLimit, cfg.batchSize) && d + 1 < cfg.discoveryLimit
    requires entered.candidates == map[] && entered.queue == []
    requires |entered.records| == d + 1 && forall u | u in entered.records :: |u.text| < d + 1
    ensures ChainAt(AddLinks(cfg, entered, ChainRecord(d, source), 1), d + 1)
  {
    hide MergeSources;
    var record := ChainRecord(d, source);
    assert AddLinks(cfg, entered, record, 0) == entered;
    assert Admit(cfg, Page(d + 1), record.finalUrl, InternalLink) == Some(Page(d + 1));
    var after := AddLinks(cfg, entered, record, 1);
    assert after == Enqueue(entered, Page(d + 1), InternalLink, d + 1, None);
    assert after.candidates == map[Page(d + 1) := ChainCandidate(d + 1, InternalLink)];
  }

  lemma {:induction false} ChainRaises(cfg: Config, st: State, d: nat)
    requires cfg == ChainConfig(cfg.discoveryLimit, cfg.batchSize) && cfg.batchSize >= 1
    requires cfg.discoveryLimit >= MAX_CRAWL_DEPTH + 2 && d <= MAX_CRAWL_DEPTH + 1
    requires Invariant(cfg, st, []) && ChainAt(st, d)
    ensures !Drain(cfg, st).1
    decreases MAX_CRAWL_DEPTH + 1 - d
  {
    hide Invariant, Check, Settle, ChainConfig;
    var source :| st.candidates == map[Page(d) := ChainCandidate(d, source)] && st.queue == [Page(d)];
    ChainBatch(cfg, st, d, source);
    ChainChecks(cfg, d, source);
    var (taken, batch) := TakeBatch(st, cfg.batchSize);
    assert batch[0] == ChainCandidate(d, source) && batch[0] in batch;
    if d <= MAX_CRAWL_DEPTH {
      assert AllChecked(cfg, batch);
      TurnKeeps(cfg, st, taken, batch);
      ChainSettles(cfg, taken, d, source);
      assert SettleAll(cfg, taken, batch, 0) == taken;
      ChainRaises(cfg, SettleAll(cfg, taken, batch, 1), d + 1);
    }
  }

  // ---------------------------------------------------------------- the exact limit

  /** No started crawl with these limits ends with the exception, whatever the site. */
  ghost predicate NeverRaises(limit: nat, batch: nat)
    requires batch >= 1
  {
    forall cfg: Config, st: State | cfg.discoveryLimit == limit && cfg.batchSize == batch && Started(cfg, st) ::
      Drain(cfg, st).1
  }

  /** The schema's depth limit of 100 cannot end a crawl if and only if the discovery limit is at most 101. */
  lemma NeverRaisesIff(limit: nat, batch: nat)
    requires batch >= 1
    ensures NeverRaises(limit, batch) <==> limit <= 101
  {
    if limit <= MAX_CRAWL_DEPTH + 1 {
      forall cfg: Config, st: State | cfg.discoveryLimit == limit && cfg.batchSize == batch && Started(cfg, st)
        ensures Drain(cfg, st).1
      {
        DrainStaysStarted(cfg, st);
      }
    } else {
      var cfg := ChainConfig(limit, batch);
      var st := ChainStart(cfg);
      ChainRaises(cfg, st, 0);
    }
  }

  /** The chain's homepage, offered to an empty crawl. */
  lemma ChainStart(cfg: Config) returns (st: State)
    requires cfg == ChainConfig(cfg.discoveryLimit, cfg.batchSize) && cfg.batchSize >= 1 && cfg.discoveryLimit >= 1
    ensures Started(cfg, st) && ChainAt(st, 0)
  {
    var empty := EMPTY_STATE;
    st := Add(cfg, empty, Page(0), None, Seed, 0, None).0;
    assert Admit(cfg, Page(0), None, Seed) == Some(Page(0));
    assert st == Enqueue(empty, Page(0), Seed, 0, None);
    HomeStarts(cfg, Page(0), None);
    hide Started;
    assert st.candidates == map[Page(0) := ChainCandidate(0, Seed)];
  }
}
