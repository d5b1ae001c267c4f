/**
 How many records the crawl of app/collectors/site_inventory.py can hold: never more than
 discovery_limit + min(batch_size, discovery_limit) - 1, and exactly that many on some site, without `truncated` ever
 being set.
 */
module FrontierLimits {
  import opened Base
  import opened Frontier

  /** How many pages a batch can hold at most. */
  function Width(cfg: Config): nat {
    Min(cfg.batchSize, cfg.discoveryLimit)
  }

  // ---------------------------------------------------------------- the exact bound is never passed

  /** The sizes of the tables with `inflight` pages on their way. */
  predicate Tight(cfg: Config, st: State, inflight: nat) {
    && |st.candidates| <= cfg.discoveryLimit
    && |st.records| + |st.candidates| + inflight <= cfg.discoveryLimit + Width(cfg) - 1
  }

  lemma NoteSourceSizes(st: State, u: Url, source: Source)
    requires u in st.records
    ensures |NoteSource(st, u, source).records| == |st.records|
  {
    hide MergeSources;
    assert NoteSource(st, u, source).records.Keys == st.records.Keys + {u};
    MoreKeys(st.records, NoteSource(st, u, source).records, u);
  }

  lemma UpdateCandidateSizes(st: State, u: Url, source: Source, depth: nat, prefetched: Option<Response>)
    requires u in st.candidates
    ensures |UpdateCandidate(st, u, source, depth, prefetched).candidates| == |st.candidates|
  {
    hide MergeSources;
    assert UpdateCandidate(st, u, source, depth, prefetched).candidates.Keys == st.candidates.Keys + {u};
    MoreKeys(st.candidates, UpdateCandidate(st, u, source, depth, prefetched).candidates, u);
  }

  lemma EnqueueSizes(st: State, u: Url, source: Source, depth: nat, prefetched: Option<Response>)
    requires u !in st.candidates
    ensures |Enqueue(st, u, source, depth, prefetched).candidates| == |st.candidates| + 1
  {
    assert Enqueue(st, u, source, depth, prefetched).candidates.Keys == st.candidates.Keys + {u};
    MoreKeys(st.candidates, Enqueue(st, u, source, depth, prefetched).candidates, u);
  }

  lemma AddStaysTight(cfg: Config, st: State, raw: Url, base: Option<Url>, source: Source, depth: nat,
                      prefetched: Option<Response>, inflight: nat)
    requires Tight(cfg, st, inflight) && inflight < Width(cfg)
    ensures Tight(cfg, Add(cfg, st, raw, base, source, depth, prefetched).0, inflight)
  {
    hide MergeSources, Admit;
    match Admit(cfg, raw, base, source)
    case None =>
    case Some(u) =>
      if u in st.records {
        NoteSourceSizes(st, u, source);
      } else if u in st.candidates {
        UpdateCandidateSizes(st, u, source, depth, prefetched);
      } else {
        EnqueueSizes(st, u, source, depth, prefetched);
      }
  }

  lemma {:induction false} AddLinksStayTight(cfg: Config, st: State, record: Record, k: nat, inflight: nat)
    requires k <= |record.links| && Tight(cfg, st, inflight) && inflight < Width(cfg)
    ensures Tight(cfg, AddLinks(cfg, st, record, k), inflight)
  {
    hide Tight, Add;
    if k > 0 {
      AddLinksStayTight(cfg, st, record, k - 1, inflight);
      AddStaysTight(cfg, AddLinks(cfg, st, record, k - 1), record.links[k - 1], record.finalUrl, InternalLink,
            record.depth + 1, None,
                    inflight);
    }
  }

  lemma EnterStaysTight(cfg: Config, st: State, c: Candidate, record: Record, inflight: nat)
    requires Tight(cfg, st, inflight + 1)
    ensures Tight(cfg, Enter(st, c, record), inflight)
  {
    EnterProgress(st, c, record);
    MoreKeys(st.records, Enter(st, c, record).records, ChosenUrl(c, record));
    RemoveKey(st.candidates, ChosenUrl(c, record));
    EnterDropsAtMostAlias(st, c, record);
    hide Enter;
  }

  lemma EnterDropsAtMostAlias(st: State, c: Candidate, record: Record)
    ensures Enter(st, c, record).candidates == st.candidates || Enter(st, c, record).candidates ==
          st.candidates - {ChosenUrl(c, record)}
  {
    hide MergeSources;
  }

  lemma SettleStaysTight(cfg: Config, st: State, c: Candidate, record: Record, inflight: nat)
    requires Tight(cfg, st, inflight + 1) && inflight + 1 <= Width(cfg)
    ensures Tight(cfg, Settle(cfg, st, c, record), inflight)
  {
    EnteredLinks(st, c, record);
    hide Tight, Enter;
    EnterStaysTight(cfg, st, c, record, inflight);
    if ChosenUrl(c, record) !in st.records && Followed(record) {
      AddLinksStayTight(cfg, Enter(st, c, record), Enter(st, c, record).records[ChosenUrl(c, record)], |record.links|,
                        inflight);
    }
  }

  lemma {:induction false} SettleAllStayTight(cfg: Config, st: State, batch: seq<Candidate>, k: nat)
    requires k <= |batch| <= Width(cfg) && AllChecked(cfg, batch) && Tight(cfg, st, |batch|)
    ensures Tight(cfg, SettleAll(cfg, st, batch, k), |batch| - k)
  {
    hide Tight, Settle, Check;
    if k > 0 {
      SettleAllStayTight(cfg, st, batch, k - 1);
      SettleStaysTight(cfg, SettleAll(cfg, st, batch, k - 1), batch[k - 1], Check(cfg, batch[k - 1]).value,
                       |batch| - k);
    }
  }

  lemma PopSizes(st: State)
    requires st.queue != []
    ensures Pop(st).0.records == st.records
    ensures |st.candidates| == |Pop(st).0.candidates| + if Pop(st).1.Some? then 1 else 0
  {
    RemoveKey(st.candidates, st.queue[0]);
  }

  lemma {:induction false} TakeBatchSizes(st: State, room: nat)
    ensures var (taken, batch) := TakeBatch(st, room);
      taken.records == st.records && |st.candidates| == |taken.candidates| + |batch| && |batch| <= room
    decreases |st.queue|
  {
    if st.queue != [] && room > 0 {
      PopSizes(st);
      var c := Pop(st).1;
      var room' := if c.Some? then room - 1 else room;
      TakeBatchUnfolds(st, [], room, room');
      hide Pop;
      TakeBatchSizes(Pop(st).0, room');
    }
  }

  /** The exact bound holds for every site. */
  lemma {:induction false} DrainStaysTight(cfg: Config, st: State)
    requires Invariant(cfg, st, []) && cfg.batchSize >= 1 && Tight(cfg, st, 0)
    ensures Tight(cfg, Drain(cfg, st).0, 0) || !Drain(cfg, st).1
    decreases cfg.discoveryLimit + cfg.batchSize - |st.records|, |st.queue|
  {
    hide Invariant, TakeBatch, SettleAll;
    if st.queue != [] {
      var (taken, batch) := TakeBatch(st, cfg.batchSize);
      TakeBatchSizes(st, cfg.batchSize);
      if AllChecked(cfg, batch) {
        TurnKeeps(cfg, st, taken, batch);
        SettleAllStayTight(cfg, taken, batch, |batch|);
        RoomLeft(cfg, SettleAll(cfg, taken, batch, |batch|));
        DrainStaysTight(cfg, SettleAll(cfg, taken, batch, |batch|));
      }
    }
  }

  // ---------------------------------------------------------------- pages without links

  /** The check of the page succeeds, and the page neither links nor declares another address. */
  predicate PlainPage(cfg: Config, c: Candidate) {
    var record := Check(cfg, c);
    record.Some? && record.value.links == [] && record.value.canonical.None?
  }

  /** Nothing is recorded, waiting and in flight twice, and every page but `home` is plain. */
  ghost predicate Tidy(cfg: Config, st: State, inflight: seq<Candidate>, home: Url) {
    && (forall u | u in st.candidates :: st.candidates[u].url == u && u !in st.records &&
          (u != home ==> PlainPage(cfg, st.candidates[u])))
    && (forall i | 0 <= i < |inflight| :: InflightTidy(cfg, st, inflight[i], home))
    && (forall i, j | 0 <= i < j < |inflight| :: inflight[i].url != inflight[j].url)
  }

  predicate InflightTidy(cfg: Config, st: State, c: Candidate, home: Url) {
    c.url !in st.records && c.url !in st.candidates && (c.url != home ==> PlainPage(cfg, c))
  }

  lemma PlainSettles(cfg: Config, st: State, c: Candidate, rest: seq<Candidate>, home: Url)
    requires Tidy(cfg, st, [c] + rest, home) && PlainPage(cfg, c)
    ensures var st' := Settle(cfg, st, c, Check(cfg, c).value);
      && Tidy(cfg, st', rest, home) && st'.candidates == st.candidates && st'.truncated == st.truncated
      && st'.records.Keys == st.records.Keys + {c.url} && |st'.records| == |st.records| + 1
  {
    hide Settle, Check, Tidy;
    FirstIsApart(cfg, st, c, rest, home);
    PlainEnters(cfg, st, c);
    var st' := Settle(cfg, st, c, Check(cfg, c).value);
    MoreKeys(st.records, st'.records, c.url);
    RestStaysTidy(cfg, st, c, rest, st', home);
  }

  lemma FirstIsApart(cfg: Config, st: State, c: Candidate, rest: seq<Candidate>, home: Url)
    requires Tidy(cfg, st, [c] + rest, home)
    ensures c.url !in st.records && c.url !in st.candidates
  {
    hide PlainPage;
    assert ([c] + rest)[0] == c && InflightTidy(cfg, st, c, home);
  }

  /** Once the first page in flight has its own record, the others are as tidy as before. */
  lemma RestStaysTidy(cfg: Config, st: State, c: Candidate, rest: seq<Candidate>, st': State, home: Url)
    requires Tidy(cfg, st, [c] + rest, home)
    requires st'.candidates == st.candidates && st'.records.Keys == st.records.Keys + {c.url}
    ensures Tidy(cfg, st', rest, home)
  {
    hide PlainPage;
    var all := [c] + rest;
    assert all[0] == c && InflightTidy(cfg, st, c, home);
    forall i | 0 <= i < |rest| ensures InflightTidy(cfg, st', rest[i], home) {
      assert all[i + 1] == rest[i] && InflightTidy(cfg, st, all[i + 1], home) && all[0].url != all[i + 1].url;
    }
    forall i, j | 0 <= i < j < |rest| ensures rest[i].url != rest[j].url {
      assert all[i + 1] == rest[i] && all[j + 1] == rest[j];
    }
  }

  lemma PlainEnters(cfg: Config, st: State, c: Candidate)
    requires PlainPage(cfg, c) && c.url !in st.records && c.url !in st.candidates
    ensures var st' := Settle(cfg, st, c, Check(cfg, c).value);
      && st'.candidates == st.candidates && st'.truncated == st.truncated &&
         st'.records.Keys == st.records.Keys + {c.url}
  {
    hide MergeSources;
  }

  lemma {:induction false} SettleAllPlain(cfg: Config, st: State, batch: seq<Candidate>, from: nat, k: nat, home: Url)
    requires AllChecked(cfg, batch) && from <= k <= |batch| && home in SettleAll(cfg, st, batch, from).records
    requires Tidy(cfg, SettleAll(cfg, st, batch, from), batch[from..], home)
    ensures var before, after := SettleAll(cfg, st, batch, from), SettleAll(cfg, st, batch, k);
      && Tidy(cfg, after, batch[k..], home) && after.candidates == before.candidates &&
         after.truncated == before.truncated
      && |after.records| == |before.records| + k - from && home in after.records
  {
    hide Settle, PlainPage, Check;
    if from < k {
      SettleAllPlain(cfg, st, batch, from, k - 1, home);
      assert batch[k - 1..] == [batch[k - 1]] + batch[k..];
      NotHome(cfg, SettleAll(cfg, st, batch, k - 1), batch[k - 1], batch[k..], home);
      hide Tidy;
      PlainSettles(cfg, SettleAll(cfg, st, batch, k - 1), batch[k - 1], batch[k..], home);
    }
  }

  lemma NotHome(cfg: Config, st: State, c: Candidate, rest: seq<Candidate>, home: Url)
    requires Tidy(cfg, st, [c] + rest, home) && home in st.records
    ensures PlainPage(cfg, c)
  {
    hide PlainPage;
    assert ([c] + rest)[0] == c && InflightTidy(cfg, st, c, home);
  }

  lemma PopStaysTidy(cfg: Config, st: State, flown: seq<Candidate>, home: Url)
    requires st.queue != [] && Tidy(cfg, st, flown, home)
    ensures Tidy(cfg, Pop(st).0, Flown(flown, Pop(st).1), home) && Pop(st).0.truncated == st.truncated
  {
    hide PlainPage;
    var (next, c) := Pop(st);
    var flown' := Flown(flown, c);
    forall i | 0 <= i < |flown'| ensures InflightTidy(cfg, next, flown'[i], home) {
      if i < |flown| {
        assert InflightTidy(cfg, st, flown[i], home);
      }
    }
    forall i, j | 0 <= i < j < |flown'| ensures flown'[i].url != flown'[j].url {
      assert InflightTidy(cfg, st, flown[i], home);
    }
  }

  lemma {:induction false} TakeBatchStaysTidy(cfg: Config, st: State, flown: seq<Candidate>, room: nat, home: Url)
    requires Tidy(cfg, st, flown, home)
    ensures var (taken, batch) := TakeBatch(st, room);
      Tidy(cfg, taken, flown + batch, home) && taken.truncated == st.truncated
    decreases |st.queue|
  {
    if st.queue == [] || room == 0 {
      assert flown + [] == flown;
    } else {
      var c := Pop(st).1;
      var room' := if c.Some? then room - 1 else room;
      PopStaysTidy(cfg, st, flown, home);
      TakeBatchUnfolds(st, flown, room, room');
      hide Tidy;
      TakeBatchStaysTidy(cfg, Pop(st).0, Flown(flown, c), room', home);
    }
  }

  lemma TidyBatchChecks(cfg: Config, st: State, batch: seq<Candidate>, home: Url)
    requires Tidy(cfg, st, batch, home) && home in st.records
    ensures AllChecked(cfg, batch)
  {
    forall c | c in batch ensures Check(cfg, c).Some? {
      var i :| 0 <= i < |batch| && batch[i] == c;
      assert InflightTidy(cfg, st, batch[i], home);
    }
  }

  /** With the homepage recorded and only plain pages left, every waiting page becomes a record of its own. */
  lemma {:induction false} PlainDrain(cfg: Config, st: State, home: Url)
    requires Invariant(cfg, st, []) && cfg.batchSize >= 1 && Tidy(cfg, st, [], home) && home in st.records
    ensures var (end, ok) := Drain(cfg, st);
      ok && end.truncated == st.truncated && |end.records| == |st.records| + |st.candidates|
    decreases cfg.discoveryLimit + cfg.batchSize - |st.records|, |st.queue|
  {
    hide Invariant, TakeBatch, SettleAll, Tidy;
    if st.queue == [] {
      IdleCandidates(cfg, st);
    } else {
      var (taken, batch) := TakeBatch(st, cfg.batchSize);
      TakeBatchSizes(st, cfg.batchSize);
      TakeBatchStaysTidy(cfg, st, [], cfg.batchSize, home);
      assert [] + batch == batch && batch[0..] == batch && batch[|batch|..] == [];
      TidyBatchChecks(cfg, taken, batch, home);
      TurnKeeps(cfg, st, taken, batch);
      SettleNone(cfg, taken, batch);
      SettleAllPlain(cfg, taken, batch, 0, |batch|, home);
      RoomLeft(cfg, SettleAll(cfg, taken, batch, |batch|));
      PlainDrain(cfg, SettleAll(cfg, taken, batch, |batch|), home);
    }
  }

  lemma SettleNone(cfg: Config, st: State, batch: seq<Candidate>)
    requires AllChecked(cfg, batch)
    ensures SettleAll(cfg, st, batch, 0) == st
  {
  }

  lemma IdleCandidates(cfg: Config, st: State)
    requires Invariant(cfg, st, []) && st.queue == []
    ensures st.candidates == map[]
  {
    EmptyQueueMeansNoCandidates(st);
  }

  // ---------------------------------------------------------------- a site that reaches the bound

  /** The homepage has the shortest address. */
  const HOME: Url := Page(0)

  /** The homepage links to one new page less than a batch can hold; no other page links. */
  function HomeLinks(limit: nat, width: nat): (links: seq<Url>)
    ensures |links| == if width > 0 then width - 1 else 0
    ensures forall j | 0 <= j < |links| :: links[j] == Page(limit + j)
  {
    seq(if width > 0 then width - 1 else 0, j requires j >= 0 => Page(limit + j))
  }

  function StarPage(u: Url, limit: nat, batch: nat): Response {
    Response(u, false, Structure(None, false, if |u.text| == 0 then HomeLinks(limit, Min(batch, limit)) else []))
  }

  function StarConfig(limit: nat, batch: nat): Config {
    Config((u: Url) => Some(StarPage(u, limit, batch)), (u, _) => Some(u), _ => true, limit, batch)
  }

  /** The homepage and the first pages of the sitemap, offered one after the other. */
  function Offers(cfg: Config, k: nat): State {
    if k == 0 then EMPTY_STATE
    else if k == 1 then Add(cfg, Offers(cfg, 0), Page(0), None, Seed, 0, None).0
    else Add(cfg, Offers(cfg, k - 1), Page(k - 1), None, RobotsSitemap, 1, None).0
  }

  ghost predicate IsStar(cfg: Config) {
    cfg == StarConfig(cfg.discoveryLimit, cfg.batchSize)
  }

  ghost predicate Offered(cfg: Config, st: State, k: nat) {
    && st.records == map[] && !st.truncated && |st.candidates| == k && |st.queue| == k
    && (forall i | 0 <= i < k :: st.queue[i] == Page(i) && Page(i) in st.candidates)
    && (forall u | u in st.candidates :: |u.text| < k && st.candidates[u].url == u && st.candidates[u].depth <= 1 &&
          st.candidates[u].prefetched.None?)
    && (k > 0 ==> st.candidates[HOME] == Candidate(HOME, [Seed], 0, None))
  }

  lemma StarAdmits(cfg: Config, raw: Url, base: Option<Url>, source: Source)
    requires IsStar(cfg)
    ensures Admit(cfg, raw, base, source) == Some(raw)
  {
  }

  lemma {:induction false} OffersAre(cfg: Config, k: nat)
    requires IsStar(cfg) && k <= cfg.discoveryLimit && cfg.batchSize >= 1
    ensures Offered(cfg, Offers(cfg, k), k) && Invariant(cfg, Offers(cfg, k), [])
  {
    hide Invariant, IsStar, Offered, Add, AddGuarantee, Keeps;
    if k == 0 {
      EmptyInvariant(cfg);
      NothingOffered(cfg);
    } else {
      OffersAre(cfg, k - 1);
      var before := Offers(cfg, k - 1);
      var source, depth := if k == 1 then Seed else RobotsSitemap, if k == 1 then 0 else 1;
      StarAdmits(cfg, Page(k - 1), None, source);
      OfferKeeps(cfg, before, Page(k - 1), source, depth, None);
      OneMoreOffer(cfg, before, k - 1, source, depth);
    }
  }

  lemma NothingOffered(cfg: Config)
    ensures Offered(cfg, EMPTY_STATE, 0)
  {
  }

  lemma OneMoreOffer(cfg: Config, before: State, k: nat, source: Source, depth: nat)
    requires Offered(cfg, before, k) && k < cfg.discoveryLimit && Admit(cfg, Page(k), None, source) == Some(Page(k))
    requires depth == (if k == 0 then 0 else 1) && (k == 0 ==> source == Seed)
    ensures Offered(cfg, Add(cfg, before, Page(k), None, source, depth, None).0, k + 1)
  {
    assert Page(k) !in before.candidates;
    EnqueueSizes(before, Page(k), source, depth, None);
    hide MergeSources, Admit;
  }

  lemma StarPlain(cfg: Config, c: Candidate)
    requires IsStar(cfg) && c.depth <= MAX_CRAWL_DEPTH && c.prefetched.None?
    ensures Check(cfg, c).Some? && Check(cfg, c).value.canonical.None? && Followed(Check(cfg, c).value)
    ensures Check(cfg, c).value.links == if |c.url.text| == 0 then HomeLinks(cfg.discoveryLimit, Width(cfg)) else []
    ensures Check(cfg, c).value.depth == c.depth
  {
  }

  lemma OfferedIsTidy(cfg: Config, st: State, k: nat)
    requires IsStar(cfg) && Offered(cfg, st, k)
    ensures Tidy(cfg, st, [], HOME)
  {
    forall u | u in st.candidates ensures u != HOME ==> PlainPage(cfg, st.candidates[u]) {
      StarPlain(cfg, st.candidates[u]);
      if |u.text| == 0 {
        assert u.text == HOME.text;
      }
    }
    hide Check, StarConfig;
  }

  /** A queue of distinct candidates fills the batch. */
  ghost predicate AllWaiting(st: State) {
    Distinct(st.queue) && forall i | 0 <= i < |st.queue| :: st.queue[i] in st.candidates
  }

  lemma {:induction false} TakeBatchFills(st: State, room: nat)
    requires AllWaiting(st)
    ensures |TakeBatch(st, room).1| == Min(room, |st.queue|)
    ensures st.queue != [] && room > 0 ==> TakeBatch(st, room).1[0] == st.candidates[st.queue[0]]
    decreases |st.queue|
  {
    if st.queue != [] && room > 0 {
      var next := Pop(st).0;
      assert next.queue == st.queue[1..];
      assert AllWaiting(next) by {
        forall i | 0 <= i < |next.queue| ensures next.queue[i] in next.candidates {
          assert next.queue[i] == st.queue[i + 1] && st.queue[0] != st.queue[i + 1];
        }
      }
      TakeBatchUnfolds(st, [], room, room - 1);
      hide AllWaiting;
      TakeBatchFills(next, room - 1);
    }
  }

  lemma OfferedIsWaiting(cfg: Config, st: State, k: nat)
    requires Offered(cfg, st, k)
    ensures AllWaiting(st)
  {
    forall i, j | 0 <= i < j < |st.queue| ensures st.queue[i] != st.queue[j] {
      assert |Page(i).text| == i && |Page(j).text| == j;
    }
  }

  /** Addresses longer than `n` are new everywhere. */
  ghost predicate ShorterThan(st: State, inflight: seq<Candidate>, n: nat) {
    && (forall u | u in st.candidates :: |u.text| < n)
    && (forall u | u in st.records :: |u.text| < n)
    && (forall i | 0 <= i < |inflight| :: |inflight[i].url.text| < n)
  }

  lemma {:induction false} TakeBatchKeepsShort(cfg: Config, st: State, flown: seq<Candidate>, room: nat, home: Url,
          n: nat)
    requires Tidy(cfg, st, flown, home) && ShorterThan(st, flown, n)
    ensures ShorterThan(TakeBatch(st, room).0, flown + TakeBatch(st, room).1, n)
    decreases |st.queue|
  {
    hide InflightTidy, PlainPage;
    if st.queue == [] || room == 0 {
      assert flown + [] == flown;
    } else {
      var c := Pop(st).1;
      var room' := if c.Some? then room - 1 else room;
      assert ShorterThan(Pop(st).0, Flown(flown, c), n);
      PopStaysTidy(cfg, st, flown, home);
      TakeBatchUnfolds(st, flown, room, room');
      hide Tidy, ShorterThan;
      TakeBatchKeepsShort(cfg, Pop(st).0, Flown(flown, c), room', home, n);
    }
  }

  /** The homepage's links are all new, and there is room for each. */
  lemma {:induction false} HomeLinksJoin(cfg: Config, entered: State, record: Record, k: nat, rest: seq<Candidate>)
    requires IsStar(cfg) && record.links == HomeLinks(cfg.discoveryLimit, Width(cfg)) && record.depth == 0 &&
             k <= |record.links|
    requires Tidy(cfg, entered, rest, HOME) && ShorterThan(entered, rest, cfg.discoveryLimit)
    requires |entered.records| + |entered.candidates| + |record.links| <= cfg.discoveryLimit
    ensures var st := AddLinks(cfg, entered, record, k);
      && Tidy(cfg, st, rest, HOME) && ShorterThan(st, rest, cfg.discoveryLimit + k)
      && st.records == entered.records && st.truncated == entered.truncated &&
         |st.candidates| == |entered.candidates| + k
  {
    hide Tidy, ShorterThan, StarConfig, Admit, Enqueue, Add;
    if k > 0 {
      HomeLinksJoin(cfg, entered, record, k - 1, rest);
      var st := AddLinks(cfg, entered, record, k - 1);
      StarAdmits(cfg, record.links[k - 1], record.finalUrl, InternalLink);
      NewPageJoins(cfg, st, rest, cfg.discoveryLimit + k - 1);
      AddIsEnqueue(cfg, st, record.links[k - 1], record.finalUrl, InternalLink, 1);
      OneLink(cfg, entered, record, k);
    }
  }

  lemma AddIsEnqueue(cfg: Config, st: State, u: Url, base: Option<Url>, source: Source, depth: nat)
    requires Admit(cfg, u, base, source) == Some(u) && u !in st.records && u !in st.candidates
    requires |st.records| + |st.candidates| < cfg.discoveryLimit
    ensures Add(cfg, st, u, base, source, depth, None).0 == Enqueue(st, u, source, depth, None)
  {
  }

  lemma OneLink(cfg: Config, entered: State, record: Record, k: nat)
    requires 0 < k <= |record.links|
    ensures AddLinks(cfg, entered, record, k) ==
            Add(cfg, AddLinks(cfg, entered, record, k - 1), record.links[k - 1], record.finalUrl, InternalLink,
                  record.depth + 1, None).0
  {
    hide Add;
  }

  lemma NewPageJoins(cfg: Config, st: State, rest: seq<Candidate>, n: nat)
    requires IsStar(cfg) && n > 0 && Tidy(cfg, st, rest, HOME) && ShorterThan(st, rest, n)
    ensures Page(n) !in st.records && Page(n) !in st.candidates
    ensures var after := Enqueue(st, Page(n), InternalLink, 1, None);
      && Tidy(cfg, after, rest, HOME) && ShorterThan(after, rest, n + 1)
      && after.records == st.records && after.truncated == st.truncated && |after.candidates| == |st.candidates| + 1
  {
    var after := Enqueue(st, Page(n), InternalLink, 1, None);
    assert Page(n) !in st.records && Page(n) !in st.candidates;
    EnqueueSizes(st, Page(n), InternalLink, 1, None);
    StarPlain(cfg, after.candidates[Page(n)]);
    assert PlainPage(cfg, after.candidates[Page(n)]);
    hide PlainPage, StarConfig;
    forall i | 0 <= i < |rest| ensures InflightTidy(cfg, after, rest[i], HOME) {
      assert InflightTidy(cfg, st, rest[i], HOME);
    }
  }

  lemma HomeEnters(cfg: Config, st: State, c: Candidate, record: Record, rest: seq<Candidate>)
    requires Tidy(cfg, st, [c] + rest, HOME) && ShorterThan(st, [c] + rest, cfg.discoveryLimit)
    requires record.canonical.None? && c.url == HOME && cfg.discoveryLimit > 0
    ensures var st' := Enter(st, c, record);
      && Tidy(cfg, st', rest, HOME) && ShorterThan(st', rest, cfg.discoveryLimit)
      && HOME in st'.records && st'.records[HOME].links == record.links && st'.records[HOME].depth == c.depth
      && st'.records[HOME].finalUrl == record.finalUrl
      && HOME !in st.records && st'.candidates == st.candidates && st'.truncated == st.truncated && |st'.records| ==
            |st.records| + 1
  {
    hide Tidy, Enter;
    FirstIsApart(cfg, st, c, rest, HOME);
    NewRecord(st, c, record);
    var st' := Enter(st, c, record);
    MoreKeys(st.records, st'.records, HOME);
    RestStaysTidy(cfg, st, c, rest, st', HOME);
    forall i | 0 <= i < |rest| ensures |rest[i].url.text| < cfg.discoveryLimit {
      assert ([c] + rest)[i + 1] == rest[i];
    }
  }

  lemma NewRecord(st: State, c: Candidate, record: Record)
    requires c.url !in st.records && c.url !in st.candidates && record.canonical.None?
    ensures var st' := Enter(st, c, record);
      && st'.candidates == st.candidates && st'.truncated == st.truncated
      && st'.records.Keys == st.records.Keys + {c.url}
      && st'.records[c.url].links == record.links && st'.records[c.url].depth == c.depth &&
            st'.records[c.url].finalUrl == record.finalUrl
  {
    hide MergeSources;
  }

  /** Settling the homepage of the star fills the tables to the bound. */
  lemma HomeSettles(cfg: Config, st: State, c: Candidate, rest: seq<Candidate>)
    requires IsStar(cfg) && cfg.discoveryLimit > 0 && Tidy(cfg, st, [c] + rest, HOME) &&
          ShorterThan(st, [c] + rest, cfg.discoveryLimit)
    requires c == Candidate(HOME, [Seed], 0, None) && st.records == map[]
    requires |st.candidates| + Width(cfg) <= cfg.discoveryLimit && Width(cfg) > 0
    ensures Check(cfg, c).Some?
    ensures var st' := Settle(cfg, st, c, Check(cfg, c).value);
      && Tidy(cfg, st', rest, HOME) && HOME in st'.records && |st'.records| == 1
      && |st'.candidates| == |st.candidates| + Width(cfg) - 1 && st'.truncated == st.truncated
  {
    StarPlain(cfg, c);
    var record := Check(cfg, c).value;
    HomeEnters(cfg, st, c, record, rest);
    var entered := Enter(st, c, record);
    assert ChosenUrl(c, record) == HOME;
    hide Enter, Check, Tidy, ShorterThan, StarConfig;
    HomeLinksJoin(cfg, entered, entered.records[HOME], |record.links|, rest);
  }

  /** The star site's crawl ends with exactly the bound's number of records, and reports no truncation. */
  lemma StarReachesBound(cfg: Config)
    requires IsStar(cfg) && cfg.batchSize >= 1 && cfg.discoveryLimit >= 1
    ensures Invariant(cfg, Offers(cfg, cfg.discoveryLimit), [])
    ensures var (end, ok) := Drain(cfg, Offers(cfg, cfg.discoveryLimit));
      ok && !end.truncated && |end.records| == cfg.discoveryLimit + Width(cfg) - 1
  {
    hide Invariant, Offers, IsStar, TakeBatch, SettleAll, Tidy, ShorterThan;
    var st := Offers(cfg, cfg.discoveryLimit);
    OffersAre(cfg, cfg.discoveryLimit);
    var (taken, batch) := TakeBatch(st, cfg.batchSize);
    FirstBatch(cfg, st, taken, batch);
    var c, rest := batch[0], batch[1..];
    HomeSettles(cfg, taken, c, rest);
    SettleNone(cfg, taken, batch);
    SettleOne(cfg, taken, batch);
    SettleAllPlain(cfg, taken, batch, 1, |batch|, HOME);
    TurnKeeps(cfg, st, taken, batch);
    assert batch[|batch|..] == [];
    PlainDrain(cfg, SettleAll(cfg, taken, batch, |batch|), HOME);
  }

  lemma SettleOne(cfg: Config, st: State, batch: seq<Candidate>)
    requires batch != [] && AllChecked(cfg, batch)
    ensures Check(cfg, batch[0]).Some? &&
            SettleAll(cfg, st, batch, 1) == Settle(cfg, st, batch[0], Check(cfg, batch[0]).value)
  {
    hide Settle;
    assert SettleAll(cfg, st, batch, 0) == st;
  }

  lemma FirstBatch(cfg: Config, st: State, taken: State, batch: seq<Candidate>)
    requires IsStar(cfg) && cfg.batchSize >= 1 && cfg.discoveryLimit >= 1 && Offered(cfg, st, cfg.discoveryLimit)
    requires (taken, batch) == TakeBatch(st, cfg.batchSize)
    ensures |batch| == Width(cfg) && batch[0] == Candidate(HOME, [Seed], 0, None) && batch == [batch[0]] + batch[1..]
    ensures Tidy(cfg, taken, batch, HOME) && ShorterThan(taken, batch, cfg.discoveryLimit) && AllChecked(cfg, batch)
    ensures taken.records == map[] && !taken.truncated && |taken.candidates| + |batch| == cfg.discoveryLimit
  {
    hide TakeBatch, StarConfig, Tidy, AllWaiting;
    OfferedIsTidy(cfg, st, cfg.discoveryLimit);
    OfferedIsWaiting(cfg, st, cfg.discoveryLimit);
    TakeBatchFills(st, cfg.batchSize);
    TakeBatchSizes(st, cfg.batchSize);
    TakeBatchStaysTidy(cfg, st, [], cfg.batchSize, HOME);
    assert ShorterThan(st, [], cfg.discoveryLimit);
    TakeBatchKeepsShort(cfg, st, [], cfg.batchSize, HOME, cfg.discoveryLimit);
    assert [] + batch == batch;
    StarPlain(cfg, batch[0]);
    hide Offered, ShorterThan;
    CheckedBatch(cfg, taken, batch, HOME);
  }

  lemma CheckedBatch(cfg: Config, st: State, batch: seq<Candidate>, home: Url)
    requires Tidy(cfg, st, batch, home) && batch != [] && batch[0].url == home && Check(cfg, batch[0]).Some?
    ensures AllChecked(cfg, batch)
  {
    forall c | c in batch ensures Check(cfg, c).Some? {
      var i :| 0 <= i < |batch| && batch[i] == c;
      assert InflightTidy(cfg, st, batch[i], home);
      if i > 0 {
        assert batch[0].url != batch[i].url;
      }
    }
  }

  // ---------------------------------------------------------------- exactly when the limit is kept

  /** No crawl with these limits ends with more records than the discovery limit and without saying so. */
  ghost predicate LimitIsHonest(limit: nat, batch: nat)
    requires batch >= 1
  {
    forall cfg: Config, st: State |
      cfg.discoveryLimit == limit && cfg.batchSize == batch && Invariant(cfg, st, []) && Tight(cfg, st, 0) &&
          Drain(cfg, st).1 ::
      Drain(cfg, st).0.truncated || |Drain(cfg, st).0.records| <= limit
  }

  /** The discovery limit is kept, or the overrun reported, if and only if a batch cannot hold two pages. */
  lemma LimitIsHonestIff(limit: nat, batch: nat)
    requires batch >= 1 && limit >= 1
    ensures LimitIsHonest(limit, batch) <==> Min(batch, limit) == 1
  {
    hide Invariant, Drain;
    if Min(batch, limit) == 1 {
      forall cfg: Config, st: State |
        cfg.discoveryLimit == limit && cfg.batchSize == batch && Invariant(cfg, st, []) && Tight(cfg, st, 0) &&
            Drain(cfg, st).1
        ensures |Drain(cfg, st).0.records| <= limit
      {
        DrainStaysTight(cfg, st);
      }
    } else {
      var cfg := StarConfig(limit, batch);
      StarReachesBound(cfg);
      OffersAre(cfg, limit);
    }
  }
}
