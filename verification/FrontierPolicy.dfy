/**
 Which addresses the crawl of app/collectors/site_inventory.py fetches at all, and that its homepage is always
 recorded under its own address.
 */
module FrontierPolicy {
  import opened Base
  import opened Frontier

  // ---------------------------------------------------------------- robots

  /** The robots policy allows the address, or it is one of the given homepages. */
  predicate Permitted(cfg: Config, homes: set<Url>, u: Url) {
    cfg.allowed(u) || u in homes
  }

  /** Everything waiting, in flight or already fetched is permitted. */
  ghost predicate Polite(cfg: Config, st: State, inflight: seq<Candidate>, homes: set<Url>) {
    && (forall u | u in st.candidates :: Permitted(cfg, homes, u) && st.candidates[u].url == u)
    && (forall i | 0 <= i < |inflight| :: Permitted(cfg, homes, inflight[i].url))
    && (forall u, k | (u, k) in st.resolved :: Permitted(cfg, homes, u))
  }

  /** The candidates of `after` are those of `before`, and possibly `u` under its own name; nothing else was fetched. */
  ghost predicate OnlyAdds(before: State, after: State, u: Option<Url>) {
    && after.resolved == before.resolved
    && forall v | v in after.candidates ::
         (v in before.candidates && after.candidates[v].url == before.candidates[v].url) ||
         (u == Some(v) && after.candidates[v].url == v)
  }

  lemma UpdateOnlyAdds(st: State, u: Url, source: Source, depth: nat, prefetched: Option<Response>)
    requires u in st.candidates
    ensures OnlyAdds(st, UpdateCandidate(st, u, source, depth, prefetched), Some(u))
  {
    hide MergeSources;
  }

  lemma EnqueueOnlyAdds(st: State, u: Url, source: Source, depth: nat, prefetched: Option<Response>)
    ensures OnlyAdds(st, Enqueue(st, u, source, depth, prefetched), Some(u))
  {
  }

  /** An offer adds at most the admitted address to the candidates, under its own name. */
  lemma AddKeepsUrls(cfg: Config, st: State, raw: Url, base: Option<Url>, source: Source, depth: nat,
        prefetched: Option<Response>)
    ensures OnlyAdds(st, Add(cfg, st, raw, base, source, depth, prefetched).0, Admit(cfg, raw, base, source))
  {
    hide Admit, UpdateCandidate, Enqueue, MergeSources;
    match Admit(cfg, raw, base, source)
    case None =>
    case Some(u) =>
      if u in st.candidates {
        UpdateOnlyAdds(st, u, source, depth, prefetched);
      }
      EnqueueOnlyAdds(st, u, source, depth, prefetched);
  }

  lemma AdmittedIsPermitted(cfg: Config, raw: Url, base: Option<Url>, source: Source, homes: set<Url>)
    requires source == Seed && Admit(cfg, raw, base, source).Some? ==> Admit(cfg, raw, base, source).value in homes
    ensures Admit(cfg, raw, base, source).Some? ==> Permitted(cfg, homes, Admit(cfg, raw, base, source).value)
  {
  }

  lemma AddStaysPolite(cfg: Config, st: State, raw: Url, base: Option<Url>, source: Source, depth: nat,
                       prefetched: Option<Response>, inflight: seq<Candidate>, homes: set<Url>)
    requires Polite(cfg, st, inflight, homes)
    requires source == Seed && Admit(cfg, raw, base, source).Some? ==> Admit(cfg, raw, base, source).value in homes
    ensures Polite(cfg, Add(cfg, st, raw, base, source, depth, prefetched).0, inflight, homes)
  {
    hide Add, Admit, Permitted;
    AddKeepsUrls(cfg, st, raw, base, source, depth, prefetched);
    AdmittedIsPermitted(cfg, raw, base, source, homes);
  }

  lemma {:induction false} AddLinksStayPolite(cfg: Config, st: State, record: Record, k: nat, inflight: seq<Candidate>,
        homes: set<Url>)
    requires k <= |record.links| && Polite(cfg, st, inflight, homes)
    ensures Polite(cfg, AddLinks(cfg, st, record, k), inflight, homes)
  {
    hide Polite, Add;
    if k > 0 {
      AddLinksStayPolite(cfg, st, record, k - 1, inflight, homes);
      AddStaysPolite(cfg, AddLinks(cfg, st, record, k - 1), record.links[k - 1], record.finalUrl, InternalLink,
            record.depth + 1, None,
                     inflight, homes);
    }
  }

  lemma EnterStaysPolite(cfg: Config, st: State, c: Candidate, record: Record, rest: seq<Candidate>, homes: set<Url>)
    requires Polite(cfg, st, [c] + rest, homes)
    ensures Polite(cfg, Enter(st, c, record), rest, homes)
  {
    hide MergeSources;
    assert ([c] + rest)[0] == c;
    forall i | 0 <= i < |rest| ensures Permitted(cfg, homes, rest[i].url) {
      assert ([c] + rest)[i + 1] == rest[i];
    }
  }

  lemma SettleStaysPolite(cfg: Config, st: State, c: Candidate, record: Record, rest: seq<Candidate>, homes: set<Url>)
    requires Polite(cfg, st, [c] + rest, homes)
    ensures Polite(cfg, Settle(cfg, st, c, record), rest, homes)
  {
    EnteredLinks(st, c, record);
    hide Polite, Enter;
    EnterStaysPolite(cfg, st, c, record, rest, homes);
    if ChosenUrl(c, record) !in st.records && Followed(record) {
      AddLinksStayPolite(cfg, Enter(st, c, record), Enter(st, c, record).records[ChosenUrl(c, record)], |record.links|,
            rest, homes);
    }
  }

  lemma {:induction false} SettleAllStayPolite(cfg: Config, st: State, batch: seq<Candidate>, k: nat, homes: set<Url>)
    requires k <= |batch| && AllChecked(cfg, batch) && Polite(cfg, st, batch, homes)
    ensures Polite(cfg, SettleAll(cfg, st, batch, k), batch[k..], homes)
  {
    hide Polite, Settle, Check;
    if k > 0 {
      SettleAllStayPolite(cfg, st, batch, k - 1, homes);
      assert batch[k - 1..] == [batch[k - 1]] + batch[k..];
      SettleStaysPolite(cfg, SettleAll(cfg, st, batch, k - 1), batch[k - 1], Check(cfg, batch[k - 1]).value, batch[k..],
                        homes);
    } else {
      assert batch[0..] == batch;
    }
  }

  lemma {:induction false} TakeBatchStaysPolite(cfg: Config, st: State, flown: seq<Candidate>, room: nat,
          homes: set<Url>)
    requires Polite(cfg, st, flown, homes)
    ensures Polite(cfg, TakeBatch(st, room).0, flown + TakeBatch(st, room).1, homes)
    decreases |st.queue|
  {
    if st.queue == [] || room == 0 {
      assert flown + [] == flown;
    } else {
      var (next, c) := Pop(st);
      var room' := if c.Some? then room - 1 else room;
      assert Polite(cfg, next, Flown(flown, c), homes);
      TakeBatchUnfolds(st, flown, room, room');
      hide Polite;
      TakeBatchStaysPolite(cfg, next, Flown(flown, c), room', homes);
    }
  }

  // ---------------------------------------------------------------- the homepage

  ghost predicate SeedFlying(inflight: seq<Candidate>, u: Url) {
    exists i :: 0 <= i < |inflight| && inflight[i].url == u && Seed in inflight[i].sources
  }

  /** The homepage has a record under its own address, or still waits to get one. */
  ghost predicate HomeHeld(st: State, inflight: seq<Candidate>, u: Url) {
    u in st.records || (u in st.candidates && Seed in st.candidates[u].sources) || SeedFlying(inflight, u)
  }

  lemma SeedStays(sources: seq<Source>, extra: seq<Source>)
    ensures Seed in sources ==> Seed in MergeSources(sources, extra)
  {
    assert Seed in sources ==> Seed in Elements(sources);
    hide MergeSources;
  }

  lemma AddHoldsHome(cfg: Config, st: State, raw: Url, base: Option<Url>, source: Source, depth: nat,
                     prefetched: Option<Response>, inflight: seq<Candidate>, u: Url)
    requires HomeHeld(st, inflight, u)
    ensures HomeHeld(Add(cfg, st, raw, base, source, depth, prefetched).0, inflight, u)
  {
    hide SeedFlying, MergeSources, Admit;
    if u in st.candidates {
      SeedStays(st.candidates[u].sources, [source]);
    }
  }

  lemma {:induction false} AddLinksHoldHome(cfg: Config, st: State, record: Record, k: nat, inflight: seq<Candidate>,
          u: Url)
    requires k <= |record.links| && HomeHeld(st, inflight, u)
    ensures HomeHeld(AddLinks(cfg, st, record, k), inflight, u)
  {
    hide HomeHeld, Add;
    if k > 0 {
      AddLinksHoldHome(cfg, st, record, k - 1, inflight, u);
      AddHoldsHome(cfg, AddLinks(cfg, st, record, k - 1), record.links[k - 1], record.finalUrl, InternalLink,
            record.depth + 1, None,
                   inflight, u);
    }
  }

  lemma EnterHoldsHome(st: State, c: Candidate, record: Record, rest: seq<Candidate>, u: Url)
    requires HomeHeld(st, [c] + rest, u)
    ensures HomeHeld(Enter(st, c, record), rest, u)
  {
    hide MergeSources;
    if SeedFlying([c] + rest, u) {
      var i :| 0 <= i < |[c] + rest| && ([c] + rest)[i].url == u && Seed in ([c] + rest)[i].sources;
      if i > 0 {
        assert rest[i - 1] == ([c] + rest)[i];
      }
    }
  }

  lemma SettleHoldsHome(cfg: Config, st: State, c: Candidate, record: Record, rest: seq<Candidate>, u: Url)
    requires HomeHeld(st, [c] + rest, u)
    ensures HomeHeld(Settle(cfg, st, c, record), rest, u)
  {
    EnteredLinks(st, c, record);
    hide HomeHeld, Enter;
    EnterHoldsHome(st, c, record, rest, u);
    if ChosenUrl(c, record) !in st.records && Followed(record) {
      AddLinksHoldHome(cfg, Enter(st, c, record), Enter(st, c, record).records[ChosenUrl(c, record)], |record.links|,
                       rest, u);
    }
  }

  lemma {:induction false} SettleAllHoldHome(cfg: Config, st: State, batch: seq<Candidate>, k: nat, u: Url)
    requires k <= |batch| && AllChecked(cfg, batch) && HomeHeld(st, batch, u)
    ensures HomeHeld(SettleAll(cfg, st, batch, k), batch[k..], u)
  {
    hide HomeHeld, Settle, Check;
    if k > 0 {
      SettleAllHoldHome(cfg, st, batch, k - 1, u);
      assert batch[k - 1..] == [batch[k - 1]] + batch[k..];
      SettleHoldsHome(cfg, SettleAll(cfg, st, batch, k - 1), batch[k - 1], Check(cfg, batch[k - 1]).value, batch[k..],
                      u);
    } else {
      assert batch[0..] == batch;
    }
  }

  lemma PopHoldsHome(st: State, flown: seq<Candidate>, u: Url)
    requires st.queue != [] && HomeHeld(st, flown, u)
    requires forall v | v in st.candidates :: st.candidates[v].url == v
    ensures HomeHeld(Pop(st).0, Flown(flown, Pop(st).1), u)
  {
    var c := Pop(st).1;
    if c.Some? {
      assert (flown + [c.value])[|flown|] == c.value;
      if SeedFlying(flown, u) {
        var i :| 0 <= i < |flown| && flown[i].url == u && Seed in flown[i].sources;
        assert (flown + [c.value])[i] == flown[i];
      }
    }
  }

  lemma {:induction false} TakeBatchHoldsHome(cfg: Config, st: State, flown: seq<Candidate>, room: nat, homes: set<Url>,
          u: Url)
    requires HomeHeld(st, flown, u) && Polite(cfg, st, flown, homes)
    ensures HomeHeld(TakeBatch(st, room).0, flown + TakeBatch(st, room).1, u)
    decreases |st.queue|
  {
    if st.queue == [] || room == 0 {
      assert flown + [] == flown;
    } else {
      var (next, c) := Pop(st);
      var room' := if c.Some? then room - 1 else room;
      assert Polite(cfg, next, Flown(flown, c), homes);
      PopHoldsHome(st, flown, u);
      TakeBatchUnfolds(st, flown, room, room');
      hide Polite, HomeHeld;
      TakeBatchHoldsHome(cfg, next, Flown(flown, c), room', homes, u);
    }
  }

  // ---------------------------------------------------------------- whole drains

  /**
   A drain fetches only addresses that robots allow or that are homepages, and a homepage offered before it is
   recorded under its own address, whatever canonical addresses the pages declare.
   */
  lemma {:induction false} DrainIsPolite(cfg: Config, st: State, homes: set<Url>, home: Url)
    requires Invariant(cfg, st, []) && cfg.batchSize >= 1 && Polite(cfg, st, [], homes) && HomeHeld(st, [], home)
    ensures var (st', ok) := Drain(cfg, st);
      ok ==> Polite(cfg, st', [], homes) && home in st'.records
    decreases cfg.discoveryLimit + cfg.batchSize - |st.records|, |st.queue|
  {
    hide Invariant, TakeBatch, SettleAll, Polite, HomeHeld;
    if st.queue == [] {
      IdleHome(cfg, st, home);
    } else {
      var (taken, batch) := TakeBatch(st, cfg.batchSize);
      if AllChecked(cfg, batch) {
        TurnKeeps(cfg, st, taken, batch);
        TakeBatchStaysPolite(cfg, st, [], cfg.batchSize, homes);
        TakeBatchHoldsHome(cfg, st, [], cfg.batchSize, homes, home);
        assert [] + batch == batch;
        var next := SettleAll(cfg, taken, batch, |batch|);
        SettleAllStayPolite(cfg, taken, batch, |batch|, homes);
        SettleAllHoldHome(cfg, taken, batch, |batch|, home);
        assert batch[|batch|..] == [];
        RoomLeft(cfg, next);
        DrainIsPolite(cfg, next, homes, home);
      }
    }
  }

  lemma IdleHome(cfg: Config, st: State, home: Url)
    requires Invariant(cfg, st, []) && st.queue == [] && HomeHeld(st, [], home)
    ensures home in st.records
  {
    EmptyQueueMeansNoCandidates(st);
  }

  /** The homepage's own offer starts it all: it is held, and fetching it is permitted. */
  lemma HomeOffered(cfg: Config, st: State, raw: Url, prefetched: Option<Response>, homes: set<Url>)
    requires Polite(cfg, st, [], homes)
    requires Add(cfg, st, raw, None, Seed, 0, prefetched).1 && Admit(cfg, raw, None, Seed).value in homes
    ensures Polite(cfg, Add(cfg, st, raw, None, Seed, 0, prefetched).0, [], homes)
    ensures HomeHeld(Add(cfg, st, raw, None, Seed, 0, prefetched).0, [], Admit(cfg, raw, None, Seed).value)
  {
    AddStaysPolite(cfg, st, raw, None, Seed, 0, prefetched, [], homes);
    var u := Admit(cfg, raw, None, Seed).value;
    if u in st.candidates {
      assert Seed in Elements([Seed]) && Seed in [Seed];
      assert Seed in Elements(MergeSources(st.candidates[u].sources, [Seed]));
    }
    hide MergeSources, Polite;
  }
}
