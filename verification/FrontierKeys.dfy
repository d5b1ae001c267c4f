/**
 Under which address the crawl of app/collectors/site_inventory.py records a page, and what the record shows: both are
 read off the response for the page's own address.
 */
module FrontierKeys {
  import opened Base
  import opened Frontier

  /** The site's homepage; its response was fetched before the crawl. */
  datatype Home = Home(url: Url, page: Response)

  /** The response a check of `u` sees. */
  function SeenAt(cfg: Config, home: Home, u: Url): Option<Response> {
    if u == home.url then Some(home.page) else cfg.fetch(u)
  }

  /** The homepage keeps its address; any other page goes by the canonical address that its whole response declares. */
  function KeyOf(cfg: Config, home: Home, u: Url): Url {
    if u == home.url then u
    else
      match cfg.fetch(u)
      case None => u
      case Some(r) => if !r.truncated && r.structure.canonical.Some? then r.structure.canonical.value else u
  }

  ghost predicate KeysRight(cfg: Config, st: State, home: Home) {
    forall u, k | (u, k) in st.resolved :: k == KeyOf(cfg, home, u)
  }

  /** The record shows the response; of a cut-off body it shows the links only. */
  predicate Shows(record: Record, seen: Option<Response>) {
    match seen
    case None => record.finalUrl == None && record.canonical == None && record.links == []
    case Some(r) =>
      && record.finalUrl == Some(r.finalUrl) && record.links == r.structure.links
      && record.canonical == (if r.truncated then None else r.structure.canonical)
      && (record.nofollow <==> r.structure.nofollow && !r.truncated)
  }

  /** The page that a record shows was checked and recorded there. */
  ghost predicate ShownUnder(cfg: Config, st: State, home: Home, k: Url) {
    k in st.records && exists u :: (u, k) in st.resolved && Shows(st.records[k], SeenAt(cfg, home, u))
  }

  ghost predicate ContentsRight(cfg: Config, st: State, home: Home) {
    forall k | k in st.records :: ShownUnder(cfg, st, home, k)
  }

  /** Only the homepage is a seed, and only its response is known beforehand. */
  predicate Own(c: Candidate, home: Home) {
    if c.url == home.url then Seed in c.sources && c.prefetched == Some(home.page)
    else Seed !in c.sources && c.prefetched == None
  }

  /** The homepage is recorded before anything else, and never waits again. */
  ghost predicate HomeAhead(st: State, inflight: seq<Candidate>, home: Url) {
    && (home in st.records ==> home !in st.candidates)
    && (home !in st.records ==>
          if inflight != [] then inflight[0].url == home && home !in st.candidates
          else st.queue != [] && st.queue[0] == home && home in st.candidates)
    && (forall i | 0 <= i < |inflight| :: inflight[i].url == home ==> i == 0 && home !in st.records)
  }

  ghost predicate AllOwn(st: State, inflight: seq<Candidate>, home: Home) {
    && (forall u | u in st.candidates :: st.candidates[u].url == u && Own(st.candidates[u], home))
    && (forall i | 0 <= i < |inflight| :: Own(inflight[i], home))
  }

  ghost predicate Keyed(cfg: Config, st: State, inflight: seq<Candidate>, home: Home) {
    && KeysRight(cfg, st, home) && ContentsRight(cfg, st, home)
    && AllOwn(st, inflight, home) && HomeAhead(st, inflight, home.url)
  }

  // ---------------------------------------------------------------- offers

  lemma NoteSourceStaysKeyed(cfg: Config, st: State, u: Url, source: Source, inflight: seq<Candidate>, home: Home)
    requires Keyed(cfg, st, inflight, home) && u in st.records
    ensures Keyed(cfg, NoteSource(st, u, source), inflight, home)
  {
    hide MergeSources, Own, KeyOf, SeenAt;
    var st' := NoteSource(st, u, source);
    forall k | k in st'.records ensures ShownUnder(cfg, st', home, k) {
      assert ShownUnder(cfg, st, home, k);
    }
  }

  lemma UpdateStaysKeyed(cfg: Config, st: State, u: Url, source: Source, depth: nat, inflight: seq<Candidate>,
          home: Home)
    requires Keyed(cfg, st, inflight, home) && u in st.candidates && source != Seed
    ensures Keyed(cfg, UpdateCandidate(st, u, source, depth, None), inflight, home)
  {
    var c := st.candidates[u];
    assert Own(c, home);
    var st' := UpdateCandidate(st, u, source, depth, None);
    assert Own(st'.candidates[u], home) by {
      MembersOfMerge(c.sources, [source]);
      hide MergeSources;
    }
    hide MergeSources, KeyOf, SeenAt, ShownUnder, Own;
    forall k | k in st'.records ensures ShownUnder(cfg, st', home, k) {
      assert ShownUnder(cfg, st, home, k);
      SameRecordsShow(cfg, st, st', home, k);
    }
  }

  lemma MembersOfMerge(sources: seq<Source>, extra: seq<Source>)
    ensures forall s :: s in MergeSources(sources, extra) <==> s in sources || s in extra
  {
    var merged := MergeSources(sources, extra);
    hide MergeSources;
    forall s ensures s in merged <==> s in sources || s in extra {
      assert s in Elements(merged) <==> s in Elements(sources) || s in Elements(extra);
    }
  }

  lemma SameRecordsShow(cfg: Config, st: State, st': State, home: Home, k: Url)
    requires ShownUnder(cfg, st, home, k) && st'.records == st.records && st.resolved <= st'.resolved
    ensures ShownUnder(cfg, st', home, k)
  {
    hide Shows, SeenAt;
  }

  lemma EnqueueStaysKeyed(cfg: Config, st: State, u: Url, source: Source, depth: nat, inflight: seq<Candidate>,
          home: Home)
    requires Keyed(cfg, st, inflight, home) && u !in st.records && u !in st.candidates && source != Seed
    requires home.url in st.records || home.url in st.candidates
    ensures Keyed(cfg, Enqueue(st, u, source, depth, None), inflight, home)
  {
    hide KeyOf, SeenAt, ShownUnder;
    var st' := Enqueue(st, u, source, depth, None);
    forall k | k in st'.records ensures ShownUnder(cfg, st', home, k) {
      assert ShownUnder(cfg, st, home, k);
      SameRecordsShow(cfg, st, st', home, k);
    }
  }

  lemma TruncatedStaysKeyed(cfg: Config, st: State, inflight: seq<Candidate>, home: Home)
    requires Keyed(cfg, st, inflight, home)
    ensures Keyed(cfg, st.(truncated := true), inflight, home)
  {
    hide KeyOf, SeenAt, ShownUnder, Own;
    var st' := st.(truncated := true);
    forall k | k in st'.records ensures ShownUnder(cfg, st', home, k) {
      assert ShownUnder(cfg, st, home, k);
      SameRecordsShow(cfg, st, st', home, k);
    }
  }

  /** Sitemaps, links and the site map service leave the homepage and all keys alone. */
  lemma AddStaysKeyed(cfg: Config, st: State, raw: Url, base: Option<Url>, source: Source, depth: nat,
                      inflight: seq<Candidate>, home: Home)
    requires Keyed(cfg, st, inflight, home) && source != Seed && (home.url in st.records || home.url in st.candidates)
    ensures var st' := Add(cfg, st, raw, base, source, depth, None).0;
      && Keyed(cfg, st', inflight, home) && (home.url in st'.records || home.url in st'.candidates)
      && (home.url in st.records ==> home.url in st'.records)
  {
    hide Keyed, MergeSources, Admit;
    match Admit(cfg, raw, base, source)
    case None =>
    case Some(u) =>
      if u in st.records {
        NoteSourceStaysKeyed(cfg, st, u, source, inflight, home);
      } else if u in st.candidates {
        UpdateStaysKeyed(cfg, st, u, source, depth, inflight, home);
      } else if |st.records| + |st.candidates| < cfg.discoveryLimit {
        EnqueueStaysKeyed(cfg, st, u, source, depth, inflight, home);
      } else {
        TruncatedStaysKeyed(cfg, st, inflight, home);
      }
  }

  lemma {:induction false} AddLinksStayKeyed(cfg: Config, st: State, record: Record, k: nat, inflight: seq<Candidate>,
        home: Home)
    requires Keyed(cfg, st, inflight, home) && home.url in st.records && k <= |record.links|
    ensures Keyed(cfg, AddLinks(cfg, st, record, k), inflight, home)
    ensures home.url in AddLinks(cfg, st, record, k).records
  {
    hide Keyed, Add;
    if k > 0 {
      AddLinksStayKeyed(cfg, st, record, k - 1, inflight, home);
      AddStaysKeyed(cfg, AddLinks(cfg, st, record, k - 1), record.links[k - 1], record.finalUrl, InternalLink,
                    record.depth + 1, inflight, home);
    }
  }

  /** The homepage, offered to an empty crawl. */
  lemma HomeIsKeyed(cfg: Config, raw: Url, page: Response)
    requires cfg.discoveryLimit >= 1 && Admit(cfg, raw, None, Seed).Some?
    ensures var st := Add(cfg, EMPTY_STATE, raw, None, Seed, 0, Some(page)).0;
      Keyed(cfg, st, [], Home(Admit(cfg, raw, None, Seed).value, page))
  {
    hide Admit;
  }

  // ---------------------------------------------------------------- one checked page

  /** What the check of a candidate shows, and the key it is given. */
  lemma CheckShows(cfg: Config, c: Candidate, home: Home)
    requires Own(c, home) && Check(cfg, c).Some?
    ensures Shows(Check(cfg, c).value, SeenAt(cfg, home, c.url))
    ensures ChosenUrl(c, Check(cfg, c).value) == KeyOf(cfg, home, c.url)
  {
  }

  lemma EnterStaysKeyed(cfg: Config, st: State, c: Candidate, rest: seq<Candidate>, home: Home)
    requires Keyed(cfg, st, [c] + rest, home) && Check(cfg, c).Some?
    ensures var st' := Enter(st, c, Check(cfg, c).value);
      Keyed(cfg, st', rest, home) && home.url in st'.records
  {
    var record := Check(cfg, c).value;
    assert ([c] + rest)[0] == c;
    CheckShows(cfg, c, home);
    assert c.url == home.url ==> ChosenUrl(c, record) == home.url;
    hide Check, SeenAt, Own, Enter, KeyOf, ChosenUrl, KeysRight, ContentsRight, AllOwn, HomeAhead;
    EnterKeys(cfg, st, c, record, home);
    EnterContents(cfg, st, c, record, home);
    EnterOwn(st, c, record, rest, home);
    EnterHome(st, c, record, rest, home.url);
  }

  lemma EnterKeys(cfg: Config, st: State, c: Candidate, record: Record, home: Home)
    requires KeysRight(cfg, st, home) && ChosenUrl(c, record) == KeyOf(cfg, home, c.url)
    ensures KeysRight(cfg, Enter(st, c, record), home)
  {
    hide KeyOf, Enter, ChosenUrl;
    EnteredShow(st, c, record);
  }

  lemma EnterOwn(st: State, c: Candidate, record: Record, rest: seq<Candidate>, home: Home)
    requires AllOwn(st, [c] + rest, home)
    ensures AllOwn(Enter(st, c, record), rest, home)
  {
    hide Own, Enter, ChosenUrl;
    EnteredShow(st, c, record);
    forall i | 0 <= i < |rest| ensures Own(rest[i], home) {
      assert rest[i] == ([c] + rest)[i + 1];
    }
  }

  lemma EnterHome(st: State, c: Candidate, record: Record, rest: seq<Candidate>, home: Url)
    requires HomeAhead(st, [c] + rest, home) && (c.url == home ==> ChosenUrl(c, record) == home)
    ensures HomeAhead(Enter(st, c, record), rest, home) && home in Enter(st, c, record).records
  {
    hide Enter, ChosenUrl;
    EnteredShow(st, c, record);
    assert ([c] + rest)[0] == c;
    forall i | 0 <= i < |rest| ensures rest[i].url != home {
      assert rest[i] == ([c] + rest)[i + 1];
    }
  }

  lemma EnterContents(cfg: Config, st: State, c: Candidate, record: Record, home: Home)
    requires ContentsRight(cfg, st, home) && Shows(record, SeenAt(cfg, home, c.url))
    ensures ContentsRight(cfg, Enter(st, c, record), home)
  {
    var st' := Enter(st, c, record);
    var chosen := ChosenUrl(c, record);
    EnteredShow(st, c, record);
    hide SeenAt, Shows, Enter, ChosenUrl;
    forall k | k in st'.records ensures ShownUnder(cfg, st', home, k) {
      if k in st.records {
        assert ShownUnder(cfg, st, home, k);
        var u :| (u, k) in st.resolved && Shows(st.records[k], SeenAt(cfg, home, u));
        assert (u, k) in st'.resolved && SameContents(st.records[k], st'.records[k]);
        StillShows(st.records[k], st'.records[k], SeenAt(cfg, home, u));
      } else {
        assert k == chosen && (c.url, k) in st'.resolved;
        StillShows(record, st'.records[k], SeenAt(cfg, home, c.url));
      }
    }
  }

  ghost predicate SameContents(r: Record, s: Record) {
    s.finalUrl == r.finalUrl && s.canonical == r.canonical && s.nofollow == r.nofollow && s.links == r.links
  }

  lemma StillShows(r: Record, s: Record, seen: Option<Response>)
    requires SameContents(r, s) && Shows(r, seen)
    ensures Shows(s, seen)
  {
  }

  /** Entering a page changes no contents of a record and takes those of the new one from the page. */
  lemma EnteredShow(st: State, c: Candidate, record: Record)
    ensures var st', chosen := Enter(st, c, record), ChosenUrl(c, record);
      && st'.resolved == st.resolved + {(c.url, chosen)} && st'.records.Keys == st.records.Keys + {chosen}
      && st'.candidates.Keys <= st.candidates.Keys &&
         (forall u | u in st'.candidates :: st'.candidates[u] == st.candidates[u])
      && (forall k | k in st.records :: SameContents(st.records[k], st'.records[k]))
      && (chosen !in st.records ==> SameContents(record, st'.records[chosen]))
  {
    hide MergeSources, MergedSources, MergedDepth;
  }

  lemma SettleStaysKeyed(cfg: Config, st: State, c: Candidate, rest: seq<Candidate>, home: Home)
    requires Keyed(cfg, st, [c] + rest, home) && Check(cfg, c).Some?
    ensures var st' := Settle(cfg, st, c, Check(cfg, c).value);
      Keyed(cfg, st', rest, home) && home.url in st'.records
  {
    hide Keyed, Check, Enter, AddLink;
    var record := Check(cfg, c).value;
    EnterStaysKeyed(cfg, st, c, rest, home);
    EnteredLinks(st, c, record);
    if ChosenUrl(c, record) !in st.records && Followed(record) {
      var entered := Enter(st, c, record);
      AddLinksStayKeyed(cfg, entered, entered.records[ChosenUrl(c, record)], |record.links|, rest, home);
    }
  }

  lemma {:induction false} SettleAllStayKeyed(cfg: Config, st: State, batch: seq<Candidate>, k: nat, home: Home)
    requires Keyed(cfg, st, batch, home) && k <= |batch| && AllChecked(cfg, batch)
    ensures Keyed(cfg, SettleAll(cfg, st, batch, k), batch[k..], home)
  {
    hide Keyed, Check, Settle;
    if k == 0 {
      assert batch[0..] == batch;
    } else {
      SettleAllStayKeyed(cfg, st, batch, k - 1, home);
      assert batch[k - 1..] == [batch[k - 1]] + batch[k..];
      SettleStaysKeyed(cfg, SettleAll(cfg, st, batch, k - 1), batch[k - 1], batch[k..], home);
    }
  }

  // ---------------------------------------------------------------- batches and drains

  lemma PopStaysKeyed(cfg: Config, st: State, flown: seq<Candidate>, home: Home)
    requires Keyed(cfg, st, flown, home) && st.queue != []
    ensures Keyed(cfg, Pop(st).0, Flown(flown, Pop(st).1), home)
  {
    hide KeyOf, SeenAt, ShownUnder, Own;
    var st' := Pop(st).0;
    forall k | k in st'.records ensures ShownUnder(cfg, st', home, k) {
      assert ShownUnder(cfg, st, home, k);
      SameRecordsShow(cfg, st, st', home, k);
    }
  }

  lemma {:induction false} TakeBatchStaysKeyed(cfg: Config, st: State, flown: seq<Candidate>, room: nat, home: Home)
    requires Keyed(cfg, st, flown, home)
    ensures var (taken, batch) := TakeBatch(st, room); Keyed(cfg, taken, flown + batch, home)
    decreases |st.queue|
  {
    if st.queue == [] || room == 0 {
      assert flown + [] == flown;
    } else {
      var (next, c) := Pop(st);
      PopStaysKeyed(cfg, st, flown, home);
      var room' := if c.Some? then room - 1 else room;
      TakeBatchUnfolds(st, flown, room, room');
      hide Keyed;
      TakeBatchStaysKeyed(cfg, next, Flown(flown, c), room', home);
    }
  }

  /**
   After a drain every checked page is recorded under its key: the homepage under its own address, any other page under
   the canonical address of its whole response, or its own without one. Every record shows such a page.
   */
  lemma {:induction false} DrainStaysKeyed(cfg: Config, st: State, home: Home)
    requires Invariant(cfg, st, []) && cfg.batchSize >= 1 && Keyed(cfg, st, [], home)
    ensures Drain(cfg, st).1 ==> Keyed(cfg, Drain(cfg, st).0, [], home)
    decreases cfg.discoveryLimit + cfg.batchSize - |st.records|, |st.queue|
  {
    hide Keyed, Invariant, TakeBatch, SettleAll;
    if st.queue != [] {
      var (taken, batch) := TakeBatch(st, cfg.batchSize);
      TakeBatchStaysKeyed(cfg, st, [], cfg.batchSize, home);
      assert [] + batch == batch;
      if AllChecked(cfg, batch) {
        TurnKeeps(cfg, st, taken, batch);
        SettleAllStayKeyed(cfg, taken, batch, |batch|, home);
        assert batch[|batch|..] == [];
        RoomLeft(cfg, SettleAll(cfg, taken, batch, |batch|));
        DrainStaysKeyed(cfg, SettleAll(cfg, taken, batch, |batch|), home);
      }
    }
  }

  // ---------------------------------------------------------------- whose links are followed

  /** Links are offered only for a page that was fetched and does not forbid it; a cut-off body cannot forbid it. */
  lemma NobodyFollowed(cfg: Config, st: State, c: Candidate, home: Home)
    requires Own(c, home) && Check(cfg, c).Some?
    requires match SeenAt(cfg, home, c.url) {
      case None => true
      case Some(r) => r.structure.nofollow && !r.truncated
    }
    ensures var st' := Settle(cfg, st, c, Check(cfg, c).value);
      st'.queue == st.queue && st'.candidates.Keys <= st.candidates.Keys
  {
    hide MergeSources, MergedSources, MergedDepth;
  }

  /** A new record of any other page offers all the links of its response, at one level more than the record's own. */
  lemma AllFollowed(cfg: Config, st: State, c: Candidate, home: Home)
    requires Own(c, home) && Check(cfg, c).Some?
    requires SeenAt(cfg, home, c.url).Some? && KeyOf(cfg, home, c.url) !in st.records
    requires var r := SeenAt(cfg, home, c.url).value; !r.structure.nofollow || r.truncated
    ensures var entered := Enter(st, c, Check(cfg, c).value);
      var links := SeenAt(cfg, home, c.url).value.structure.links;
      && KeyOf(cfg, home, c.url) in entered.records
      && entered.records[KeyOf(cfg, home, c.url)].links == links
      && Settle(cfg, st, c, Check(cfg, c).value) ==
         AddLinks(cfg, entered, entered.records[KeyOf(cfg, home, c.url)], |links|)
  {
    CheckShows(cfg, c, home);
    var record := Check(cfg, c).value;
    EnteredLinks(st, c, record);
    hide Check, Enter, AddLinks, SeenAt, KeyOf, ChosenUrl;
  }
}
