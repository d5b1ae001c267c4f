/**
 `SiteInventoryCollector.collect` and `_drain_candidates` of app/collectors/site_inventory.py in their own,
 imperative form: dictionaries and a queue updated in place. Each method is tied to its value-level
 counterpart in module Frontier, where the crawl's guarantees are proved.
 */
module Crawler {
  import opened Base
  import opened Frontier
  import opened FrontierDepth
  import opened FrontierKeys
  import opened FrontierLimits
  import opened FrontierPolicy
  import opened FrontierSources
  import opened Collection

  datatype CrawlError = EmptyInventory | RecordTooDeep

  datatype Inventory = Inventory(pages: seq<Record>, truncated: bool)

  function ClampLimit(requested: int): (limit: nat)
    ensures 1 <= limit <= 500 && (1 <= requested <= 500 ==> limit == requested)
    ensures (requested < 1 ==> limit == 1) && (requested > 500 ==> limit == 500)
  {
    var atLeastOne := if requested < 1 then 1 else requested;
    if atLeastOne > 500 then 500 else atLeastOne
  }

  /** The first records in insertion order, as many as the limit allows. */
  ghost predicate IsPublished(pages: seq<Record>, st: State, limit: nat) {
    && |pages| == Min(|st.records|, limit)
    && forall i | 0 <= i < |pages| :: i < |st.order| && st.order[i] in st.records && pages[i] == st.records[st.order[i]]
  }

  class SiteInventoryCollector {
    const cfg: Config
    var candidates: map<Url, Candidate>
    var queue: seq<Url>
    var records: map<Url, Record>
    var order: seq<Url>
    var truncated: bool
    ghost var resolved: set<(Url, Url)>

    ghost function View(): State
      reads this
    {
      State(candidates, queue, records, order, truncated, resolved)
    }

    constructor (fetch: Url -> Option<Response>, normalize: (Url, Option<Url>) -> Option<Url>, allowed: Url -> bool,
                 discoveryLimit: int, batchSize: nat)
      ensures cfg == Config(fetch, normalize, allowed, ClampLimit(discoveryLimit), batchSize)
      ensures View() == EMPTY_STATE
    {
      cfg := Config(fetch, normalize, allowed, ClampLimit(discoveryLimit), batchSize);
      candidates, queue, records, order, truncated, resolved := map[], [], map[], [], false, {};
    }

    method AddCandidate(raw: Url, base: Option<Url>, source: Source, depth: nat, prefetched: Option<Response>)
      returns (added: bool)
      modifies this
      ensures (View(), added) == Add(cfg, old(View()), raw, base, source, depth, prefetched)
    {
      hide MergeSources;
      var normalized := cfg.normalize(raw, base);
      if normalized.None? || (source != Seed && !cfg.allowed(normalized.value)) {
        return false;
      }
      var url := normalized.value;
      assert Admit(cfg, raw, base, source) == Some(url);
      hide Admit;
      if url in records {
        var current := records[url];
        records := records[url := current.(sources := MergeSources(current.sources, [source]))];
        return true;
      }
      if url in candidates {
        var current := candidates[url];
        candidates := candidates[url := Candidate(
          current.url,
          MergeSources(current.sources, [source]),
          Min(current.depth, depth),
          if prefetched.Some? then prefetched else current.prefetched)];
        return true;
      }
      if |records| + |candidates| >= cfg.discoveryLimit {
        truncated := true;
        return false;
      }
      candidates := candidates[url := Candidate(url, [source], depth, prefetched)];
      queue := queue + [url];
      return true;
    }

    /** `queue.popleft()` and `candidates.pop(url, None)`. */
    method PopOne() returns (candidate: Option<Candidate>)
      requires queue != []
      modifies this
      ensures (View(), candidate) == Pop(old(View()))
    {
      var url := queue[0];
      queue := queue[1..];
      if url in candidates {
        candidate := Some(candidates[url]);
        candidates := candidates - {url};
      } else {
        candidate := None;
        assert candidates - {url} == candidates;
      }
    }

    /** The inner loop that pops addresses until the batch is full or the queue is empty. */
    method PopBatch() returns (batch: seq<Candidate>)
      modifies this
      ensures (View(), batch) == TakeBatch(old(View()), cfg.batchSize)
    {
      batch := [];
      assert [] + TakeBatch(View(), cfg.batchSize).1 == TakeBatch(View(), cfg.batchSize).1;
      while queue != [] && |batch| < cfg.batchSize
        invariant |batch| <= cfg.batchSize
        invariant TakeBatch(old(View()), cfg.batchSize).0 == TakeBatch(View(), cfg.batchSize - |batch|).0
        invariant TakeBatch(old(View()), cfg.batchSize).1 == batch + TakeBatch(View(), cfg.batchSize - |batch|).1
        decreases |queue|
      {
        hide TakeBatch, Pop;
        ghost var before, room := View(), cfg.batchSize - |batch|;
        var candidate := PopOne();
        TakeBatchUnfolds(before, batch, room, if candidate.Some? then room - 1 else room);
        if candidate.Some? {
          batch := batch + [candidate.value];
        }
      }
      assert batch + [] == batch;
    }

    /** The alias merge: the checked page enters the records, or is merged into the record already there. */
    method EnterChecked(candidate: Candidate, checked: Record) returns (isNew: bool)
      modifies this
      ensures View() == Enter(old(View()), candidate, checked)
      ensures isNew <==> ChosenUrl(candidate, checked) !in old(records)
    {
      var chosen := ChosenUrl(candidate, checked);
      var sources, depth := candidate.sources, candidate.depth;
      if chosen != candidate.url && chosen in candidates {
        var alias := candidates[chosen];
        candidates := candidates - {chosen};
        sources := MergeSources(sources, alias.sources);
        depth := Min(depth, alias.depth);
      }
      resolved := resolved + {(candidate.url, chosen)};
      if chosen in records {
        var existing := records[chosen];
        records := records[chosen := existing.(
          sources := MergeSources(existing.sources, sources),
          depth := Min(existing.depth, depth))];
        isNew := false;
      } else {
        records := records[chosen := checked.(url := chosen, sources := sources, depth := depth)];
        order := order + [chosen];
        isNew := true;
      }
    }

    /** The loop over `checked.structure.internal_links`. */
    method OfferLinks(record: Record)
      modifies this
      ensures View() == AddLinks(cfg, old(View()), record, |record.links|)
    {
      hide Add;
      ghost var start := View();
      var k: nat := 0;
      while k < |record.links|
        invariant k <= |record.links|
        invariant View() == AddLinks(cfg, start, record, k)
      {
        var _ := AddCandidate(record.links[k], record.finalUrl, InternalLink, record.depth + 1, None);
        k := k + 1;
      }
    }

    /** Records one checked page and offers its links. */
    method SettleChecked(candidate: Candidate, checked: Record)
      modifies this
      ensures View() == Settle(cfg, old(View()), candidate, checked)
    {
      var isNew := EnterChecked(candidate, checked);
      if isNew && Followed(checked) {
        EnteredLinks(old(View()), candidate, checked);
        OfferLinks(records[ChosenUrl(candidate, checked)]);
      }
    }

    /** `asyncio.gather` over the batch: one record per candidate, or the exception of a too deep one. */
    method CheckBatch(batch: seq<Candidate>) returns (checked: Option<seq<Record>>)
      ensures checked.Some? <==> AllChecked(cfg, batch)
      ensures checked.Some? ==> |checked.value| == |batch| &&
                                forall i | 0 <= i < |batch| :: Check(cfg, batch[i]) == Some(checked.value[i])
    {
      var results: seq<Record> := [];
      var k: nat := 0;
      while k < |batch|
        invariant k <= |batch| && |results| == k
        invariant forall i | 0 <= i < k :: Check(cfg, batch[i]) == Some(results[i])
      {
        var record := Check(cfg, batch[k]);
        if record.None? {
          return None;
        }
        results := results + [record.value];
        k := k + 1;
      }
      checked := Some(results);
    }

    /** `_drain_candidates`: ends for every site, and computes exactly the value-level drain. */
    method DrainCandidates() returns (ok: bool)
      requires cfg.batchSize >= 1 && Invariant(cfg, View(), [])
      modifies this
      ensures (View(), ok) == Drain(cfg, old(View()))
    {
      while queue != []
        invariant Invariant(cfg, View(), [])
        invariant Drain(cfg, View()) == Drain(cfg, old(View()))
        decreases cfg.discoveryLimit + cfg.batchSize - |records|, |queue|
      {
        ghost var start := View();
        var batch := PopBatch();
        ghost var taken := View();
        var checked := CheckBatch(batch);
        if checked.None? {
          return false;
        }
        TurnKeeps(cfg, start, taken, batch);
        var k: nat := 0;
        while k < |batch|
          invariant k <= |batch|
          invariant View() == SettleAll(cfg, taken, batch, k)
        {
          SettleChecked(batch[k], checked.value[k]);
          k := k + 1;
        }
      }
      ok := true;
    }

    /** One turn of the loop below. */
    method OfferNext(urls: seq<Url>, k: nat, source: Source, ghost home: Option<Home>, ghost offers: set<Offer>,
                     ghost start: State)
      returns (ghost grown: set<Offer>)
      requires cfg.batchSize >= 1 && cfg.discoveryLimit >= 1 && source != Seed && k < |urls|
      requires Going(cfg, View(), home, offers) && (!truncated ==> AllTaken(cfg, urls[..k], source, offers))
      requires Invariant(cfg, start, []) && View() == OfferedAll(cfg, start, urls[..k], source)
      modifies this
      ensures Going(cfg, View(), home, grown) && offers <= grown && |records| == old(|records|)
      ensures !truncated ==> !old(truncated) && AllTaken(cfg, urls[..k + 1], source, grown)
      ensures View() == OfferedAll(cfg, start, urls[..k + 1], source)
    {
      hide Going, AllTaken, Admit, Add, OfferedAll, Invariant;
      OfferedAllGrows(cfg, start, urls, k, source);
      grown := OfferTurn(cfg, View(), urls, k, source, home, offers);
      var _ := AddCandidate(urls[k], None, source, 1, None);
    }

    /** `for url in urls: add_candidate(url, source, 1)`; `grown` are the offers accepted so far. */
    method OfferAll(urls: seq<Url>, source: Source, ghost home: Option<Home>, ghost offers: set<Offer>)
      returns (ghost grown: set<Offer>)
      requires cfg.batchSize >= 1 && cfg.discoveryLimit >= 1 && source != Seed && Going(cfg, View(), home, offers)
      modifies this
      ensures Going(cfg, View(), home, grown) && offers <= grown
      ensures !truncated ==> !old(truncated) && AllTaken(cfg, urls, source, grown)
      ensures |records| == old(|records|)
      ensures View() == OfferedAll(cfg, old(View()), urls, source)
    {
      hide Going, AllTaken, Admit, Add, OfferedAll, Invariant;
      ghost var start := View();
      GoingIsInvariant(cfg, start, home, offers);
      NoneTaken(cfg, urls, source, offers);
      OfferedNone(cfg, start, urls, source);
      var k: nat := 0;
      grown := offers;
      while k < |urls|
        invariant k <= |urls| && Going(cfg, View(), home, grown) && offers <= grown
        invariant View() == OfferedAll(cfg, start, urls[..k], source)
        invariant !truncated ==> !old(truncated) && AllTaken(cfg, urls[..k], source, grown)
        invariant |records| == old(|records|)
      {
        grown := OfferNext(urls, k, source, home, grown, start);
        k := k + 1;
      }
      assert urls[..k] == urls;
    }

    /** The homepage and the pages named by the sitemaps. */
    method OfferKnownPages(rootUrl: Url, rootResponse: Response, sitemapPages: Option<seq<Url>>,
                           defaultPages: Option<seq<Url>>)
      returns (ghost offers: set<Offer>)
      requires cfg.batchSize >= 1 && cfg.discoveryLimit >= 1 && View() == EMPTY_STATE
      modifies this
      ensures var home := HomeOf(cfg, rootUrl, rootResponse);
        Going(cfg, View(), home, offers) && (home.Some? ==> Offer(home.value.url, Seed, 0) in offers)
      ensures !truncated && cfg.discoveryLimit >= 2 && sitemapPages.Some? ==>
                AllTaken(cfg, sitemapPages.value, RobotsSitemap, offers)
      ensures var start := AfterSearch(cfg, AfterHome(cfg, rootUrl, rootResponse), sitemapPages, RobotsSitemap);
        && View() == AfterSearch(cfg, start, defaultPages, DefaultSitemap)
        && (!truncated && defaultPages.Some? && |start.candidates| < cfg.discoveryLimit ==>
              AllTaken(cfg, defaultPages.value, DefaultSitemap, offers))
    {
      hide Going, Add, AllTaken, OfferedAll;
      ghost var home := HomeOf(cfg, rootUrl, rootResponse);
      HomeGoing(cfg, rootUrl, rootResponse);
      offers := if home.Some? then {Offer(home.value.url, Seed, 0)} else {};
      var _ := AddCandidate(rootUrl, None, Seed, 0, Some(rootResponse));
      hide Admit, Invariant;
      assert View() == AfterHome(cfg, rootUrl, rootResponse);
      hide AfterHome;
      if sitemapPages.Some? && |candidates| < cfg.discoveryLimit {
        offers := OfferAll(sitemapPages.value, RobotsSitemap, home, offers);
      }
      if defaultPages.Some? && |candidates| < cfg.discoveryLimit {
        ghost var before := offers;
        offers := OfferAll(defaultPages.value, DefaultSitemap, home, offers);
        if !truncated && cfg.discoveryLimit >= 2 && sitemapPages.Some? {
          TakenMore(cfg, sitemapPages.value, RobotsSitemap, before, offers);
        }
      }
    }

    /** A drain, and what it makes of the offers accepted before it. */
    method Crawl(ghost home: Option<Home>, ghost offers: set<Offer>) returns (ok: bool)
      requires cfg.batchSize >= 1 && Going(cfg, View(), home, offers)
      modifies this
      ensures Invariant(cfg, old(View()), []) && (View(), ok) == Drain(cfg, old(View()))
      ensures ok ==> Drained(cfg, View(), home, offers)
      ensures ok ==> (old(truncated) ==> truncated) && old(|records|) <= |records|
      ensures home.Some? && cfg.discoveryLimit <= MAX_CRAWL_DEPTH + 1 ==> ok
    {
      DrainLeavesDrained(cfg, View(), home, offers);
      hide Going, Drained, Drain, Invariant;
      ok := DrainCandidates();
    }

    /** With room left, the site map service's pages are offered and drained as well. */
    method Supplement(mapped: Option<seq<Url>>, ghost home: Option<Home>, ghost offers: set<Offer>)
      returns (ok: bool, ghost grown: set<Offer>)
      requires cfg.batchSize >= 1 && cfg.discoveryLimit >= 1 && Drained(cfg, View(), home, offers)
      modifies this
      ensures ok ==> Drained(cfg, View(), home, grown) && offers <= grown
      ensures ok && !truncated ==> !old(truncated)
      ensures ok && !truncated && old(|records|) < cfg.discoveryLimit && mapped.Some? ==>
                AllTaken(cfg, mapped.value, FirecrawlMap, grown)
      ensures home.Some? && cfg.discoveryLimit <= MAX_CRAWL_DEPTH + 1 ==> ok
    {
      hide Going, AllTaken, Drain, CrawlComplete, Admit, RecordsGood, Polite, Published, OfferedAll, Invariant;
      ok, grown := true, offers;
      if |records| < cfg.discoveryLimit && mapped.Some? {
        grown := OfferAll(mapped.value, FirecrawlMap, home, offers);
        ok := Crawl(home, grown);
      }
    }

    /**
     `collect`, from the fetched homepage to the published page list. `sitemapPages` and `defaultPages` are the
     outcomes of the two sitemap searches, absent when the search is not due; `mapped` is the site map
     service's answer, absent when the service is not configured.
     */
    method Collect(rootUrl: Url, rootResponse: Response, sitemapPages: Option<seq<Url>>, defaultPages: Option<seq<Url>>,
                   mapped: Option<seq<Url>>)
      returns (r: Result<Inventory, CrawlError>)
      requires cfg.batchSize >= 1 && cfg.discoveryLimit >= 1 && View() == EMPTY_STATE
      modifies this
      ensures r.Ok? <==> r != Err(RecordTooDeep) && exists k :: k in records && records[k].finalUrl.Some?
      ensures r.Ok? ==> IsPublished(r.value.pages, View(), cfg.discoveryLimit) && r.value.truncated == truncated
      ensures r != Err(RecordTooDeep) ==>
                && CrawlComplete(cfg, View())
                && |records| <= cfg.discoveryLimit + Min(cfg.batchSize, cfg.discoveryLimit) - 1
      // only permitted addresses were fetched, and the homepage is recorded as such, under its own address; every
      // other page is recorded under the address its response declares, and shows what its response says
      ensures var home := HomeOf(cfg, rootUrl, rootResponse);
        r != Err(RecordTooDeep) && home.Some? ==>
          && home.value.url in records && Published(View(), home.value.url, Seed, 0)
          && Polite(cfg, View(), [], {home.value.url})
          && KeysRight(cfg, View(), home.value) && ContentsRight(cfg, View(), home.value)
      ensures cfg.discoveryLimit <= 101 && Admit(cfg, rootUrl, None, Seed).Some? ==>
                r != Err(RecordTooDeep)
      // unless the limit was hit, every admitted page that a search or the service was asked for is in the records
      ensures var searched := AfterSearch(cfg, AfterHome(cfg, rootUrl, rootResponse), sitemapPages, RobotsSitemap);
        var known := AfterSearch(cfg, searched, defaultPages, DefaultSitemap);
        r != Err(RecordTooDeep) && !truncated ==>
          && (cfg.discoveryLimit >= 2 && sitemapPages.Some? ==>
                AllPublished(cfg, View(), sitemapPages.value, RobotsSitemap))
          && (|searched.candidates| < cfg.discoveryLimit && defaultPages.Some? ==>
                AllPublished(cfg, View(), defaultPages.value, DefaultSitemap))
          && (|Drain(cfg, known).0.records| < cfg.discoveryLimit && mapped.Some? ==>
                AllPublished(cfg, View(), mapped.value, FirecrawlMap))
    {
      hide Going, Drained, AllTaken, AllPublished, Drain, CrawlComplete, Admit, IsPublished, RecordsGood;
      hide Polite, Published, KeysRight, ContentsRight, AfterHome, AfterSearch, Invariant;
      ghost var home := HomeOf(cfg, rootUrl, rootResponse);
      ghost var searched := AfterSearch(cfg, AfterHome(cfg, rootUrl, rootResponse), sitemapPages, RobotsSitemap);
      ghost var first := OfferKnownPages(rootUrl, rootResponse, sitemapPages, defaultPages);
      var ok := Crawl(home, first);
      if !ok {
        return Err(RecordTooDeep);
      }
      ghost var offers;
      ok, offers := Supplement(mapped, home, first);
      if !ok {
        return Err(RecordTooDeep);
      }
      DrainedIs(cfg, View(), home, offers);
      if !truncated {
        if cfg.discoveryLimit >= 2 && sitemapPages.Some? {
          TakenMore(cfg, sitemapPages.value, RobotsSitemap, first, offers);
          DrainedPublishes(cfg, View(), home, offers, sitemapPages.value, RobotsSitemap);
        }
        if |searched.candidates| < cfg.discoveryLimit && defaultPages.Some? {
          TakenMore(cfg, defaultPages.value, DefaultSitemap, first, offers);
          DrainedPublishes(cfg, View(), home, offers, defaultPages.value, DefaultSitemap);
        }
        if AllTaken(cfg, if mapped.Some? then mapped.value else [], FirecrawlMap, offers) {
          DrainedPublishes(cfg, View(), home, offers, if mapped.Some? then mapped.value else [], FirecrawlMap);
        }
      }
      if forall k | k in records :: records[k].finalUrl.None? {
        return Err(EmptyInventory);
      }
      var pages := PublishedPages();
      r := Ok(Inventory(pages, truncated));
    }

    /** `list(records.values())[:discovery_limit]`. */
    method PublishedPages() returns (pages: seq<Record>)
      requires RecordsGood(View())
      ensures IsPublished(pages, View(), cfg.discoveryLimit)
    {
      DistinctSize(order);
      assert forall i | 0 <= i < |order| :: order[i] in Elements(order);
      var table, keys, n := records, order, Min(|order|, cfg.discoveryLimit);
      pages := seq(n, i requires 0 <= i < n && keys[i] in table => table[keys[i]]);
    }
  }
}
