/**
 What a whole collection of app/collectors/site_inventory.py keeps: the homepage and the pages of the sitemaps are
 offered, drained, and after the answer of the site map service possibly drained a second time.
 */
module Collection {
  import opened Base
  import opened Frontier
  import opened FrontierDepth
  import opened FrontierKeys
  import opened FrontierLimits
  import opened FrontierPolicy
  import opened FrontierSources

  /** An accepted offer: the address, who named it, and at which depth it was accepted. */
  datatype Offer = Offer(url: Url, source: Source, depth: nat)

  /**
   The standing guarantees between offers and drains; the depths and the robots rules start from an admitted homepage.
   */
  ghost predicate Going(cfg: Config, st: State, home: Option<Home>, offers: set<Offer>) {
    && Invariant(cfg, st, []) && Tight(cfg, st, 0)
    && (home.Some? ==> FromHome(cfg, st, home.value))
    && AllKept(st, offers)
  }

  ghost predicate AllKept(st: State, offers: set<Offer>) {
    forall o | o in offers :: Kept(st, [], o.url, o.source, o.depth)
  }

  lemma OffersStay(st: State, st': State, offers: set<Offer>)
    requires AllKept(st, offers) && Grows(st, st')
    ensures AllKept(st', offers)
  {
    hide Kept, Grows;
    forall o | o in offers ensures Kept(st', [], o.url, o.source, o.depth) {
      GrowthKeeps(st, st', [], o.url, o.source, o.depth);
    }
  }

  lemma OneMoreKept(st: State, offers: set<Offer>, o: Offer)
    requires AllKept(st, offers) && Kept(st, [], o.url, o.source, o.depth)
    ensures AllKept(st, offers + {o})
  {
    hide Kept;
  }

  ghost predicate FromHome(cfg: Config, st: State, home: Home) {
    Started(cfg, st) && Polite(cfg, st, [], {home.url}) && HomeHeld(st, [], home.url) && Keyed(cfg, st, [], home)
  }

  /** The homepage, if its address is admitted. */
  ghost function HomeOf(cfg: Config, rootUrl: Url, page: Response): Option<Home> {
    match Admit(cfg, rootUrl, None, Seed)
    case None => None
    case Some(u) => Some(Home(u, page))
  }

  lemma OfferKeepsFromHome(cfg: Config, st: State, raw: Url, source: Source, depth: nat, home: Home)
    requires FromHome(cfg, st, home) && cfg.batchSize >= 1 && depth <= 1 && source != Seed
    ensures FromHome(cfg, Add(cfg, st, raw, None, source, depth, None).0, home)
  {
    KeyedHoldsHome(cfg, st, home);
    hide Started, Polite, HomeHeld, Keyed, Add;
    OfferKeepsStarted(cfg, st, raw, source, depth);
    AddStaysPolite(cfg, st, raw, None, source, depth, None, [], {home.url});
    AddHoldsHome(cfg, st, raw, None, source, depth, None, [], home.url);
    AddStaysKeyed(cfg, st, raw, None, source, depth, [], home);
  }

  lemma KeyedHoldsHome(cfg: Config, st: State, home: Home)
    requires Keyed(cfg, st, [], home)
    ensures home.url in st.records || home.url in st.candidates
  {
    hide KeysRight, ContentsRight, AllOwn;
  }

  /** The depth at which an offer is accepted: that of the record, if the page has one already. */
  function AcceptedDepth(st: State, u: Url, depth: nat): nat {
    if u in st.records then st.records[u].depth else depth
  }

  /**
   An offer by a sitemap or the site map service keeps everything and, unless it is refused, becomes one more to be
   kept.
   */
  lemma OfferKeepsGoing(cfg: Config, st: State, raw: Url, source: Source, home: Option<Home>, offers: set<Offer>)
    requires Going(cfg, st, home, offers) && cfg.batchSize >= 1 && cfg.discoveryLimit >= 1 && source != Seed
    ensures var (st', taken) := Add(cfg, st, raw, None, source, 1, None);
      && Going(cfg, st', home, offers)
      && (taken ==> Admit(cfg, raw, None, source).Some? &&
                    var u := Admit(cfg, raw, None, source).value;
                    Going(cfg, st', home, offers + {Offer(u, source, AcceptedDepth(st, u, 1))}))
      && (!taken && Admit(cfg, raw, None, source).Some? ==> st'.truncated)
      && (st.truncated ==> st'.truncated) && |st'.records| == |st.records|
  {
    var (st', taken) := Add(cfg, st, raw, None, source, 1, None);
    OfferKeeps(cfg, st, raw, source, 1, None);
    AddStaysTight(cfg, st, raw, None, source, 1, None, 0);
    AddGrows(cfg, st, raw, None, source, 1, None);
    AddKeepsTruncated(cfg, st, raw, source);
    AddKeepsRecordCount(cfg, st, raw, source);
    hide Add, Admit, Invariant, Tight, FromHome, AllKept, Kept, Keeps, Grows, Added, Covered;
    OffersStay(st, st', offers);
    if taken {
      AcceptedIsKept(cfg, st, raw, None, source, 1, None, []);
      var u := Admit(cfg, raw, None, source).value;
      OneMoreKept(st', offers, Offer(u, source, AcceptedDepth(st, u, 1)));
    }
    if home.Some? {
      OfferKeepsFromHome(cfg, st, raw, source, 1, home.value);
    }
  }

  lemma AddKeepsTruncated(cfg: Config, st: State, raw: Url, source: Source)
    ensures st.truncated ==> Add(cfg, st, raw, None, source, 1, None).0.truncated
  {
    hide MergeSources, Admit;
  }

  lemma AddKeepsRecordCount(cfg: Config, st: State, raw: Url, source: Source)
    ensures |Add(cfg, st, raw, None, source, 1, None).0.records| == |st.records|
  {
    hide MergeSources, NoteSource;
    var u := Admit(cfg, raw, None, source);
    if u.Some? && u.value in st.records {
      NoteSourceSizes(st, u.value, source);
    }
    hide Admit;
  }

  /** The homepage's own offer. */
  lemma HomeGoing(cfg: Config, raw: Url, response: Response)
    requires cfg.batchSize >= 1 && cfg.discoveryLimit >= 1
    ensures var st, home := Add(cfg, EMPTY_STATE, raw, None, Seed, 0, Some(response)).0, HomeOf(cfg, raw, response);
      && Going(cfg, st, home, if home.Some? then {Offer(home.value.url, Seed, 0)} else {})
      && st.records == map[] && |st.candidates| <= 1
  {
    var (st, taken) := Add(cfg, EMPTY_STATE, raw, None, Seed, 0, Some(response));
    var home := Admit(cfg, raw, None, Seed);
    EmptyInvariant(cfg);
    OfferKeeps(cfg, EMPTY_STATE, raw, Seed, 0, Some(response));
    AddStaysTight(cfg, EMPTY_STATE, raw, None, Seed, 0, Some(response), 0);
    FirstOfferTaken(cfg, raw, Seed, 0, Some(response));
    FirstCandidates(cfg, raw, Some(response));
    hide Add, Admit, Invariant, Tight, Kept, Keeps, Added, Covered, Started, Polite, HomeHeld, Keyed;
    if home.Some? {
      HomeIsKeyed(cfg, raw, response);
      HomeStarts(cfg, raw, Some(response));
      NothingIsPolite(cfg, {home.value});
      HomeOffered(cfg, EMPTY_STATE, raw, Some(response), {home.value});
      AcceptedIsKept(cfg, EMPTY_STATE, raw, None, Seed, 0, Some(response), []);
    }
  }

  lemma NothingIsPolite(cfg: Config, homes: set<Url>)
    ensures Polite(cfg, EMPTY_STATE, [], homes)
  {
  }

  lemma FirstCandidates(cfg: Config, raw: Url, response: Option<Response>)
    ensures var st := Add(cfg, EMPTY_STATE, raw, None, Seed, 0, response).0; st.records == map[] && |st.candidates| <= 1
  {
    hide Admit;
  }

  /** Every admitted page of the list has been accepted. */
  ghost predicate AllTaken(cfg: Config, urls: seq<Url>, source: Source, offers: set<Offer>) {
    forall url | url in urls && Admit(cfg, url, None, source).Some? ::
      Taken(Admit(cfg, url, None, source).value, source, offers)
  }

  ghost predicate Taken(u: Url, source: Source, offers: set<Offer>) {
    exists depth :: Offer(u, source, depth) in offers
  }

  /** Every admitted page of the list is a record, or was merged into one, and the record lists the source. */
  ghost predicate AllPublished(cfg: Config, st: State, urls: seq<Url>, source: Source) {
    forall url | url in urls && Admit(cfg, url, None, source).Some? ::
      Listed(st, Admit(cfg, url, None, source).value, source)
  }

  ghost predicate Listed(st: State, u: Url, source: Source) {
    exists depth :: Published(st, u, source, depth)
  }

  lemma TakenIsPublished(cfg: Config, st: State, urls: seq<Url>, source: Source, offers: set<Offer>)
    requires AllTaken(cfg, urls, source, offers) && forall o | o in offers :: Published(st, o.url, o.source, o.depth)
    ensures AllPublished(cfg, st, urls, source)
  {
    hide Admit, Published;
    forall url | url in urls && Admit(cfg, url, None, source).Some?
      ensures Listed(st, Admit(cfg, url, None, source).value, source)
    {
      var u := Admit(cfg, url, None, source).value;
      assert Taken(u, source, offers);
      var depth :| Offer(u, source, depth) in offers;
      var o := Offer(u, source, depth);
      assert Published(st, o.url, o.source, o.depth);
    }
  }

  lemma TakenMore(cfg: Config, urls: seq<Url>, source: Source, offers: set<Offer>, grown: set<Offer>)
    requires AllTaken(cfg, urls, source, offers) && offers <= grown
    ensures AllTaken(cfg, urls, source, grown)
  {
    hide Admit;
    forall url | url in urls && Admit(cfg, url, None, source).Some?
      ensures Taken(Admit(cfg, url, None, source).value, source, grown)
    {
      assert Taken(Admit(cfg, url, None, source).value, source, offers);
    }
  }

  lemma OneMoreTaken(cfg: Config, urls: seq<Url>, k: nat, source: Source, offers: set<Offer>)
    requires k < |urls| && AllTaken(cfg, urls[..k], source, offers)
    requires Admit(cfg, urls[k], None, source).Some? ==> Taken(Admit(cfg, urls[k], None, source).value, source, offers)
    ensures AllTaken(cfg, urls[..k + 1], source, offers)
  {
    hide Admit, Taken;
    assert urls[..k + 1] == urls[..k] + [urls[k]];
  }

  /** One turn of the loop that offers a list. */
  lemma OfferTurn(cfg: Config, st: State, urls: seq<Url>, k: nat, source: Source, home: Option<Home>,
          offers: set<Offer>)
    returns (more: set<Offer>)
    requires cfg.batchSize >= 1 && cfg.discoveryLimit >= 1 && source != Seed && k < |urls|
    requires Going(cfg, st, home, offers) && (!st.truncated ==> AllTaken(cfg, urls[..k], source, offers))
    ensures var st' := Add(cfg, st, urls[k], None, source, 1, None).0;
      && Going(cfg, st', home, more) && offers <= more && |st'.records| == |st.records|
      && (!st'.truncated ==> !st.truncated && AllTaken(cfg, urls[..k + 1], source, more))
  {
    hide Going, AllTaken, Admit, Add;
    var (st', taken) := Add(cfg, st, urls[k], None, source, 1, None);
    var u := Admit(cfg, urls[k], None, source);
    OfferKeepsGoing(cfg, st, urls[k], source, home, offers);
    more := if taken then offers + {Offer(u.value, source, AcceptedDepth(st, u.value, 1))} else offers;
    if !st'.truncated {
      assert taken ==> Offer(u.value, source, AcceptedDepth(st, u.value, 1)) in more;
      TakenMore(cfg, urls[..k], source, offers, more);
      OneMoreTaken(cfg, urls, k, source, more);
    }
  }

  lemma NoneTaken(cfg: Config, urls: seq<Url>, source: Source, offers: set<Offer>)
    ensures AllTaken(cfg, urls[..0], source, offers)
  {
    hide Admit;
  }

  lemma GoingIsInvariant(cfg: Config, st: State, home: Option<Home>, offers: set<Offer>)
    requires Going(cfg, st, home, offers)
    ensures Invariant(cfg, st, [])
  {
    hide Invariant, Tight, FromHome, AllKept;
  }

  // ---------------------------------------------------------------- what has been offered before the first drain

  /** All pages of a list, offered one after the other. */
  ghost function OfferedAll(cfg: Config, st: State, urls: seq<Url>, source: Source): (after: State)
    requires cfg.batchSize >= 1 && source != Seed && Invariant(cfg, st, [])
    ensures Invariant(cfg, after, [])
  {
    if urls == [] then st
    else
      var before := OfferedAll(cfg, st, urls[..|urls| - 1], source);
      OfferKeeps(cfg, before, urls[|urls| - 1], source, 1, None);
      Add(cfg, before, urls[|urls| - 1], None, source, 1, None).0
  }

  lemma OfferedNone(cfg: Config, st: State, urls: seq<Url>, source: Source)
    requires cfg.batchSize >= 1 && source != Seed && Invariant(cfg, st, [])
    ensures OfferedAll(cfg, st, urls[..0], source) == st
  {
    hide Invariant;
  }

  lemma OfferedAllGrows(cfg: Config, st: State, urls: seq<Url>, k: nat, source: Source)
    requires cfg.batchSize >= 1 && source != Seed && Invariant(cfg, st, []) && k < |urls|
    ensures OfferedAll(cfg, st, urls[..k + 1], source) ==
            Add(cfg, OfferedAll(cfg, st, urls[..k], source), urls[k], None, source, 1, None).0
  {
    hide Invariant, Add;
    assert urls[..k + 1][..k] == urls[..k];
  }

  ghost function AfterHome(cfg: Config, rootUrl: Url, response: Response): (st: State)
    requires cfg.batchSize >= 1
    ensures Invariant(cfg, st, [])
  {
    EmptyInvariant(cfg);
    OfferKeeps(cfg, EMPTY_STATE, rootUrl, Seed, 0, Some(response));
    Add(cfg, EMPTY_STATE, rootUrl, None, Seed, 0, Some(response)).0
  }

  /** A sitemap is searched, when it is due, only while candidates may be added. */
  ghost function AfterSearch(cfg: Config, st: State, found: Option<seq<Url>>, source: Source): (after: State)
    requires cfg.batchSize >= 1 && source != Seed && Invariant(cfg, st, [])
    ensures Invariant(cfg, after, [])
  {
    if found.Some? && |st.candidates| < cfg.discoveryLimit then OfferedAll(cfg, st, found.value, source) else st
  }

  // ---------------------------------------------------------------- a drain in between

  lemma DrainKeepsFromHome(cfg: Config, st: State, home: Home)
    requires Invariant(cfg, st, []) && FromHome(cfg, st, home) && cfg.batchSize >= 1
    ensures Drain(cfg, st).1 ==> FromHome(cfg, Drain(cfg, st).0, home) && home.url in Drain(cfg, st).0.records
    ensures cfg.discoveryLimit <= MAX_CRAWL_DEPTH + 1 ==> Drain(cfg, st).1
  {
    DrainStaysStarted(cfg, st);
    DrainIsPolite(cfg, st, {home.url}, home.url);
    DrainStaysKeyed(cfg, st, home);
    hide Started, Polite, Drain, Invariant, Keyed;
  }

  /** A drain that does not raise keeps everything, publishes every accepted offer, and never unsets `truncated`. */
  lemma DrainKeepsGoing(cfg: Config, st: State, home: Option<Home>, offers: set<Offer>)
    requires Going(cfg, st, home, offers) && cfg.batchSize >= 1
    ensures Invariant(cfg, st, [])
    ensures var (st', ok) := Drain(cfg, st);
      && (ok ==> Going(cfg, st', home, offers) && (st.truncated ==> st'.truncated) && |st.records| <= |st'.records|)
      && (ok ==> forall o | o in offers :: Published(st', o.url, o.source, o.depth))
      && (ok && home.Some? ==> home.value.url in st'.records)
      && (home.Some? && cfg.discoveryLimit <= MAX_CRAWL_DEPTH + 1 ==> ok)
  {
    hide Drain, Invariant, Tight, FromHome, Kept, Published, CrawlComplete;
    DrainCompletes(cfg, st);
    DrainStaysTight(cfg, st);
    DrainOnlyAdds(cfg, st);
    if home.Some? {
      DrainKeepsFromHome(cfg, st, home.value);
    }
    var (st', ok) := Drain(cfg, st);
    if ok {
      forall o | o in offers
        ensures Published(st', o.url, o.source, o.depth) && Kept(st', [], o.url, o.source, o.depth)
      {
        DrainKeepsOffers(cfg, st, o.url, o.source, o.depth);
        PublishedIsKept(st', o.url, o.source, o.depth);
      }
    }
  }

  /**
   The homepage is recorded, only permitted addresses were fetched, and every page is recorded as its response says.
   */
  ghost predicate AtHome(cfg: Config, st: State, home: Home) {
    && home.url in st.records && Polite(cfg, st, [], {home.url})
    && KeysRight(cfg, st, home) && ContentsRight(cfg, st, home)
  }

  /** What holds once a drain has ended without an exception. */
  ghost predicate Drained(cfg: Config, st: State, home: Option<Home>, offers: set<Offer>) {
    && Going(cfg, st, home, offers) && CrawlComplete(cfg, st) && RecordsGood(st)
    && |st.records| <= cfg.discoveryLimit + Min(cfg.batchSize, cfg.discoveryLimit) - 1
    && (forall o | o in offers :: Published(st, o.url, o.source, o.depth))
    && (home.Some? ==> AtHome(cfg, st, home.value))
  }

  lemma DrainedPublishes(cfg: Config, st: State, home: Option<Home>, offers: set<Offer>, urls: seq<Url>, source: Source)
    requires Drained(cfg, st, home, offers) && AllTaken(cfg, urls, source, offers)
    ensures AllPublished(cfg, st, urls, source)
  {
    hide Going, CrawlComplete, RecordsGood, Polite, Published, AllTaken, AllPublished;
    TakenIsPublished(cfg, st, urls, source, offers);
  }

  lemma DrainedIs(cfg: Config, st: State, home: Option<Home>, offers: set<Offer>)
    requires Drained(cfg, st, home, offers)
    ensures CrawlComplete(cfg, st) && RecordsGood(st)
    ensures |st.records| <= cfg.discoveryLimit + Min(cfg.batchSize, cfg.discoveryLimit) - 1
    ensures home.Some? ==> AtHome(cfg, st, home.value)
    ensures forall o | o in offers :: Published(st, o.url, o.source, o.depth)
  {
    hide Going, CrawlComplete, RecordsGood, Polite, Published;
  }

  lemma CompleteRecords(cfg: Config, st: State)
    requires Invariant(cfg, st, [])
    ensures RecordsGood(st)
  {
  }

  lemma DrainLeavesDrained(cfg: Config, st: State, home: Option<Home>, offers: set<Offer>)
    requires Going(cfg, st, home, offers) && cfg.batchSize >= 1
    ensures Invariant(cfg, st, [])
    ensures var (st', ok) := Drain(cfg, st);
      && (ok ==> Drained(cfg, st', home, offers) && (st.truncated ==> st'.truncated) && |st.records| <= |st'.records|)
      && (home.Some? && cfg.discoveryLimit <= MAX_CRAWL_DEPTH + 1 ==> ok)
  {
    DrainKeepsGoing(cfg, st, home, offers);
    DrainCompletes(cfg, st);
    hide Drain, CrawlComplete, AllKept, Polite, Started, HomeHeld, Published, Invariant, RecordsGood;
    var (st', ok) := Drain(cfg, st);
    if ok {
      CompleteRecords(cfg, st');
    }
  }

  lemma PublishedIsKept(st: State, u: Url, s: Source, d: nat)
    requires Published(st, u, s, d)
    ensures Kept(st, [], u, s, d)
  {
  }

  lemma LinkKeepsTruncated(cfg: Config, st: State, record: Record, k: nat)
    requires k < |record.links|
    ensures st.truncated ==> AddLink(cfg, st, record, k).0.truncated
  {
    hide MergeSources, Admit;
  }

  lemma {:induction false} LinksKeepTruncated(cfg: Config, st: State, record: Record, k: nat)
    requires k <= |record.links|
    ensures st.truncated ==> AddLinks(cfg, st, record, k).truncated
  {
    hide AddLink;
    if k > 0 {
      LinksKeepTruncated(cfg, st, record, k - 1);
      LinkKeepsTruncated(cfg, AddLinks(cfg, st, record, k - 1), record, k - 1);
    }
  }

  lemma SettleKeepsTruncated(cfg: Config, st: State, c: Candidate, record: Record)
    ensures st.truncated ==> Settle(cfg, st, c, record).truncated
  {
    EnteredLinks(st, c, record);
    EnterKeepsTruncated(st, c, record);
    hide Enter, AddLinks;
    if ChosenUrl(c, record) !in st.records && Followed(record) {
      LinksKeepTruncated(cfg, Enter(st, c, record), Enter(st, c, record).records[ChosenUrl(c, record)], |record.links|);
    }
  }

  lemma EnterKeepsTruncated(st: State, c: Candidate, record: Record)
    ensures Enter(st, c, record).truncated == st.truncated
  {
    hide MergeSources, MergedSources;
  }

  lemma {:induction false} SettleAllKeepsTruncated(cfg: Config, st: State, batch: seq<Candidate>, k: nat)
    requires k <= |batch| && AllChecked(cfg, batch)
    ensures st.truncated ==> SettleAll(cfg, st, batch, k).truncated
  {
    hide Settle, Check;
    if k > 0 {
      SettleAllKeepsTruncated(cfg, st, batch, k - 1);
      SettleKeepsTruncated(cfg, SettleAll(cfg, st, batch, k - 1), batch[k - 1], Check(cfg, batch[k - 1]).value);
    }
  }

  lemma {:induction false} TakeBatchKeepsTruncated(st: State, room: nat)
    ensures TakeBatch(st, room).0.truncated == st.truncated
    decreases |st.queue|
  {
    if st.queue != [] && room > 0 {
      var c := Pop(st).1;
      TakeBatchKeepsTruncated(Pop(st).0, if c.Some? then room - 1 else room);
    }
  }

  lemma {:induction false} DrainOnlyAdds(cfg: Config, st: State)
    requires Invariant(cfg, st, []) && cfg.batchSize >= 1
    ensures st.truncated && Drain(cfg, st).1 ==> Drain(cfg, st).0.truncated
    ensures Drain(cfg, st).1 ==> |st.records| <= |Drain(cfg, st).0.records|
    decreases cfg.discoveryLimit + cfg.batchSize - |st.records|, |st.queue|
  {
    hide Invariant, TakeBatch, SettleAll;
    if st.queue != [] {
      var (taken, batch) := TakeBatch(st, cfg.batchSize);
      TakeBatchKeepsTruncated(st, cfg.batchSize);
      if AllChecked(cfg, batch) {
        TurnKeeps(cfg, st, taken, batch);
        SettleAllKeepsTruncated(cfg, taken, batch, |batch|);
        RoomLeft(cfg, SettleAll(cfg, taken, batch, |batch|));
        DrainOnlyAdds(cfg, SettleAll(cfg, taken, batch, |batch|));
      }
    }
  }
}
