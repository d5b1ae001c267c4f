/**
 The crawl frontier of app/collectors/site_inventory.py as a value: `add_candidate`, the batch loop of
 `_drain_candidates` and the canonical-alias merge. The network is a function from an address to its
 response, `None` for a failed fetch; address normalization and the robots policy are functions too.
 `sampling_quality` and `contact_coverage` are off.
 */
module Frontier {
  import opened Base

  datatype Source = Seed | RobotsSitemap | DefaultSitemap | InternalLink | FirecrawlMap

  datatype Structure = Structure(canonical: Option<Url>, nofollow: bool, links: seq<Url>)

  datatype Response = Response(finalUrl: Url, truncated: bool, structure: Structure)

  datatype Candidate = Candidate(url: Url, sources: seq<Source>, depth: nat, prefetched: Option<Response>)

  /** An inventory record; `finalUrl` is absent when the check failed. */
  datatype Record = Record(
    url: Url, sources: seq<Source>, depth: nat,
    finalUrl: Option<Url>, canonical: Option<Url>, nofollow: bool, links: seq<Url>)

  datatype Config = Config(
    fetch: Url -> Option<Response>,
    normalize: (Url, Option<Url>) -> Option<Url>,
    allowed: Url -> bool,
    discoveryLimit: nat,
    batchSize: nat)

  /**
   `records` with its insertion order; `resolved` remembers, for the statement of the theorems only, which
   addresses were checked and under which key each of them ended.
   */
  datatype State = State(
    candidates: map<Url, Candidate>,
    queue: seq<Url>,
    records: map<Url, Record>,
    order: seq<Url>,
    truncated: bool,
    resolved: set<(Url, Url)>)

  /** Before the first offer. */
  const EMPTY_STATE: State := State(map[], [], map[], [], false, {})

  const MAX_CRAWL_DEPTH: nat := 100

  /** `for source in extra: if source not in sources: sources.append(source)`. */
  function MergeSources(sources: seq<Source>, extra: seq<Source>): (r: seq<Source>)
    ensures sources <= r
    ensures Elements(r) == Elements(sources) + Elements(extra)
    ensures Distinct(sources) ==> Distinct(r)
  {
    if extra == [] then sources
    else
      var before := MergeSources(sources, extra[..|extra| - 1]);
      var s := extra[|extra| - 1];
      assert Elements(extra) == Elements(extra[..|extra| - 1]) + {s} by {
        ElementsOfAppend(extra[..|extra| - 1], s);
        assert extra == extra[..|extra| - 1] + [s];
      }
      assert Elements(before + [s]) == Elements(before) + {s} by {
        ElementsOfAppend(before, s);
      }
      if s in before then before else before + [s]
  }

  // ---------------------------------------------------------------- add_candidate

  /** The address a raw link is admitted under, if it is admitted at all. */
  function Admit(cfg: Config, raw: Url, base: Option<Url>, source: Source): Option<Url> {
    match cfg.normalize(raw, base)
    case None => None
    case Some(u) => if source != Seed && !cfg.allowed(u) then None else Some(u)
  }

  /** The address already has a record, which gains a source. */
  function NoteSource(st: State, u: Url, source: Source): State
    requires u in st.records
  {
    var current := st.records[u];
    st.(records := st.records[u := current.(sources := MergeSources(current.sources, [source]))])
  }

  /** The address is already waiting. */
  function UpdateCandidate(st: State, u: Url, source: Source, depth: nat, prefetched: Option<Response>): State
    requires u in st.candidates
  {
    var current := st.candidates[u];
    st.(candidates := st.candidates[u := Candidate(
      current.url,
      MergeSources(current.sources, [source]),
      Min(current.depth, depth),
      if prefetched.Some? then prefetched else current.prefetched)])
  }

  /** A new address joins the candidates and the queue. */
  function Enqueue(st: State, u: Url, source: Source, depth: nat, prefetched: Option<Response>): State {
    st.(candidates := st.candidates[u := Candidate(u, [source], depth, prefetched)], queue := st.queue + [u])
  }

  function Add(cfg: Config, st: State, raw: Url, base: Option<Url>, source: Source, depth: nat,
               prefetched: Option<Response>): (r: (State, bool))
  {
    match Admit(cfg, raw, base, source)
    case None => (st, false)
    case Some(u) =>
      if u in st.records then (NoteSource(st, u, source), true)
      else if u in st.candidates then (UpdateCandidate(st, u, source, depth, prefetched), true)
      else if |st.records| + |st.candidates| >= cfg.discoveryLimit then (st.(truncated := true), false)
      else (Enqueue(st, u, source, depth, prefetched), true)
  }

  // ---------------------------------------------------------------- checking one page

  /** Only the links of a truncated body are used. */
  function ReadStructure(r: Response): Structure {
    if r.truncated then Structure(None, false, r.structure.links) else r.structure
  }

  function ResponseFor(cfg: Config, c: Candidate): Option<Response> {
    if c.prefetched.Some? then c.prefetched else cfg.fetch(c.url)
  }

  /** `_check_candidate`; a record deeper than the schema allows raises, which `None` stands for. */
  function Check(cfg: Config, c: Candidate): Option<Record> {
    if c.depth > MAX_CRAWL_DEPTH then None
    else
      match ResponseFor(cfg, c)
      case None => Some(Record(c.url, c.sources, c.depth, None, None, false, []))
      case Some(r) =>
        var s := ReadStructure(r);
        Some(Record(c.url, c.sources, c.depth, Some(r.finalUrl), s.canonical, s.nofollow, s.links))
  }

  /** The canonical address a plain fetch of `u` declares. */
  function CanonicalOf(cfg: Config, u: Url): Option<Url> {
    match cfg.fetch(u)
    case None => None
    case Some(r) => ReadStructure(r).canonical
  }

  // ---------------------------------------------------------------- recording one checked page

  function ChosenUrl(c: Candidate, record: Record): Url {
    if Seed !in c.sources && record.canonical.Some? then record.canonical.value else c.url
  }

  predicate Followed(record: Record) {
    record.finalUrl.Some? && !record.nofollow
  }

  /** `add_candidate` for one link of a newly recorded page. */
  function AddLink(cfg: Config, st: State, record: Record, k: nat): (r: (State, bool))
    requires k < |record.links|
  {
    Add(cfg, st, record.links[k], record.finalUrl, InternalLink, record.depth + 1, None)
  }

  /** `add_candidate` for the first `k` links. */
  function AddLinks(cfg: Config, st: State, record: Record, k: nat): (r: State)
    requires k <= |record.links|
  {
    if k == 0 then st
    else AddLink(cfg, AddLinks(cfg, st, record, k - 1), record, k - 1).0
  }

  /** The candidate waiting under the chosen address, which the merge removes. */
  function PendingAlias(st: State, c: Candidate, chosen: Url): Option<Candidate> {
    if chosen != c.url && chosen in st.candidates then Some(st.candidates[chosen]) else None
  }

  function MergedSources(c: Candidate, alias: Option<Candidate>): seq<Source> {
    if alias.Some? then MergeSources(c.sources, alias.value.sources) else c.sources
  }

  function MergedDepth(c: Candidate, alias: Option<Candidate>): nat {
    if alias.Some? then Min(c.depth, alias.value.depth) else c.depth
  }

  /** `candidates.pop(chosen_url, None)` for a page recorded under another address. */
  function DropAlias(st: State, c: Candidate, chosen: Url): State {
    if PendingAlias(st, c, chosen).Some? then st.(candidates := st.candidates - {chosen}) else st
  }

  /** The chosen address already has a record: merge sources and depth, add no links. */
  function MergeRecord(st: State, c: Candidate, chosen: Url, sources: seq<Source>, depth: nat): State
    requires chosen in st.records
  {
    var existing := st.records[chosen];
    st.(records := st.records[chosen := existing.(
          sources := MergeSources(existing.sources, sources),
          depth := Min(existing.depth, depth))],
        resolved := st.resolved + {(c.url, chosen)})
  }

  function InsertRecord(st: State, c: Candidate, chosen: Url, record: Record): State {
    st.(records := st.records[chosen := record],
        order := st.order + [chosen],
        resolved := st.resolved + {(c.url, chosen)})
  }

  /** The body of `for checked in checked_batch`, up to the loop over links. */
  function Enter(st: State, c: Candidate, record: Record): (r: State) {
    var chosen := ChosenUrl(c, record);
    var alias := PendingAlias(st, c, chosen);
    var sources, depth := MergedSources(c, alias), MergedDepth(c, alias);
    var st1 := DropAlias(st, c, chosen);
    if chosen in st.records then MergeRecord(st1, c, chosen, sources, depth)
    else InsertRecord(st1, c, chosen, record.(url := chosen, sources := sources, depth := depth))
  }

  function Settle(cfg: Config, st: State, c: Candidate, record: Record): (r: State) {
    var chosen := ChosenUrl(c, record);
    var entered := Enter(st, c, record);
    if chosen in st.records || !Followed(record) then entered
    else AddLinks(cfg, entered, entered.records[chosen], |record.links|)
  }

  function SettleAll(cfg: Config, st: State, batch: seq<Candidate>, k: nat): (r: State)
    requires k <= |batch| && forall c | c in batch :: Check(cfg, c).Some?
  {
    if k == 0 then st
    else Settle(cfg, SettleAll(cfg, st, batch, k - 1), batch[k - 1], Check(cfg, batch[k - 1]).value)
  }

  // ---------------------------------------------------------------- taking a batch

  /** One `queue.popleft()` with its `candidates.pop(url, None)`. */
  function Pop(st: State): (r: (State, Option<Candidate>))
    requires st.queue != []
  {
    var u := st.queue[0];
    (st.(queue := st.queue[1..], candidates := st.candidates - {u}),
     if u in st.candidates then Some(st.candidates[u]) else None)
  }

  function TakeBatch(st: State, room: nat): (r: (State, seq<Candidate>))
    ensures |r.1| <= room
    ensures |r.0.queue| <= |st.queue| && (st.queue != [] && room > 0 ==> |r.0.queue| < |st.queue|)
    ensures r.0.records == st.records
    decreases |st.queue|
  {
    if st.queue == [] || room == 0 then (st, [])
    else
      var (next, candidate) := Pop(st);
      if candidate.Some? then
        var (rest, batch) := TakeBatch(next, room - 1);
        (rest, [candidate.value] + batch)
      else TakeBatch(next, room)
  }

  // ---------------------------------------------------------------- the invariant

  ghost predicate Flying(inflight: seq<Candidate>, u: Url) {
    exists i :: 0 <= i < |inflight| && inflight[i].url == u
  }

  ghost predicate Resolved(st: State, u: Url) {
    exists k :: (u, k) in st.resolved
  }

  /** The address has been recorded, is waiting, is being checked, or was checked under another address. */
  ghost predicate Covered(st: State, inflight: seq<Candidate>, u: Url) {
    u in st.records || u in st.candidates || Resolved(st, u) || Flying(inflight, u)
  }

  ghost predicate GoodCandidate(c: Candidate) {
    c.sources != [] && Distinct(c.sources) && (c.prefetched.Some? ==> Seed in c.sources)
  }

  /** Every admitted link of the recorded page is covered. */
  ghost predicate LinksCovered(cfg: Config, st: State, inflight: seq<Candidate>, record: Record) {
    Followed(record) ==>
      forall l | l in record.links :: LinkCovered(cfg, st, inflight, record, l)
  }

  ghost predicate LinkCovered(cfg: Config, st: State, inflight: seq<Candidate>, record: Record, link: Url) {
    var u := Admit(cfg, link, record.finalUrl, InternalLink);
    u.Some? ==> Covered(st, inflight, u.value)
  }

  /** Every waiting candidate is filed under its own address and has a place in the queue. */
  ghost predicate CandidatesGood(st: State) {
    forall u | u in st.candidates :: st.candidates[u].url == u && u in st.queue && GoodCandidate(st.candidates[u])
  }

  /** Every record is filed under its own address. */
  ghost predicate RecordsGood(st: State) {
    && (forall k | k in st.records ::
          st.records[k].url == k && st.records[k].sources != [] && Distinct(st.records[k].sources))
    && Distinct(st.order) && Elements(st.order) == st.records.Keys
  }

  /** Every record comes from a checked address, under that address or the canonical one it declared. */
  ghost predicate Provenance(cfg: Config, st: State) {
    && (forall u, k | (u, k) in st.resolved :: k in st.records && (k == u || CanonicalOf(cfg, u) == Some(k)))
    && (forall k | k in st.records :: exists u :: (u, k) in st.resolved)
  }

  ghost predicate Tables(cfg: Config, st: State) {
    CandidatesGood(st) && RecordsGood(st) && Provenance(cfg, st)
  }

  /** Room: in-flight pages are the only reason the tables can pass the discovery limit. */
  ghost predicate Bounded(cfg: Config, st: State, inflight: nat) {
    && inflight <= cfg.batchSize
    && |st.records| + |st.candidates| + inflight <= cfg.discoveryLimit + cfg.batchSize - 1
  }

  /** Unless the limit was hit, the links of every followed record, other than `but`, are covered. */
  ghost predicate Closed(cfg: Config, st: State, inflight: seq<Candidate>, but: Option<Url>) {
    !st.truncated ==>
      forall k | k in st.records && but != Some(k) :: LinksCovered(cfg, st, inflight, st.records[k])
  }

  ghost predicate GoodBatch(inflight: seq<Candidate>) {
    forall i | 0 <= i < |inflight| :: GoodCandidate(inflight[i])
  }

  ghost predicate Invariant(cfg: Config, st: State, inflight: seq<Candidate>) {
    && Tables(cfg, st)
    && GoodBatch(inflight)
    && Bounded(cfg, st, |inflight|)
    && Closed(cfg, st, inflight, None)
  }

  // ---------------------------------------------------------------- coverage only grows

  ghost predicate Keeps(st: State, inflight: seq<Candidate>, st': State, inflight': seq<Candidate>) {
    forall u :: Covered(st, inflight, u) ==> Covered(st', inflight', u)
  }

  /** Records keep their key, their links and where those links are read from. */
  ghost predicate SamePages(st: State, st': State) {
    && st.records.Keys <= st'.records.Keys
    && (forall k | k in st.records ::
          && st'.records[k].links == st.records[k].links
          && st'.records[k].finalUrl == st.records[k].finalUrl
          && st'.records[k].nofollow == st.records[k].nofollow)
  }

  lemma ClosedCarries(cfg: Config, st: State, inflight: seq<Candidate>, st': State, inflight': seq<Candidate>,
          but: Option<Url>)
    requires Closed(cfg, st, inflight, but) && Keeps(st, inflight, st', inflight') && SamePages(st, st')
    requires st.truncated ==> st'.truncated
    ensures !st'.truncated ==>
              forall k | k in st.records && but != Some(k) :: LinksCovered(cfg, st', inflight', st'.records[k])
  {
    if !st'.truncated {
      forall k | k in st.records && but != Some(k) ensures LinksCovered(cfg, st', inflight', st'.records[k]) {
        assert LinksCovered(cfg, st, inflight, st.records[k]);
        forall l | l in st'.records[k].links &&
              Followed(st'.records[k]) ensures LinkCovered(cfg, st', inflight', st'.records[k], l) {
          assert LinkCovered(cfg, st, inflight, st.records[k], l);
        }
      }
    }
  }

  // ---------------------------------------------------------------- the four outcomes of add_candidate

  /** What every outcome of `add_candidate` guarantees. */
  ghost predicate Added(cfg: Config, st: State, st': State, inflight: seq<Candidate>, but: Option<Url>) {
    && Tables(cfg, st') && Bounded(cfg, st', |inflight|) && Closed(cfg, st', inflight, but)
    && Keeps(st, inflight, st', inflight) && SamePages(st, st') && st'.records.Keys == st.records.Keys
    && (st.truncated ==> st'.truncated)
  }

  ghost predicate Ready(cfg: Config, st: State, inflight: seq<Candidate>, but: Option<Url>) {
    Tables(cfg, st) && Bounded(cfg, st, |inflight|) && |inflight| < cfg.batchSize && Closed(cfg, st, inflight, but)
  }

  lemma AddedWhenTables(cfg: Config, st: State, st': State, inflight: seq<Candidate>, but: Option<Url>)
    requires Ready(cfg, st, inflight, but)
    requires Tables(cfg, st') && Bounded(cfg, st', |inflight|)
    requires SamePages(st, st') && st'.records.Keys == st.records.Keys && st'.resolved == st.resolved
    requires st.candidates.Keys <= st'.candidates.Keys && (st.truncated ==> st'.truncated)
    ensures Added(cfg, st, st', inflight, but)
  {
    assert Keeps(st, inflight, st', inflight);
    ClosedCarries(cfg, st, inflight, st', inflight, but);
  }

  lemma NoteSourceKeepsTables(cfg: Config, st: State, u: Url, source: Source)
    requires Tables(cfg, st) && u in st.records
    ensures Tables(cfg, NoteSource(st, u, source))
  {
    hide CanonicalOf, GoodCandidate;
    var st' := NoteSource(st, u, source);
    assert st'.records.Keys == st.records.Keys;
  }

  lemma NoteSourceKeeps(cfg: Config, st: State, u: Url, source: Source, inflight: seq<Candidate>, but: Option<Url>)
    requires Ready(cfg, st, inflight, but) && u in st.records
    ensures Added(cfg, st, NoteSource(st, u, source), inflight, but) && Covered(NoteSource(st, u, source), inflight, u)
  {
    hide NoteSource, Tables, SamePages, Closed, Keeps;
    NoteSourceKeepsTables(cfg, st, u, source);
    NoteSourceKeepsPages(st, u, source);
    AddedWhenTables(cfg, st, NoteSource(st, u, source), inflight, but);
  }

  lemma NoteSourceKeepsPages(st: State, u: Url, source: Source)
    requires u in st.records
    ensures var st' := NoteSource(st, u, source);
      && SamePages(st, st') && st'.records.Keys == st.records.Keys && |st'.records| == |st.records|
      && st'.candidates == st.candidates && st'.resolved == st.resolved && st'.truncated == st.truncated
  {
    hide MergeSources;
    var st' := NoteSource(st, u, source);
    assert st'.records.Keys == st.records.Keys;
    assert |st'.records| == |st'.records.Keys| && |st.records| == |st.records.Keys|;
  }

  lemma UpdateCandidateKeeps(cfg: Config, st: State, u: Url, source: Source, depth: nat, prefetched: Option<Response>,
                             inflight: seq<Candidate>, but: Option<Url>)
    requires Ready(cfg, st, inflight, but) && u in st.candidates && (prefetched.Some? ==> source == Seed)
    ensures Added(cfg, st, UpdateCandidate(st, u, source, depth, prefetched), inflight, but) &&
          Covered(UpdateCandidate(st, u, source, depth, prefetched), inflight, u)
  {
    var st' := UpdateCandidate(st, u, source, depth, prefetched);
    var before, after := st.candidates[u].sources, st'.candidates[u].sources;
    assert source in [source];
    assert Seed in before || source == Seed ==> Seed in Elements(after);
    assert GoodCandidate(st'.candidates[u]);
    assert st'.candidates.Keys == st.candidates.Keys;
    AddedWhenTables(cfg, st, st', inflight, but);
  }

  lemma EnqueueKeeps(cfg: Config, st: State, u: Url, source: Source, depth: nat, prefetched: Option<Response>,
                     inflight: seq<Candidate>, but: Option<Url>)
    requires Ready(cfg, st, inflight, but) && u !in st.candidates && (prefetched.Some? ==> source == Seed)
    requires |st.records| + |st.candidates| < cfg.discoveryLimit
    ensures Added(cfg, st, Enqueue(st, u, source, depth, prefetched), inflight, but) &&
          Covered(Enqueue(st, u, source, depth, prefetched), inflight, u)
  {
    var st' := Enqueue(st, u, source, depth, prefetched);
    AddedWhenTables(cfg, st, st', inflight, but);
  }

  lemma OverflowKeeps(cfg: Config, st: State, inflight: seq<Candidate>, but: Option<Url>)
    requires Ready(cfg, st, inflight, but)
    ensures Added(cfg, st, st.(truncated := true), inflight, but) && Added(cfg, st, st, inflight, but)
  {
    AddedWhenTables(cfg, st, st.(truncated := true), inflight, but);
    AddedWhenTables(cfg, st, st, inflight, but);
  }

  /** `true` means the address is covered; `false` for an admissible address means the limit was hit. */
  ghost predicate AddGuarantee(cfg: Config, st: State, u: Option<Url>, r: (State, bool), inflight: seq<Candidate>,
        but: Option<Url>) {
    && Added(cfg, st, r.0, inflight, but)
    && (r.1 || r.0.truncated || u.None?)
    && (r.1 ==> u.Some? && Covered(r.0, inflight, u.value))
  }

  /** Admitting an address keeps the invariant, loses no coverage, and covers the address when it says so. */
  lemma AddKeeps(cfg: Config, st: State, raw: Url, base: Option<Url>, source: Source, depth: nat,
                 prefetched: Option<Response>, inflight: seq<Candidate>, but: Option<Url>)
    requires Ready(cfg, st, inflight, but) && (prefetched.Some? ==> source == Seed)
    ensures AddGuarantee(cfg, st, Admit(cfg, raw, base, source), Add(cfg, st, raw, base, source, depth, prefetched),
          inflight, but)
  {
    hide Added, Ready, Covered, NoteSource, UpdateCandidate, Enqueue;
    match Admit(cfg, raw, base, source)
    case None => OverflowKeeps(cfg, st, inflight, but);
    case Some(u) =>
      if u in st.records {
        NoteSourceKeeps(cfg, st, u, source, inflight, but);
      } else if u in st.candidates {
        UpdateCandidateKeeps(cfg, st, u, source, depth, prefetched, inflight, but);
      } else if |st.records| + |st.candidates| >= cfg.discoveryLimit {
        OverflowKeeps(cfg, st, inflight, but);
      } else {
        EnqueueKeeps(cfg, st, u, source, depth, prefetched, inflight, but);
      }
  }

  ghost predicate FirstLinksCovered(cfg: Config, st: State, inflight: seq<Candidate>, record: Record, k: nat)
    requires k <= |record.links|
  {
    !st.truncated ==> forall j | 0 <= j < k :: LinkCovered(cfg, st, inflight, record, record.links[j])
  }

  lemma AddedTrans(cfg: Config, a: State, b: State, c: State, inflight: seq<Candidate>, but: Option<Url>)
    requires Added(cfg, a, b, inflight, but) && Added(cfg, b, c, inflight, but)
    ensures Added(cfg, a, c, inflight, but)
  {
  }

  lemma FirstLinksCarry(cfg: Config, st: State, st': State, inflight: seq<Candidate>, record: Record, k: nat)
    requires k <= |record.links| && FirstLinksCovered(cfg, st, inflight, record, k)
    requires Keeps(st, inflight, st', inflight) && (st.truncated ==> st'.truncated)
    ensures FirstLinksCovered(cfg, st', inflight, record, k)
  {
    if !st'.truncated {
      forall j | 0 <= j < k ensures LinkCovered(cfg, st', inflight, record, record.links[j]) {
        assert LinkCovered(cfg, st, inflight, record, record.links[j]);
      }
    }
  }

  lemma {:induction false} AddLinksKeeps(cfg: Config, st: State, record: Record, k: nat, inflight: seq<Candidate>,
        but: Option<Url>)
    requires Ready(cfg, st, inflight, but) && k <= |record.links|
    ensures Added(cfg, st, AddLinks(cfg, st, record, k), inflight, but)
    ensures FirstLinksCovered(cfg, AddLinks(cfg, st, record, k), inflight, record, k)
  {
    if k == 0 {
      hide AddLink;
      OverflowKeeps(cfg, st, inflight, but);
    } else {
      hide AddLink, Added, Ready, FirstLinksCovered;
      AddLinksKeeps(cfg, st, record, k - 1, inflight, but);
      var before := AddLinks(cfg, st, record, k - 1);
      AddedIsReady(cfg, st, before, inflight, but);
      AddOneLink(cfg, before, record, k, inflight, but);
      AddedTrans(cfg, st, before, AddLink(cfg, before, record, k - 1).0, inflight, but);
    }
  }

  lemma AddedIsReady(cfg: Config, st: State, st': State, inflight: seq<Candidate>, but: Option<Url>)
    requires Ready(cfg, st, inflight, but) && Added(cfg, st, st', inflight, but)
    ensures Ready(cfg, st', inflight, but)
  {
    hide Tables, Bounded, Closed, Keeps, SamePages;
  }

  lemma AddOneLink(cfg: Config, st: State, record: Record, k: nat, inflight: seq<Candidate>, but: Option<Url>)
    requires Ready(cfg, st, inflight, but) && 0 < k <= |record.links| &&
             FirstLinksCovered(cfg, st, inflight, record, k - 1)
    ensures Added(cfg, st, AddLink(cfg, st, record, k - 1).0, inflight, but)
    ensures FirstLinksCovered(cfg, AddLink(cfg, st, record, k - 1).0, inflight, record, k)
  {
    hide Add, Added, Ready, AddGuarantee, FirstLinksCovered, LinkCovered;
    var r := AddLink(cfg, st, record, k - 1);
    AddKeeps(cfg, st, record.links[k - 1], record.finalUrl, InternalLink, record.depth + 1, None, inflight, but);
    GuaranteeCoversLink(cfg, st, record, k - 1, r, inflight, but);
    FirstLinksCarry(cfg, st, r.0, inflight, record, k - 1);
    LastLinkCovered(cfg, r.0, inflight, record, k);
  }

  lemma GuaranteeCoversLink(cfg: Config, st: State, record: Record, j: nat, r: (State, bool), inflight: seq<Candidate>,
        but: Option<Url>)
    requires j < |record.links|
    requires AddGuarantee(cfg, st, Admit(cfg, record.links[j], record.finalUrl, InternalLink), r, inflight, but)
    ensures Added(cfg, st, r.0, inflight, but)
    ensures r.0.truncated || LinkCovered(cfg, r.0, inflight, record, record.links[j])
  {
  }

  lemma LastLinkCovered(cfg: Config, st: State, inflight: seq<Candidate>, record: Record, k: nat)
    requires 0 < k <= |record.links| && FirstLinksCovered(cfg, st, inflight, record, k - 1)
    requires st.truncated || LinkCovered(cfg, st, inflight, record, record.links[k - 1])
    ensures FirstLinksCovered(cfg, st, inflight, record, k)
  {
  }

  // ---------------------------------------------------------------- recording keeps the invariant

  lemma DropAliasKeeps(cfg: Config, st: State, c: Candidate, chosen: Url)
    requires Tables(cfg, st)
    ensures var st' := DropAlias(st, c, chosen);
            Tables(cfg, st') && |st'.candidates| <= |st.candidates|
            && forall u | u in st.candidates :: u in st'.candidates || u == chosen
  {
    if PendingAlias(st, c, chosen).Some? {
      RemoveOne(st.candidates, chosen);
    }
  }

  lemma RemoveOne(m: map<Url, Candidate>, u: Url)
    requires u in m
    ensures |m - {u}| == |m| - 1
  {
    var rest := m - {u};
    assert m == rest[u := m[u]];
  }

  lemma MergeRecordKeeps(cfg: Config, st: State, c: Candidate, chosen: Url, sources: seq<Source>, depth: nat)
    requires Tables(cfg, st) && chosen in st.records
    requires chosen == c.url || CanonicalOf(cfg, c.url) == Some(chosen)
    ensures Tables(cfg, MergeRecord(st, c, chosen, sources, depth))
  {
    var st' := MergeRecord(st, c, chosen, sources, depth);
    assert st'.records.Keys == st.records.Keys;
    ResolvedGrows(cfg, st, st', c.url, chosen);
  }

  lemma InsertRecordKeeps(cfg: Config, st: State, c: Candidate, chosen: Url, record: Record)
    requires Tables(cfg, st) && chosen !in st.records
    requires chosen == c.url || CanonicalOf(cfg, c.url) == Some(chosen)
    requires record.url == chosen && record.sources != [] && Distinct(record.sources)
    ensures Tables(cfg, InsertRecord(st, c, chosen, record))
  {
    var st' := InsertRecord(st, c, chosen, record);
    assert chosen !in Elements(st.order);
    ElementsOfAppend(st.order, chosen);
    assert RecordsGood(st');
    ResolvedGrows(cfg, st, st', c.url, chosen);
  }

  lemma ResolvedGrows(cfg: Config, st: State, st': State, u: Url, chosen: Url)
    requires Provenance(cfg, st) && (chosen == u || CanonicalOf(cfg, u) == Some(chosen))
    requires st'.records.Keys == st.records.Keys + {chosen} && st'.resolved == st.resolved + {(u, chosen)}
    ensures Provenance(cfg, st')
  {
    forall k | k in st'.records ensures exists v :: (v, k) in st'.resolved {
      if k == chosen {
        assert (u, chosen) in st'.resolved;
      } else {
        var v :| (v, k) in st.resolved;
        assert (v, k) in st'.resolved;
      }
    }
  }

  lemma EnterKeepsTables(cfg: Config, st: State, c: Candidate, record: Record)
    requires Tables(cfg, st) && GoodCandidate(c) && Check(cfg, c) == Some(record)
    ensures Tables(cfg, Enter(st, c, record))
  {
    var chosen := ChosenUrl(c, record);
    var alias := PendingAlias(st, c, chosen);
    var sources, depth := MergedSources(c, alias), MergedDepth(c, alias);
    assert sources != [] && Distinct(sources);
    assert chosen != c.url ==> CanonicalOf(cfg, c.url) == Some(chosen);
    DropAliasKeeps(cfg, st, c, chosen);
    if chosen in st.records {
      MergeRecordKeeps(cfg, DropAlias(st, c, chosen), c, chosen, sources, depth);
    } else {
      InsertRecordKeeps(cfg, DropAlias(st, c, chosen), c, chosen,
                        record.(url := chosen, sources := sources, depth := depth));
    }
  }

  lemma EnterKeepsCoverage(cfg: Config, st: State, c: Candidate, record: Record, rest: seq<Candidate>, u: Url)
    requires Tables(cfg, st) && Check(cfg, c) == Some(record) && Covered(st, [c] + rest, u)
    ensures Covered(Enter(st, c, record), rest, u)
  {
    var st' := Enter(st, c, record);
    assert (c.url, ChosenUrl(c, record)) in st'.resolved;
    if Flying([c] + rest, u) {
      var i :| 0 <= i < |[c] + rest| && ([c] + rest)[i].url == u;
      if i > 0 {
        assert rest[i - 1].url == u;
      }
    } else if Resolved(st, u) {
      var k :| (u, k) in st.resolved;
      assert (u, k) in st'.resolved;
    } else if u in st.candidates {
      DropAliasKeeps(cfg, st, c, ChosenUrl(c, record));
    }
  }

  lemma EnterKeepsBounds(cfg: Config, st: State, c: Candidate, record: Record, rest: seq<Candidate>)
    requires Tables(cfg, st) && Bounded(cfg, st, |[c] + rest|)
    ensures Bounded(cfg, Enter(st, c, record), |rest|) && |rest| < cfg.batchSize
  {
    DropAliasKeeps(cfg, st, c, ChosenUrl(c, record));
    var chosen := ChosenUrl(c, record);
    if chosen in st.records {
      assert Enter(st, c, record).records.Keys == st.records.Keys;
    }
  }

  /** Entering a checked page: the page leaves the air, the tables stay within bounds, nothing loses coverage. */
  lemma EnterKeeps(cfg: Config, st: State, c: Candidate, record: Record, rest: seq<Candidate>)
    requires Invariant(cfg, st, [c] + rest) && Check(cfg, c) == Some(record)
    ensures var chosen := ChosenUrl(c, record);
            && Ready(cfg, Enter(st, c, record), rest, if chosen in st.records then None else Some(chosen))
            && Keeps(st, [c] + rest, Enter(st, c, record), rest)
  {
    TailGood(c, rest);
    EnterKeepsTables(cfg, st, c, record);
    EnterKeepsBounds(cfg, st, c, record, rest);
    EnterKeepsAllCoverage(cfg, st, c, record, rest);
    EnterKeepsClosed(cfg, st, c, record, rest);
  }

  lemma EnterKeepsAllCoverage(cfg: Config, st: State, c: Candidate, record: Record, rest: seq<Candidate>)
    requires Tables(cfg, st) && Check(cfg, c) == Some(record)
    ensures Keeps(st, [c] + rest, Enter(st, c, record), rest)
  {
    forall u | Covered(st, [c] + rest, u) ensures Covered(Enter(st, c, record), rest, u) {
      EnterKeepsCoverage(cfg, st, c, record, rest, u);
    }
  }

  lemma EnterKeepsClosed(cfg: Config, st: State, c: Candidate, record: Record, rest: seq<Candidate>)
    requires Closed(cfg, st, [c] + rest, None) && Keeps(st, [c] + rest, Enter(st, c, record), rest)
    ensures var chosen := ChosenUrl(c, record);
            Closed(cfg, Enter(st, c, record), rest, if chosen in st.records then None else Some(chosen))
  {
    hide Enter, LinksCovered, Keeps;
    var st' := Enter(st, c, record);
    EnterKeepsPages(st, c, record);
    EnterProgress(st, c, record);
    ClosedCarries(cfg, st, [c] + rest, st', rest, None);
  }

  lemma EnterKeepsPages(st: State, c: Candidate, record: Record)
    ensures SamePages(st, Enter(st, c, record)) && Enter(st, c, record).truncated == st.truncated
  {
    hide MergeSources, MergedSources;
  }

  lemma EnterProgress(st: State, c: Candidate, record: Record)
    ensures Enter(st, c, record).queue == st.queue
    ensures Enter(st, c, record).records.Keys == st.records.Keys + {ChosenUrl(c, record)}
  {
    hide MergeSources, MergedSources;
  }

  lemma TailGood(c: Candidate, rest: seq<Candidate>)
    requires GoodBatch([c] + rest)
    ensures GoodCandidate(c) && GoodBatch(rest)
  {
    assert ([c] + rest)[0] == c;
    forall i | 0 <= i < |rest| ensures GoodCandidate(rest[i]) {
      assert ([c] + rest)[i + 1] == rest[i];
    }
  }

  /** Recording one checked page of a batch keeps the invariant for the pages still in flight. */
  lemma SettleKeeps(cfg: Config, st: State, c: Candidate, rest: seq<Candidate>)
    requires Invariant(cfg, st, [c] + rest) && Check(cfg, c).Some?
    ensures Invariant(cfg, Settle(cfg, st, c, Check(cfg, c).value), rest)
    ensures Keeps(st, [c] + rest, Settle(cfg, st, c, Check(cfg, c).value), rest)
  {
    var record := Check(cfg, c).value;
    var chosen := ChosenUrl(c, record);
    var entered := Enter(st, c, record);
    TailGood(c, rest);
    EnterKeeps(cfg, st, c, record, rest);
    if chosen !in st.records && Followed(record) {
      var mine := entered.records[chosen];
      AddLinksKeeps(cfg, entered, mine, |record.links|, rest, Some(chosen));
      NewRecordClosed(cfg, entered, AddLinks(cfg, entered, mine, |record.links|), rest, chosen);
    }
  }

  /** Once all its links were offered, the new record joins the closure. */
  lemma NewRecordClosed(cfg: Config, entered: State, st': State, rest: seq<Candidate>, chosen: Url)
    requires chosen in entered.records
    requires Added(cfg, entered, st', rest, Some(chosen))
    requires FirstLinksCovered(cfg, st', rest, entered.records[chosen], |entered.records[chosen].links|)
    ensures Closed(cfg, st', rest, None)
  {
    var mine := entered.records[chosen];
    if !st'.truncated {
      forall l | l in st'.records[chosen].links ensures LinkCovered(cfg, st', rest, st'.records[chosen], l) {
        var j :| 0 <= j < |mine.links| && mine.links[j] == l;
        assert LinkCovered(cfg, st', rest, mine, mine.links[j]);
      }
    }
  }

  // ---------------------------------------------------------------- progress

  lemma AddKeepsRecordKeys(cfg: Config, st: State, record: Record, k: nat)
    requires k < |record.links|
    ensures AddLink(cfg, st, record, k).0.records.Keys == st.records.Keys
  {
    hide MergeSources, Admit;
  }

  lemma {:induction false} AddLinksKeepRecords(cfg: Config, st: State, record: Record, k: nat)
    requires k <= |record.links|
    ensures AddLinks(cfg, st, record, k).records.Keys == st.records.Keys
  {
    hide AddLink;
    if k > 0 {
      AddLinksKeepRecords(cfg, st, record, k - 1);
      AddKeepsRecordKeys(cfg, AddLinks(cfg, st, record, k - 1), record, k - 1);
    }
  }

  lemma MoreKeys<K, V>(m: map<K, V>, n: map<K, V>, k: K)
    requires n.Keys == m.Keys + {k}
    ensures |n| == if k in m then |m| else |m| + 1
  {
    assert |n| == |n.Keys| && |m| == |m.Keys|;
    if k in m {
      assert n.Keys == m.Keys;
    }
  }

  /** A page either becomes a new record or is merged, and a merge queues nothing. */
  lemma SettleProgress(cfg: Config, st: State, c: Candidate, record: Record)
    ensures |Settle(cfg, st, c, record).records| ==
            if ChosenUrl(c, record) in st.records then |st.records| else |st.records| + 1
    ensures ChosenUrl(c, record) in st.records ==> Settle(cfg, st, c, record).queue == st.queue
  {
    var chosen := ChosenUrl(c, record);
    hide Admit;
    var entered := Enter(st, c, record);
    EnterProgress(st, c, record);
    MoreKeys(st.records, entered.records, chosen);
    if chosen !in st.records && Followed(record) {
      assert entered.records[chosen].links == record.links;
      AddLinksKeepRecords(cfg, entered, entered.records[chosen], |record.links|);
      var after := AddLinks(cfg, entered, entered.records[chosen], |record.links|);
      assert |after.records| == |after.records.Keys| == |entered.records|;
    }
  }

  predicate AllChecked(cfg: Config, batch: seq<Candidate>) {
    forall c | c in batch :: Check(cfg, c).Some?
  }

  lemma {:induction false} SettleAllProgress(cfg: Config, st: State, batch: seq<Candidate>, k: nat)
    requires k <= |batch| && AllChecked(cfg, batch)
    ensures var st' := SettleAll(cfg, st, batch, k);
            |st.records| <= |st'.records| && (|st'.records| == |st.records| ==> st'.queue == st.queue)
  {
    hide Settle, Check;
    if k > 0 {
      SettleAllProgress(cfg, st, batch, k - 1);
      SettleProgress(cfg, SettleAll(cfg, st, batch, k - 1), batch[k - 1], Check(cfg, batch[k - 1]).value);
    }
  }

  lemma KeepsTrans(a: State, fa: seq<Candidate>, b: State, fb: seq<Candidate>, c: State, fc: seq<Candidate>)
    requires Keeps(a, fa, b, fb) && Keeps(b, fb, c, fc)
    ensures Keeps(a, fa, c, fc)
  {
  }

  lemma {:induction false} SettleAllKeeps(cfg: Config, st: State, batch: seq<Candidate>, k: nat)
    requires Invariant(cfg, st, batch) && k <= |batch| && AllChecked(cfg, batch)
    ensures Invariant(cfg, SettleAll(cfg, st, batch, k), batch[k..])
    ensures Keeps(st, batch, SettleAll(cfg, st, batch, k), batch[k..])
  {
    hide Settle, Check, Invariant, Covered;
    if k == 0 {
      assert batch[0..] == batch;
    } else {
      SettleAllKeeps(cfg, st, batch, k - 1);
      var before := SettleAll(cfg, st, batch, k - 1);
      assert batch[k - 1..] == [batch[k - 1]] + batch[k..];
      SettleKeeps(cfg, before, batch[k - 1], batch[k..]);
      KeepsTrans(st, batch, before, batch[k - 1..], SettleAll(cfg, st, batch, k), batch[k..]);
    }
  }

  // ---------------------------------------------------------------- taking a batch keeps the invariant

  lemma PopKeepsCandidates(st: State)
    requires CandidatesGood(st) && st.queue != []
    ensures CandidatesGood(Pop(st).0)
  {
  }

  lemma PopKeepsCoverage(st: State, flown: seq<Candidate>, u: Url)
    requires CandidatesGood(st) && st.queue != [] && Covered(st, flown, u)
    ensures var (st', c) := Pop(st); Covered(st', if c.Some? then flown + [c.value] else flown, u)
  {
    var (st', c) := Pop(st);
    if c.Some? {
      assert (flown + [c.value])[|flown|].url == st.queue[0];
      if i :| 0 <= i < |flown| && flown[i].url == u {
        assert (flown + [c.value])[i].url == u;
      }
    }
    if Resolved(st, u) {
      var k :| (u, k) in st.resolved;
      assert (u, k) in st'.resolved;
    }
  }

  function Flown(flown: seq<Candidate>, c: Option<Candidate>): seq<Candidate> {
    if c.Some? then flown + [c.value] else flown
  }

  lemma PopKeepsBatchGood(st: State, flown: seq<Candidate>)
    requires CandidatesGood(st) && GoodBatch(flown) && st.queue != []
    ensures GoodBatch(Flown(flown, Pop(st).1))
  {
  }

  lemma PopKeepsBounds(cfg: Config, st: State, flown: seq<Candidate>)
    requires Bounded(cfg, st, |flown|) && st.queue != [] && |flown| < cfg.batchSize
    ensures Bounded(cfg, Pop(st).0, |Flown(flown, Pop(st).1)|)
  {
    var u, st' := st.queue[0], Pop(st).0;
    RemoveKey(st.candidates, u);
    assert st'.candidates == st.candidates - {u} && st'.records == st.records;
  }

  lemma RemoveKey(m: map<Url, Candidate>, u: Url)
    ensures |m - {u}| == if u in m then |m| - 1 else |m|
  {
    if u in m {
      RemoveOne(m, u);
    } else {
      assert m - {u} == m;
    }
  }

  lemma PopKeepsAllCoverage(st: State, flown: seq<Candidate>)
    requires CandidatesGood(st) && st.queue != []
    ensures Keeps(st, flown, Pop(st).0, Flown(flown, Pop(st).1))
  {
    forall u | Covered(st, flown, u) ensures Covered(Pop(st).0, Flown(flown, Pop(st).1), u) {
      PopKeepsCoverage(st, flown, u);
    }
  }

  lemma SameRecordsKeepTables(cfg: Config, st: State, st': State)
    requires Tables(cfg, st) && CandidatesGood(st')
    requires st'.records == st.records && st'.order == st.order && st'.resolved == st.resolved
    ensures Tables(cfg, st') && SamePages(st, st')
  {
  }

  lemma PopKeeps(cfg: Config, st: State, flown: seq<Candidate>)
    requires Invariant(cfg, st, flown) && st.queue != [] && |flown| < cfg.batchSize
    ensures Invariant(cfg, Pop(st).0, Flown(flown, Pop(st).1))
    ensures Keeps(st, flown, Pop(st).0, Flown(flown, Pop(st).1))
  {
    var st', flown' := Pop(st).0, Flown(flown, Pop(st).1);
    PopKeepsCandidates(st);
    PopKeepsBatchGood(st, flown);
    PopKeepsBounds(cfg, st, flown);
    PopKeepsAllCoverage(st, flown);
    SameRecordsKeepTables(cfg, st, st');
    ClosedCarries(cfg, st, flown, st', flown', None);
  }

  /** `TakeBatch` is one `Pop` followed by the rest of the batch. */
  lemma TakeBatchUnfolds(st: State, flown: seq<Candidate>, room: nat, room': nat)
    requires st.queue != [] && room > 0 && room' == if Pop(st).1.Some? then room - 1 else room
    ensures TakeBatch(st, room).0 == TakeBatch(Pop(st).0, room').0
    ensures flown + TakeBatch(st, room).1 == Flown(flown, Pop(st).1) + TakeBatch(Pop(st).0, room').1
  {
  }

  lemma {:induction false} TakeBatchKeeps(cfg: Config, st: State, flown: seq<Candidate>, room: nat, st': State,
        flown': seq<Candidate>)
    requires Invariant(cfg, st, flown) && |flown| + room <= cfg.batchSize
    requires st' == TakeBatch(st, room).0 && flown' == flown + TakeBatch(st, room).1
    ensures Invariant(cfg, st', flown') && Keeps(st, flown, st', flown')
    decreases |st.queue|
  {
    if st.queue == [] || room == 0 {
      assert flown' == flown;
    } else {
      PopKeeps(cfg, st, flown);
      var (next, c) := Pop(st);
      var room' := if c.Some? then room - 1 else room;
      TakeBatchUnfolds(st, flown, room, room');
      TakeBatchKeeps(cfg, next, Flown(flown, c), room', st', flown');
      KeepsTrans(st, flown, next, Flown(flown, c), st', flown');
    }
  }

  // ---------------------------------------------------------------- _drain_candidates

  /**
   The drain loop. New records use up the room left under `discoveryLimit + batchSize - 1`; a turn that
   records nothing new queues nothing either and only shortens the queue. `false` stands for the exception
   raised when a page deeper than the schema allows is checked.
   */
  function Drain(cfg: Config, st: State): (r: (State, bool))
    requires Invariant(cfg, st, []) && cfg.batchSize >= 1
    decreases cfg.discoveryLimit + cfg.batchSize - |st.records|, |st.queue|
  {
    if st.queue == [] then (st, true)
    else
      var (taken, batch) := TakeBatch(st, cfg.batchSize);
      if !AllChecked(cfg, batch) then (taken, false)
      else
        var next := SettleAll(cfg, taken, batch, |batch|);
        TurnKeeps(cfg, st, taken, batch);
        Drain(cfg, next)
  }

  lemma TurnKeeps(cfg: Config, st: State, taken: State, batch: seq<Candidate>)
    requires Invariant(cfg, st, []) && cfg.batchSize >= 1 && st.queue != []
    requires (taken, batch) == TakeBatch(st, cfg.batchSize) && AllChecked(cfg, batch)
    ensures Invariant(cfg, taken, batch)
    ensures Invariant(cfg, SettleAll(cfg, taken, batch, |batch|), [])
    ensures Keeps(st, [], SettleAll(cfg, taken, batch, |batch|), [])
    ensures |st.records| <= |SettleAll(cfg, taken, batch, |batch|).records|
    ensures |SettleAll(cfg, taken, batch, |batch|).records| == |st.records| ==>
              |SettleAll(cfg, taken, batch, |batch|).queue| < |st.queue|
  {
    assert [] + batch == batch;
    TakeBatchKeeps(cfg, st, [], cfg.batchSize, taken, batch);
    assert batch[|batch|..] == [];
    SettleAllKeeps(cfg, taken, batch, |batch|);
    SettleAllProgress(cfg, taken, batch, |batch|);
    KeepsTrans(st, [], taken, batch, SettleAll(cfg, taken, batch, |batch|), []);
  }

  /** What a finished crawl has: nothing waiting, and every link of a followed record accounted for. */
  ghost predicate CrawlComplete(cfg: Config, st: State) {
    && st.queue == [] && st.candidates == map[]
    && Tables(cfg, st)
    && |st.records| <= cfg.discoveryLimit + cfg.batchSize - 1
    && (!st.truncated ==>
          forall k, l | k in st.records && Followed(st.records[k]) && l in st.records[k].links ::
            LinkEnded(cfg, st, st.records[k], l))
  }

  /** The admitted link is a key of the records, or it was fetched and its canonical address is one. */
  ghost predicate LinkEnded(cfg: Config, st: State, record: Record, link: Url) {
    var u := Admit(cfg, link, record.finalUrl, InternalLink);
    u.Some? ==> Ended(cfg, st, u.value)
  }

  ghost predicate Ended(cfg: Config, st: State, u: Url) {
    u in st.records || exists k :: (u, k) in st.resolved && k in st.records && CanonicalOf(cfg, u) == Some(k)
  }

  lemma EmptyQueueMeansNoCandidates(st: State)
    requires CandidatesGood(st) && st.queue == []
    ensures st.candidates == map[]
  {
    assert forall u :: u in st.candidates ==> u in st.queue;
  }

  lemma CoveredEnds(cfg: Config, st: State, u: Url)
    requires Tables(cfg, st) && st.candidates == map[] && Covered(st, [], u)
    ensures Ended(cfg, st, u)
  {
    if u !in st.records {
      var k :| (u, k) in st.resolved;
      assert k in st.records && CanonicalOf(cfg, u) == Some(k);
    }
  }

  /**
   Whatever the link graph, the aliases and the fetch outcomes: the drain ends, never past the true bound,
   loses no address it accepted, and leaves every followed link accounted for unless the limit was hit.
   */
  lemma {:induction false} DrainCompletes(cfg: Config, st: State)
    requires Invariant(cfg, st, []) && cfg.batchSize >= 1
    ensures var (st', ok) := Drain(cfg, st);
            ok ==> Invariant(cfg, st', []) && CrawlComplete(cfg, st') &&
                   forall u :: Covered(st, [], u) ==> Ended(cfg, st', u)
    decreases cfg.discoveryLimit + cfg.batchSize - |st.records|, |st.queue|
  {
    if st.queue == [] {
      EmptyQueueMeansNoCandidates(st);
      FinishedIsComplete(cfg, st);
    } else {
      var (taken, batch) := TakeBatch(st, cfg.batchSize);
      if AllChecked(cfg, batch) {
        TurnKeeps(cfg, st, taken, batch);
        DrainCompletes(cfg, SettleAll(cfg, taken, batch, |batch|));
      }
    }
  }

  lemma FinishedIsComplete(cfg: Config, st: State)
    requires Invariant(cfg, st, []) && st.queue == [] && st.candidates == map[]
    ensures CrawlComplete(cfg, st)
    ensures forall u :: Covered(st, [], u) ==> Ended(cfg, st, u)
  {
    forall u | Covered(st, [], u) ensures Ended(cfg, st, u) {
      CoveredEnds(cfg, st, u);
    }
    if !st.truncated {
      forall k, l | k in st.records && Followed(st.records[k]) && l in st.records[k].links
        ensures LinkEnded(cfg, st, st.records[k], l)
      {
        assert LinksCovered(cfg, st, [], st.records[k]);
        assert LinkCovered(cfg, st, [], st.records[k], l);
      }
    }
  }

  /** Between drains, offering an address keeps the invariant; on `true` the address is covered from then on. */
  lemma OfferKeeps(cfg: Config, st: State, raw: Url, source: Source, depth: nat, prefetched: Option<Response>)
    requires Invariant(cfg, st, []) && cfg.batchSize >= 1 && (prefetched.Some? ==> source == Seed)
    ensures var r := Add(cfg, st, raw, None, source, depth, prefetched);
            && Invariant(cfg, r.0, []) && Keeps(st, [], r.0, [])
            && AddGuarantee(cfg, st, Admit(cfg, raw, None, source), r, [], None)
  {
    hide Add;
    AddKeeps(cfg, st, raw, None, source, depth, prefetched, [], None);
  }

  lemma EmptyInvariant(cfg: Config)
    requires cfg.batchSize >= 1
    ensures Invariant(cfg, EMPTY_STATE, [])
  {
  }

  /** The first offer of a crawl is never refused for lack of room. */
  lemma FirstOfferTaken(cfg: Config, raw: Url, source: Source, depth: nat, prefetched: Option<Response>)
    requires cfg.discoveryLimit >= 1
    ensures var r := Add(cfg, EMPTY_STATE, raw, None, source, depth, prefetched);
            r.1 <==> Admit(cfg, raw, None, source).Some?
  {
  }

  /** The entered page's record is there; a new one carries the page's links. */
  lemma EnteredLinks(st: State, c: Candidate, record: Record)
    ensures ChosenUrl(c, record) in Enter(st, c, record).records
    ensures ChosenUrl(c, record) !in st.records ==>
              Enter(st, c, record).records[ChosenUrl(c, record)].links == record.links
  {
    hide MergeSources, MergedSources;
  }

  /** Between batches the records stay within the bound that the drain counts down to. */
  lemma RoomLeft(cfg: Config, st: State)
    requires Invariant(cfg, st, [])
    ensures |st.records| <= cfg.discoveryLimit + cfg.batchSize - 1
  {
  }
}
