/**
 `discover_sitemap_urls` of app/collectors/site_inventory_discovery.py: a bounded breadth-first search
 over sitemap files. Fetching and parsing is a function from a sitemap's address to its document,
 `None` when the fetch failed, returned an HTTP error or did not parse.
 */
module SitemapSearch {
  import opened Base

  datatype Document = Document(pageUrls: seq<Url>, childSitemaps: seq<Url>)

  datatype Limitation = SitemapUnavailable | FileLimitReached | PageLimitReached

  datatype Discovery = Discovery(pageUrls: seq<Url>, fetchedSitemaps: nat, limitations: seq<Limitation>)

  /** What the search reads of the outside world. */
  datatype Site = Site(
    document: Url -> Option<Document>,
    allowed: Url -> bool,
    canonical: Url -> Option<Url>)

  // ---------------------------------------------------------------- the graph

  function ChildrenOf(site: Site, u: Url): set<Url> {
    match site.document(u)
    case None => {}
    case Some(d) => Elements(d.childSitemaps)
  }

  /** The sitemaps at most `n` child links away from the seeds. */
  ghost function Within(site: Site, seeds: set<Url>, n: nat): set<Url> {
    if n == 0 then seeds
    else
      var before := Within(site, seeds, n - 1);
      before + set u, v | u in before && v in ChildrenOf(site, u) :: v
  }

  /** The sitemaps whose shortest chain of child links from a seed has `n` links. */
  ghost predicate AtDistance(site: Site, seeds: set<Url>, u: Url, n: nat) {
    u in Within(site, seeds, n) && (n > 0 ==> u !in Within(site, seeds, n - 1))
  }

  lemma {:induction false} WithinGrows(site: Site, seeds: set<Url>, m: nat, n: nat)
    requires m <= n
    ensures Within(site, seeds, m) <= Within(site, seeds, n)
  {
    if m < n {
      WithinGrows(site, seeds, m, n - 1);
    }
  }

  // ---------------------------------------------------------------- the seeds

  /** `normalized is not None and normalized not in {url for url, _ in queue}`. */
  function Seeds(site: Site, raw: seq<Url>): (s: seq<Url>)
    ensures Distinct(s)
  {
    if raw == [] then []
    else
      var last := raw[|raw| - 1];
      var before := Seeds(site, raw[..|raw| - 1]);
      match site.canonical(last)
      case None => before
      case Some(u) =>
        if u in before then before else before + [u]
  }

  /** The seeds are the canonical forms of the given addresses. */
  lemma {:induction false} SeedsAre(site: Site, raw: seq<Url>, u: Url)
    ensures u in Seeds(site, raw) <==> exists r :: r in raw && site.canonical(r) == Some(u)
  {
    if raw != [] {
      var front, last := raw[..|raw| - 1], raw[|raw| - 1];
      assert raw == front + [last];
      SeedsAre(site, front, u);
      if site.canonical(last) == Some(u) {
        assert last in raw;
      }
    }
  }

  // ---------------------------------------------------------------- the search invariant

  /** Queue entries: address and depth. */
  type Entry = (Url, nat)

  ghost predicate Queued(queue: seq<Entry>, u: Url) {
    exists i :: 0 <= i < |queue| && queue[i].0 == u
  }

  ghost predicate Seen(queue: seq<Entry>, level: map<Url, nat>, u: Url) {
    u in level || Queued(queue, u)
  }

  /** Distinct addresses, none of them visited, depths in order and spanning at most two levels. */
  ghost predicate QueueShape(queue: seq<Entry>, visited: set<Url>) {
    && (forall i, j | 0 <= i < j < |queue| :: queue[i].0 != queue[j].0)
    && (forall i | 0 <= i < |queue| :: queue[i].0 !in visited)
    && (forall i, j | 0 <= i < j < |queue| :: queue[i].1 <= queue[j].1)
    && (queue != [] ==> queue[|queue| - 1].1 <= queue[0].1 + 1)
  }

  /** Everything queued or visited carries its true distance; `level` records the visited ones. */
  ghost predicate TrueDistances(site: Site, seeds: set<Url>, queue: seq<Entry>, level: map<Url, nat>, maxDepth: nat) {
    && (forall i | 0 <= i < |queue| :: queue[i].1 <= maxDepth && AtDistance(site, seeds, queue[i].0, queue[i].1))
    && (forall u | u in level :: level[u] <= maxDepth && AtDistance(site, seeds, u, level[u]))
  }

  /** Children of a visited sitemap that is not at the last level are visited or queued. */
  ghost predicate Expanded(site: Site, queue: seq<Entry>, level: map<Url, nat>, maxDepth: nat, u: Url)
    requires u in level
  {
    level[u] < maxDepth ==> forall v | v in ChildrenOf(site, u) :: Seen(queue, level, v)
  }

  ghost predicate SearchInvariant(site: Site, seeds: set<Url>, queue: seq<Entry>, level: map<Url, nat>, maxDepth: nat) {
    && QueueShape(queue, level.Keys)
    && TrueDistances(site, seeds, queue, level, maxDepth)
    && (forall u {:trigger Expanded(site, queue, level, maxDepth, u)} | u in level ::
          Expanded(site, queue, level, maxDepth, u))
    && (forall u {:trigger Seen(queue, level, u)} | u in seeds :: Seen(queue, level, u))
    && (queue != [] ==> forall u | u in level :: level[u] <= queue[0].1)
  }

  /** Everything nearer than the head of the queue, and everything as near, has been seen. */
  lemma {:induction false} SeenUpToHead(site: Site, seeds: set<Url>, queue: seq<Entry>, level: map<Url, nat>,
        maxDepth: nat, n: nat)
    requires SearchInvariant(site, seeds, queue, level, maxDepth)
    requires n <= maxDepth && (queue != [] ==> n <= queue[0].1)
    ensures forall u | u in Within(site, seeds, n) :: Seen(queue, level, u)
  {
    hide Within, SearchInvariant, ChildrenOf, Seen;
    if n == 0 {
      SeedsAreSeen(site, seeds, queue, level, maxDepth);
    } else {
      SeenUpToHead(site, seeds, queue, level, maxDepth, n - 1);
      forall v | v in Within(site, seeds, n) ensures Seen(queue, level, v) {
        if v !in Within(site, seeds, n - 1) {
          var u := ParentOf(site, seeds, n, v);
          assert Seen(queue, level, u);
          ChildIsSeen(site, seeds, queue, level, maxDepth, n - 1, u, v);
        }
      }
    }
  }

  lemma SeedsAreSeen(site: Site, seeds: set<Url>, queue: seq<Entry>, level: map<Url, nat>, maxDepth: nat)
    requires SearchInvariant(site, seeds, queue, level, maxDepth)
    ensures forall u | u in Within(site, seeds, 0) :: Seen(queue, level, u)
  {
    hide Expanded, TrueDistances, QueueShape, Queued;
  }

  /** What is first reached with `n` links has a parent reached with fewer. */
  lemma ParentOf(site: Site, seeds: set<Url>, n: nat, v: Url) returns (u: Url)
    requires n > 0 && v in Within(site, seeds, n) && v !in Within(site, seeds, n - 1)
    ensures u in Within(site, seeds, n - 1) && v in ChildrenOf(site, u)
  {
    u :| u in Within(site, seeds, n - 1) && v in ChildrenOf(site, u);
  }

  lemma ChildIsSeen(site: Site, seeds: set<Url>, queue: seq<Entry>, level: map<Url, nat>, maxDepth: nat, n: nat, u: Url,
          v: Url)
    requires SearchInvariant(site, seeds, queue, level, maxDepth)
    requires n < maxDepth && (queue != [] ==> n < queue[0].1)
    requires u in Within(site, seeds, n) && Seen(queue, level, u) && v in ChildrenOf(site, u)
    ensures Seen(queue, level, v)
  {
    SeenIsVisited(site, seeds, queue, level, maxDepth, n, u);
    assert Expanded(site, queue, level, maxDepth, u);
  }

  /** A seen sitemap nearer than the head of the queue has been visited, at its distance. */
  lemma SeenIsVisited(site: Site, seeds: set<Url>, queue: seq<Entry>, level: map<Url, nat>, maxDepth: nat, n: nat,
          u: Url)
    requires SearchInvariant(site, seeds, queue, level, maxDepth)
    requires queue != [] ==> n < queue[0].1
    requires u in Within(site, seeds, n) && (Seen(queue, level, u))
    ensures u in level && level[u] <= n
  {
    hide Within, Expanded;
    if u in level {
      if level[u] > n {
        WithinGrows(site, seeds, n, level[u] - 1);
        assert false;
      }
    } else {
      var i :| 0 <= i < |queue| && queue[i].0 == u;
      WithinGrows(site, seeds, n, queue[i].1 - 1);
      assert false;
    }
  }

  // ---------------------------------------------------------------- one turn of the loop

  /** New queue entries for the unseen children of a sitemap at depth `d`. */
  ghost predicate NewEntries(site: Site, parent: Url, d: nat, queue: seq<Entry>, visited: set<Url>,
          fresh': seq<Entry>)
  {
    && (forall i, j | 0 <= i < j < |fresh'| :: fresh'[i].0 != fresh'[j].0)
    && (forall i | 0 <= i < |fresh'| ::
          && fresh'[i].1 == d + 1
          && fresh'[i].0 in ChildrenOf(site, parent)
          && fresh'[i].0 !in visited
          && !Queued(queue, fresh'[i].0))
  }

  /** After the turn every child has been seen, unless the last level was reached. */
  ghost predicate ChildrenSeen(site: Site, parent: Url, queue: seq<Entry>, visited: set<Url>) {
    forall v | v in ChildrenOf(site, parent) :: v in visited || Queued(queue, v)
  }

  /** An unseen child of the head is exactly one level further than the head. */
  lemma NewEntryDistance(site: Site, seeds: set<Url>, queue: seq<Entry>, level: map<Url, nat>, maxDepth: nat, v: Url)
    requires SearchInvariant(site, seeds, queue, level, maxDepth) && queue != []
    requires v in ChildrenOf(site, queue[0].0) && !Seen(queue, level, v)
    ensures AtDistance(site, seeds, v, queue[0].1 + 1)
  {
    SeenUpToHead(site, seeds, queue, level, maxDepth, queue[0].1);
  }

  lemma QueuedTail(queue: seq<Entry>, extra: seq<Entry>, u: Url)
    requires queue != []
    ensures Queued(queue[1..] + extra, u) <==> Queued(queue[1..], u) || Queued(extra, u)
    ensures Queued(queue, u) <==> u == queue[0].0 || Queued(queue[1..], u)
  {
    var q := queue[1..] + extra;
    if i :| 0 <= i < |extra| && extra[i].0 == u {
      assert q[|queue| - 1 + i].0 == u;
    }
    if i :| 0 <= i < |queue[1..]| && queue[1..][i].0 == u {
      assert q[i].0 == u && queue[i + 1].0 == u;
    }
    if i :| 0 <= i < |q| && q[i].0 == u {
      if i < |queue| - 1 {
        assert queue[1..][i].0 == u;
      } else {
        assert extra[i - (|queue| - 1)].0 == u;
      }
    }
    if i :| 0 < i < |queue| && queue[i].0 == u {
      assert queue[1..][i - 1].0 == u;
    }
  }

  lemma TurnKeepsShape(site: Site, seeds: set<Url>, queue: seq<Entry>, level: map<Url, nat>, maxDepth: nat,
          extra: seq<Entry>)
    requires SearchInvariant(site, seeds, queue, level, maxDepth) && queue != []
    requires var (u, d) := queue[0];
             NewEntries(site, u, d, queue[1..], level.Keys + {u}, extra) && (extra != [] ==> d < maxDepth)
    ensures QueueShape(queue[1..] + extra, level[queue[0].0 := queue[0].1].Keys)
  {
    var q := queue[1..] + extra;
    forall i, j | 0 <= i < j < |q| ensures q[i].0 != q[j].0 && q[i].1 <= q[j].1 {
      if i < |queue| - 1 <= j {
        assert queue[1..][i].0 == q[i].0;
        assert extra[j - (|queue| - 1)] == q[j];
        assert queue[i + 1].1 <= queue[|queue| - 1].1;
      }
    }
    forall i | 0 <= i < |q| ensures q[i].0 !in level[queue[0].0 := queue[0].1].Keys {
      if i < |queue| - 1 {
        assert q[i] == queue[i + 1];
      }
    }
  }

  lemma TurnKeepsDistances(site: Site, seeds: set<Url>, queue: seq<Entry>, level: map<Url, nat>, maxDepth: nat,
          extra: seq<Entry>)
    requires SearchInvariant(site, seeds, queue, level, maxDepth) && queue != []
    requires var (u, d) := queue[0];
             NewEntries(site, u, d, queue[1..], level.Keys + {u}, extra) && (extra != [] ==> d < maxDepth)
    ensures TrueDistances(site, seeds, queue[1..] + extra, level[queue[0].0 := queue[0].1], maxDepth)
  {
    hide Within, AtDistance, Expanded, Queued;
    var q := queue[1..] + extra;
    forall i | 0 <= i < |q| ensures q[i].1 <= maxDepth && AtDistance(site, seeds, q[i].0, q[i].1) {
      if i < |queue| - 1 {
        assert q[i] == queue[i + 1];
      } else {
        assert q[i] == extra[i - (|queue| - 1)];
        QueuedTail(queue, extra, q[i].0);
        NewEntryDistance(site, seeds, queue, level, maxDepth, q[i].0);
      }
    }
  }

  /** What has been expanded stays so, and the head joins it. */
  lemma TurnKeepsExpanded(site: Site, seeds: set<Url>, queue: seq<Entry>, level: map<Url, nat>, maxDepth: nat,
        extra: seq<Entry>, w: Url)
    requires SearchInvariant(site, seeds, queue, level, maxDepth) && queue != []
    requires var (u, d) := queue[0];
             d < maxDepth ==> ChildrenSeen(site, u, queue[1..] + extra, level.Keys + {u})
    requires w in level || w == queue[0].0
    ensures Expanded(site, queue[1..] + extra, level[queue[0].0 := queue[0].1], maxDepth, w)
  {
    hide QueueShape, TrueDistances, ChildrenOf, Queued;
    var (u, d) := queue[0];
    if w != u && level[w] < maxDepth {
      assert Expanded(site, queue, level, maxDepth, w);
      forall v | v in ChildrenOf(site, w) ensures Seen(queue[1..] + extra, level[u := d], v) {
        assert Seen(queue, level, v);
        QueuedTail(queue, extra, v);
      }
    }
  }

  /** Popping the head, recording its depth and queueing its unseen children keeps the invariant. */
  lemma TurnKeepsInvariant(site: Site, seeds: set<Url>, queue: seq<Entry>, level: map<Url, nat>, maxDepth: nat,
          extra: seq<Entry>)
    requires SearchInvariant(site, seeds, queue, level, maxDepth) && queue != []
    requires var (u, d) := queue[0];
             && NewEntries(site, u, d, queue[1..], level.Keys + {u}, extra) && (extra != [] ==> d < maxDepth)
             && (d < maxDepth ==> ChildrenSeen(site, u, queue[1..] + extra, level.Keys + {u}))
    ensures SearchInvariant(site, seeds, queue[1..] + extra, level[queue[0].0 := queue[0].1], maxDepth)
  {
    hide Within, AtDistance, TrueDistances, ChildrenOf, Queued;
    var (u, d) := queue[0];
    var q, level' := queue[1..] + extra, level[u := d];
    TurnKeepsShape(site, seeds, queue, level, maxDepth, extra);
    TurnKeepsDistances(site, seeds, queue, level, maxDepth, extra);
    forall w | w in level' ensures Expanded(site, q, level', maxDepth, w) {
      TurnKeepsExpanded(site, seeds, queue, level, maxDepth, extra, w);
    }
    hide QueueShape, Expanded;
    forall s | s in seeds ensures Seen(q, level', s) {
      assert Seen(queue, level, s);
      QueuedTail(queue, extra, s);
    }
    if q != [] {
      assert d <= q[0].1 by {
        if |queue| > 1 {
          assert q[0] == queue[1];
        } else {
          assert q[0] == extra[0];
        }
      }
    }
  }

  // ---------------------------------------------------------------- pages

  /** Page addresses already collected, followed by the new allowed ones. */
  function AddPages(site: Site, pages: seq<Url>, urls: seq<Url>): (r: seq<Url>)
    ensures pages <= r
  {
    if urls == [] then pages
    else
      var before := AddPages(site, pages, urls[..|urls| - 1]);
      var u := urls[|urls| - 1];
      if site.allowed(u) && u !in before then before + [u] else before
  }

  /** All allowed pages of the fetched documents, first occurrence first. */
  ghost function AllPages(site: Site, visits: seq<Url>): seq<Url> {
    if visits == [] then []
    else
      var before := AllPages(site, visits[..|visits| - 1]);
      match site.document(visits[|visits| - 1])
      case None => before
      case Some(d) => AddPages(site, before, d.pageUrls)
  }

  function Take<T>(s: seq<T>, n: nat): seq<T> {
    if |s| <= n then s else s[..n]
  }

  lemma AddPagesStep(site: Site, pages: seq<Url>, urls: seq<Url>, k: nat)
    requires k < |urls|
    ensures var before := AddPages(site, pages, urls[..k]);
      AddPages(site, pages, urls[..k + 1]) ==
        if site.allowed(urls[k]) && urls[k] !in before then before + [urls[k]] else before
  {
    assert urls[..k + 1][..k] == urls[..k];
  }

  lemma {:induction false} AddPagesPrefix(site: Site, pages: seq<Url>, urls: seq<Url>, k: nat)
    requires k <= |urls|
    ensures AddPages(site, pages, urls[..k]) <= AddPages(site, pages, urls)
    decreases |urls| - k
  {
    if k < |urls| {
      assert urls[..k + 1][..k] == urls[..k];
      AddPagesPrefix(site, pages, urls, k + 1);
    } else {
      assert urls[..k] == urls;
    }
  }

  /** The loop over `document.page_urls`, which stops as soon as the page limit is reached. */
  method CollectPages(site: Site, pages: seq<Url>, urls: seq<Url>, pageLimit: nat) returns (r: seq<Url>)
    requires |pages| < pageLimit
    ensures r == Take(AddPages(site, pages, urls), pageLimit)
  {
    r := pages;
    var k: nat := 0;
    while k < |urls|
      invariant k <= |urls|
      invariant r == AddPages(site, pages, urls[..k]) && |r| < pageLimit
    {
      AddPagesStep(site, pages, urls, k);
      hide AddPages;
      if site.allowed(urls[k]) && urls[k] !in r {
        r := r + [urls[k]];
        if |r| >= pageLimit {
          AddPagesPrefix(site, pages, urls, k + 1);
          return;
        }
      }
      k := k + 1;
    }
    assert urls[..k] == urls;
  }

  /** The loop over `document.child_sitemaps`. */
  method QueueChildren(site: Site, ghost parent: Url, depth: nat, queue: seq<Entry>, visited: set<Url>,
          children: seq<Url>)
    returns (extra: seq<Entry>)
    requires ChildrenOf(site, parent) == Elements(children)
    ensures NewEntries(site, parent, depth, queue, visited, extra)
    ensures ChildrenSeen(site, parent, queue + extra, visited)
  {
    var queuedUrls := set e | e in queue :: e.0;
    extra := [];
    var k: nat := 0;
    while k < |children|
      invariant k <= |children|
      invariant NewEntries(site, parent, depth, queue, visited, extra)
      invariant forall u :: u in queuedUrls <==> Queued(queue, u) || Queued(extra, u)
      invariant forall i | 0 <= i < k :: children[i] in visited || children[i] in queuedUrls
    {
      var child := children[k];
      if child !in visited && child !in queuedUrls {
        AppendQueued(extra, (child, depth + 1));
        extra := extra + [(child, depth + 1)];
        queuedUrls := queuedUrls + {child};
      }
      k := k + 1;
    }
    forall v | v in ChildrenOf(site, parent) ensures v in visited || Queued(queue + extra, v) {
      assert v in children;
      if v in queuedUrls {
        QueuedConcat(queue, extra, v);
      }
    }
  }

  lemma AppendQueued(extra: seq<Entry>, e: Entry)
    ensures forall u :: Queued(extra + [e], u) <==> Queued(extra, u) || u == e.0
  {
    forall u ensures Queued(extra + [e], u) <==> Queued(extra, u) || u == e.0 {
      QueuedConcat(extra, [e], u);
      assert [e][0].0 == e.0;
    }
  }

  lemma QueuedConcat(queue: seq<Entry>, extra: seq<Entry>, u: Url)
    ensures Queued(queue + extra, u) <==> Queued(queue, u) || Queued(extra, u)
  {
    QueuedTail([(u, 0)] + queue, extra, u);
    assert ([(u, 0)] + queue)[1..] == queue;
  }

  // ---------------------------------------------------------------- discover_sitemap_urls

  /** The fetched sitemaps in order, each at its true distance, nothing nearer left for later. */
  ghost predicate BreadthFirst(site: Site, seeds: set<Url>, visits: seq<Url>, depths: seq<nat>, maxDepth: nat) {
    && |depths| == |visits|
    && Distinct(visits)
    && (forall i, j | 0 <= i < j < |depths| :: depths[i] <= depths[j])
    && (forall i | 0 <= i < |visits| :: depths[i] <= maxDepth && AtDistance(site, seeds, visits[i], depths[i]))
    && (forall i: nat | i < |visits| :: NearerBefore(site, seeds, visits, depths[i], i))
  }

  /** Everything nearer than distance `d` is among the first `i` visits. */
  ghost predicate NearerBefore(site: Site, seeds: set<Url>, visits: seq<Url>, d: nat, i: nat)
    requires i <= |visits|
  {
    d > 0 ==> forall u | u in Within(site, seeds, d - 1) :: u in visits[..i]
  }

  /** How the fetch order and the depth record of the loop fit together. */
  ghost predicate Recorded(visits: seq<Url>, depths: seq<nat>, level: map<Url, nat>) {
    && |depths| == |visits|
    && Elements(visits) == level.Keys
    && (forall i | 0 <= i < |visits| :: visits[i] in level && level[visits[i]] == depths[i])
  }

  lemma NearerIsVisited(site: Site, seeds: set<Url>, queue: seq<Entry>, level: map<Url, nat>, maxDepth: nat, w: Url)
    requires SearchInvariant(site, seeds, queue, level, maxDepth) && queue != []
    requires queue[0].1 > 0 && w in Within(site, seeds, queue[0].1 - 1)
    ensures w in level
  {
    hide Within, AtDistance, Expanded;
    assert Seen(queue, level, w) by {
      SeenUpToHead(site, seeds, queue, level, maxDepth, queue[0].1 - 1);
    }
    SeenIsVisited(site, seeds, queue, level, maxDepth, queue[0].1 - 1, w);
  }

  lemma VisitIsBreadthFirst(site: Site, seeds: set<Url>, queue: seq<Entry>, level: map<Url, nat>, maxDepth: nat,
                            visits: seq<Url>, depths: seq<nat>)
    requires SearchInvariant(site, seeds, queue, level, maxDepth) && queue != []
    requires Recorded(visits, depths, level) && BreadthFirst(site, seeds, visits, depths, maxDepth)
    ensures BreadthFirst(site, seeds, visits + [queue[0].0], depths + [queue[0].1], maxDepth)
    ensures Recorded(visits + [queue[0].0], depths + [queue[0].1], level[queue[0].0 := queue[0].1])
  {
    hide Within, Expanded;
    var (u, d) := queue[0];
    assert AtDistance(site, seeds, u, d) && u !in level && d <= maxDepth;
    assert forall i | 0 <= i < |visits| :: visits[i] in level && level[visits[i]] <= d;
    if d > 0 {
      forall w | w in Within(site, seeds, d - 1) ensures w in visits {
        NearerIsVisited(site, seeds, queue, level, maxDepth, w);
        assert w in Elements(visits);
      }
    }
    ElementsOfAppend(visits, u);
    AppendVisit(site, seeds, visits, depths, maxDepth, u, d);
  }

  lemma AppendVisit(site: Site, seeds: set<Url>, visits: seq<Url>, depths: seq<nat>, maxDepth: nat, u: Url, d: nat)
    requires BreadthFirst(site, seeds, visits, depths, maxDepth)
    requires u !in visits && d <= maxDepth && AtDistance(site, seeds, u, d)
    requires forall i | 0 <= i < |depths| :: depths[i] <= d
    requires d > 0 ==> forall w | w in Within(site, seeds, d - 1) :: w in visits
    ensures BreadthFirst(site, seeds, visits + [u], depths + [d], maxDepth)
  {
    hide Within, AtDistance;
    var visits', depths' := visits + [u], depths + [d];
    forall i: nat | i < |visits'| ensures NearerBefore(site, seeds, visits', depths'[i], i) {
      assert visits'[..i] == visits[..i];
      if i < |visits| {
        assert NearerBefore(site, seeds, visits, depths[i], i);
      } else {
        assert visits[..i] == visits;
      }
    }
    hide NearerBefore;
  }

  /** With nothing left to fetch, exactly the sitemaps within the depth limit have been fetched. */
  lemma ExhaustedIsComplete(site: Site, seeds: set<Url>, level: map<Url, nat>, maxDepth: nat)
    requires SearchInvariant(site, seeds, [], level, maxDepth)
    ensures level.Keys == Within(site, seeds, maxDepth)
  {
    SeenUpToHead(site, seeds, [], level, maxDepth, maxDepth);
    forall u | u in Within(site, seeds, maxDepth) ensures u in level {
      assert Seen([], level, u);
    }
    forall u | u in level ensures u in Within(site, seeds, maxDepth) {
      WithinGrows(site, seeds, level[u], maxDepth);
    }
  }

  /** While something is queued, some sitemap within the depth limit has not been fetched. */
  lemma PendingIsIncomplete(site: Site, seeds: set<Url>, queue: seq<Entry>, level: map<Url, nat>, maxDepth: nat)
    requires SearchInvariant(site, seeds, queue, level, maxDepth) && queue != []
    ensures level.Keys != Within(site, seeds, maxDepth)
  {
    WithinGrows(site, seeds, queue[0].1, maxDepth);
    assert queue[0].0 in Within(site, seeds, maxDepth) && queue[0].0 !in level.Keys;
  }

  lemma StartInvariant(site: Site, seeds: seq<Url>, queue: seq<Entry>, maxDepth: nat)
    requires Distinct(seeds) && |queue| == |seeds| && forall i | 0 <= i < |seeds| :: queue[i] == (seeds[i], 0)
    ensures SearchInvariant(site, Elements(seeds), queue, map[], maxDepth)
  {
    forall u | u in Elements(seeds) ensures Seen(queue, map[], u) {
      var i :| 0 <= i < |seeds| && seeds[i] == u;
      assert queue[i].0 == u;
    }
  }

  /** The limitation codes, in the order the search appends them. */
  function LimitationsOf(unavailable: bool, fileLimit: bool, pageLimit: bool): seq<Limitation> {
    (if unavailable then [SitemapUnavailable] else []) +
    (if fileLimit then [FileLimitReached] else []) +
    (if pageLimit then [PageLimitReached] else [])
  }

  lemma PageLimitCode(unavailable: bool, fileLimit: bool, pageLimit: bool)
    ensures PageLimitReached in LimitationsOf(unavailable, fileLimit, pageLimit) <==> pageLimit
  {
  }

  lemma SeedsUnfold(site: Site, raw: seq<Url>, k: nat)
    requires k < |raw|
    ensures var before := Seeds(site, raw[..k]);
            Seeds(site, raw[..k + 1]) ==
            match site.canonical(raw[k])
            case None => before
            case Some(u) => if u in before then before else before + [u]
  {
    assert raw[..k + 1][..k] == raw[..k];
  }

  lemma QueuedSeeds(queue: seq<Entry>, seeds: seq<Url>)
    requires |queue| == |seeds| && forall i | 0 <= i < |queue| :: queue[i] == (seeds[i], 0)
    ensures forall u :: u in (set e | e in queue :: e.0) <==> u in seeds
  {
    forall u | u in seeds ensures u in (set e | e in queue :: e.0) {
      var i :| 0 <= i < |queue| && seeds[i] == u;
      assert queue[i].0 == u;
    }
  }

  /** Every seed is queued at depth 0. */
  predicate QueuedAtZero(queue: seq<Entry>, seeds: seq<Url>) {
    |queue| == |seeds| && forall i | 0 <= i < |queue| :: queue[i] == (seeds[i], 0)
  }

  lemma QueueOne(queue: seq<Entry>, seeds: seq<Url>, u: Url)
    requires QueuedAtZero(queue, seeds)
    ensures QueuedAtZero(queue + [(u, 0)], seeds + [u])
  {
  }

  method QueueSeeds(site: Site, sitemapUrls: seq<Url>) returns (queue: seq<Entry>)
    ensures QueuedAtZero(queue, Seeds(site, sitemapUrls))
  {
    queue := [];
    var k: nat := 0;
    assert Seeds(site, sitemapUrls[..0]) == [];
    hide Seeds, QueuedAtZero, Distinct;
    while k < |sitemapUrls|
      invariant k <= |sitemapUrls|
      invariant QueuedAtZero(queue, Seeds(site, sitemapUrls[..k]))
    {
      var normalized := site.canonical(sitemapUrls[k]);
      ghost var seeds := Seeds(site, sitemapUrls[..k]);
      SeedsUnfold(site, sitemapUrls, k);
      if normalized.Some? {
        var known := KnownUrl(queue, seeds, normalized.value);
        if !known {
          QueueOne(queue, seeds, normalized.value);
          queue := queue + [(normalized.value, 0)];
        }
      }
      k := k + 1;
    }
    assert sitemapUrls[..k] == sitemapUrls;
  }

  /** `url in {url for url, _ in queue}`. */
  method KnownUrl(queue: seq<Entry>, ghost seeds: seq<Url>, u: Url) returns (known: bool)
    requires QueuedAtZero(queue, seeds)
    ensures known <==> u in seeds
  {
    QueuedSeeds(queue, seeds);
    known := u in set e | e in queue :: e.0;
  }

  method ReportLimitations(unavailable: bool, fileLimit: bool, pageLimit: bool) returns (limitations: seq<Limitation>)
    ensures limitations == LimitationsOf(unavailable, fileLimit, pageLimit)
  {
    limitations := [];
    if unavailable {
      limitations := limitations + [SitemapUnavailable];
    }
    if fileLimit {
      limitations := limitations + [FileLimitReached];
    }
    if pageLimit {
      limitations := limitations + [PageLimitReached];
    }
  }

  /** What the loop has gathered from the documents fetched so far. */
  ghost predicate Collected(site: Site, visits: seq<Url>, pages: seq<Url>, pageLimit: nat, unavailable: bool) {
    && pages == Take(AllPages(site, visits), pageLimit)
    && (unavailable <==> exists u :: u in visits && site.document(u).None?)
  }

  lemma CollectedNext(site: Site, visits: seq<Url>, u: Url, pages: seq<Url>, pageLimit: nat, unavailable: bool,
                      pages': seq<Url>, unavailable': bool)
    requires Collected(site, visits, pages, pageLimit, unavailable) && |pages| < pageLimit
    requires match site.document(u)
             case None => pages' == pages && unavailable'
             case Some(d) => pages' == Take(AddPages(site, pages, d.pageUrls), pageLimit) && unavailable' == unavailable
    ensures Collected(site, visits + [u], pages', pageLimit, unavailable')
  {
    var visits' := visits + [u];
    assert visits'[..|visits|] == visits;
    assert forall v :: v in visits' <==> v in visits || v == u;
    assert u in visits';
  }

  lemma HeadUnvisited(queue: seq<Entry>, visited: set<Url>)
    requires QueueShape(queue, visited) && queue != []
    ensures queue[0].0 !in visited
  {
  }

  /** One turn of the search: pop, mark visited, fetch, collect pages, queue children. */
  method FetchNext(site: Site, ghost seeds: set<Url>, queue: seq<Entry>, visited: set<Url>, pages: seq<Url>,
                   unavailable: bool, ghost level: map<Url, nat>, ghost visits: seq<Url>, maxDepth: nat, pageLimit: nat)
    returns (queue': seq<Entry>, visited': set<Url>, pages': seq<Url>, unavailable': bool, ghost level': map<Url, nat>)
    requires SearchInvariant(site, seeds, queue, level, maxDepth) && queue != []
    requires visited == level.Keys && |pages| < pageLimit
    requires Collected(site, visits, pages, pageLimit, unavailable)
    ensures SearchInvariant(site, seeds, queue', level', maxDepth)
    ensures level' == level[queue[0].0 := queue[0].1]
    ensures visited' == level'.Keys && |visited'| == |visited| + 1
    ensures Collected(site, visits + [queue[0].0], pages', pageLimit, unavailable')
  {
    hide Within, AtDistance, Queued, Collected, TrueDistances, Expanded, QueueShape;
    var (sitemapUrl, depth) := queue[0];
    visited' := visited + {sitemapUrl};
    level' := level[sitemapUrl := depth];
    pages', unavailable' := pages, unavailable;
    var extra: seq<Entry> := [];
    match site.document(sitemapUrl) {
      case None =>
        unavailable' := true;
      case Some(document) =>
        pages' := CollectPages(site, pages, document.pageUrls, pageLimit);
        if depth < maxDepth {
          extra := QueueChildren(site, sitemapUrl, depth, queue[1..], visited', document.childSitemaps);
        }
    }
    CollectedNext(site, visits, sitemapUrl, pages, pageLimit, unavailable, pages', unavailable');
    HeadUnvisited(queue, visited);
    TurnKeepsInvariant(site, seeds, queue, level, maxDepth, extra);
    queue' := queue[1..] + extra;
  }

  lemma NothingVisited(site: Site, seeds: set<Url>, maxDepth: nat)
    ensures BreadthFirst(site, seeds, [], [], maxDepth)
  {
  }

  lemma VisitsDistinct(site: Site, seeds: set<Url>, visits: seq<Url>, depths: seq<nat>, maxDepth: nat)
    requires BreadthFirst(site, seeds, visits, depths, maxDepth)
    ensures Distinct(visits)
  {
  }

  /**
   Each sitemap is fetched at most once, nearest first and at its shortest distance from the seeds, never
   beyond the depth limit; unless a limit stops the search, every sitemap within the depth limit is fetched.
   The pages are the allowed ones of the fetched documents, cut at the page limit, and each limitation code
   is reported exactly when its condition holds.
   */
  method DiscoverSitemapUrls(site: Site, sitemapUrls: seq<Url>, maxFiles: nat, maxDepth: nat, pageLimit: nat)
    returns (r: Discovery, ghost visits: seq<Url>, ghost depths: seq<nat>)
    ensures BreadthFirst(site, Elements(Seeds(site, sitemapUrls)), visits, depths, maxDepth)
    ensures r.fetchedSitemaps == |visits| <= maxFiles
    ensures r.fetchedSitemaps < maxFiles && |r.pageUrls| < pageLimit ==>
              Elements(visits) == Within(site, Elements(Seeds(site, sitemapUrls)), maxDepth)
    ensures r.fetchedSitemaps < maxFiles && |r.pageUrls| < pageLimit ==>
              r.fetchedSitemaps == |Within(site, Elements(Seeds(site, sitemapUrls)), maxDepth)|
    ensures PageLimitReached in r.limitations <==> |r.pageUrls| >= pageLimit
    ensures r.pageUrls == Take(AllPages(site, visits), pageLimit)
    ensures r.limitations == LimitationsOf(
                               exists u :: u in visits && site.document(u).None?,
                               |visits| >= maxFiles &&
                                     Elements(visits) != Within(site, Elements(Seeds(site, sitemapUrls)), maxDepth),
                               |r.pageUrls| >= pageLimit)
  {
    hide LimitationsOf, SearchInvariant, BreadthFirst, Within;
    ghost var seeds := Elements(Seeds(site, sitemapUrls));
    NothingVisited(site, seeds, maxDepth);
    var queue := QueueSeeds(site, sitemapUrls);
    StartInvariant(site, Seeds(site, sitemapUrls), queue, maxDepth);
    var visited: set<Url> := {};
    var pages: seq<Url> := [];
    var unavailable := false;
    ghost var level: map<Url, nat> := map[];
    visits, depths := [], [];
    while queue != [] && |visited| < maxFiles && |pages| < pageLimit
      invariant SearchInvariant(site, seeds, queue, level, maxDepth)
      invariant BreadthFirst(site, seeds, visits, depths, maxDepth) && Recorded(visits, depths, level)
      invariant visited == level.Keys && |visited| <= maxFiles
      invariant Collected(site, visits, pages, pageLimit, unavailable)
      decreases maxFiles - |visited|
    {
      ghost var (sitemapUrl, depth) := queue[0];
      VisitIsBreadthFirst(site, seeds, queue, level, maxDepth, visits, depths);
      queue, visited, pages, unavailable, level :=
        FetchNext(site, seeds, queue, visited, pages, unavailable, level, visits, maxDepth, pageLimit);
      visits, depths := visits + [sitemapUrl], depths + [depth];
    }
    VisitsDistinct(site, seeds, visits, depths, maxDepth);
    DistinctSize(visits);
    if queue == [] {
      ExhaustedIsComplete(site, seeds, level, maxDepth);
    } else {
      PendingIsIncomplete(site, seeds, queue, level, maxDepth);
    }
    assert queue != [] <==> Elements(visits) != Within(site, seeds, maxDepth);
    var limitations := ReportLimitations(unavailable, queue != [] && |visited| >= maxFiles, |pages| >= pageLimit);
    PageLimitCode(unavailable, queue != [] && |visited| >= maxFiles, |pages| >= pageLimit);
    r := Discovery(pages, |visited|, limitations);
  }
}
