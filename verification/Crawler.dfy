/** The breadth-first loop of `run_crawl_job` (chat/crawler.py). Page fetches, robots.txt and link
    extraction are given as functions of the URL: no URL is fetched twice, so one answer each is enough. */
module Crawler {
  import opened Prelude

  type Url = string

  /** The outcome of `_index_page`; unchanged or duplicate content is neither indexed nor a failure. */
  datatype Indexing = Indexed | IndexingFailed | NothingNew

  /** The outcome of `crawl_page`, `_extract_text` and `_extract_links` for one URL, and of `_index_page`
      should the page be handed to it. */
  datatype Visit = Failed | Page(finalUrl: Url, links: seq<Url>, textLength: nat, indexing: Indexing)

  /** `hostOf` is lower-cased and without a trailing dot; `skipped` tests SKIP_EXTENSIONS;
      `unfragmented` is `link.split("#")[0]`. */
  datatype Web = Web(
    hostOf: Url -> string,
    skipped: Url -> bool,
    unfragmented: Url -> Url,
    allowed: Url -> bool,
    visit: Url -> Visit)

  const MIN_TEXT := 120

  /** `_same_host`. */
  predicate SameHost(host: string, start: string) {
    host == start || host == "www." + start || start == "www." + host
  }

  /** The URL passes the two gates before a fetch. */
  predicate MayFetch(web: Web, home: string, u: Url) {
    SameHost(web.hostOf(u), home) && web.allowed(u)
  }

  predicate Follows(web: Web, home: string, link: Url) {
    SameHost(web.hostOf(link), home) && !web.skipped(link)
  }

  /** The links of u the crawler would queue. */
  function Targets(web: Web, home: string, u: Url): seq<Url> {
    if !MayFetch(web, home, u) || web.visit(u).Failed? then []
    else Wanted(web, home, web.visit(u).links)
  }

  function Wanted(web: Web, home: string, links: seq<Url>): seq<Url> {
    if links == [] then []
    else Wanted(web, home, links[..|links| - 1])
         + if Follows(web, home, links[|links| - 1]) then [web.unfragmented(links[|links| - 1])] else []
  }

  /** One host may write `www.` before the other's name, and nothing else may differ. */
  lemma SameHostIff(host: string, start: string)
    ensures SameHost(host, start) <==> SameHost(start, host)
    ensures SameHost("www." + start, start) && SameHost(start, start)
    ensures SameHost(host, start) && host != start ==>
      (|host| == |start| + 4 && host[..4] == "www." && host[4..] == start)
      || (|start| == |host| + 4 && start[..4] == "www." && start[4..] == host)
  {
    assert ("www." + start)[..4] == "www." && ("www." + start)[4..] == start;
    assert ("www." + host)[..4] == "www." && ("www." + host)[4..] == host;
  }

  /** The crawler wants exactly the links of its host without a skipped extension, without their fragments. */
  lemma {:induction false} WantedIff(web: Web, home: string, links: seq<Url>, t: Url)
    ensures t in Wanted(web, home, links)
      <==> exists l :: l in links && SameHost(web.hostOf(l), home) && !web.skipped(l) && web.unfragmented(l) == t
  {
    if links != [] {
      var init, last := links[..|links| - 1], links[|links| - 1];
      WantedIff(web, home, init, t);
      assert links == init + [last];
      assert last in links;
    }
  }

  /** The fetched page counts against the page limit. */
  predicate Counts(web: Web, home: string, u: Url) {
    MayFetch(web, home, u)
    && web.visit(u).Page? && web.visit(u).textLength >= MIN_TEXT && !web.skipped(web.visit(u).finalUrl)
  }

  /** A failed fetch or, for a page that counts, a failed indexing. */
  predicate Fails(web: Web, home: string, u: Url) {
    MayFetch(web, home, u)
    && (web.visit(u).Failed? || (Counts(web, home, u) && web.visit(u).indexing == IndexingFailed))
  }

  predicate Indexes(web: Web, home: string, u: Url) {
    Counts(web, home, u) && web.visit(u).indexing == Indexed
  }

  /** The fetch of u was redirected to another host. */
  predicate Strays(web: Web, home: string, u: Url) {
    web.visit(u).Page? && !SameHost(web.hostOf(web.visit(u).finalUrl), home)
  }

  // ---------------------------------------------------------------- reachability

  /** p is a walk from the start URL along queued links. */
  predicate Walk(web: Web, home: string, start: Url, p: seq<Url>) {
    p != [] && p[0] == start
    && forall i :: 0 <= i < |p| - 1 ==> p[i + 1] in Targets(web, home, p[i])
  }

  ghost predicate WalkTo(web: Web, home: string, start: Url, u: Url, p: seq<Url>) {
    Walk(web, home, start, p) && p[|p| - 1] == u
  }

  ghost predicate Reachable(web: Web, home: string, start: Url, u: Url) {
    exists p :: WalkTo(web, home, start, u, p)
  }

  /** u can be reached with n clicks. */
  ghost predicate InClicks(web: Web, home: string, start: Url, u: Url, n: nat) {
    exists p :: WalkTo(web, home, start, u, p) && |p| == n + 1
  }

  /** n is the least number of clicks from the start to u. */
  ghost predicate IsDistance(web: Web, home: string, start: Url, u: Url, n: nat) {
    InClicks(web, home, start, u, n)
    && forall p :: WalkTo(web, home, start, u, p) ==> n < |p|
  }

  lemma OneMoreClick(web: Web, home: string, start: Url, u: Url, v: Url, n: nat)
    requires InClicks(web, home, start, u, n) && v in Targets(web, home, u)
    ensures InClicks(web, home, start, v, n + 1)
  {
    var p :| WalkTo(web, home, start, u, p) && |p| == n + 1;
    var q := p + [v];
    assert WalkTo(web, home, start, v, q);
  }

  lemma NoClick(web: Web, home: string, start: Url)
    ensures InClicks(web, home, start, start, 0)
  {
    assert WalkTo(web, home, start, start, [start]);
  }

  // ---------------------------------------------------------------- what the queue discipline keeps

  /** `depth` numbers the URLs seen; it never falls along the order of taking, and the queue spans
      at most two levels, those of `top` and the next. */
  ghost predicate Levels(popped: seq<Url>, queue: seq<Url>, depth: map<Url, nat>, top: nat) {
    Distinct(popped + queue)
    && (forall u :: u in depth <==> u in popped || u in queue)
    && (forall i, j :: 0 <= i < j < |popped + queue| ==> depth[(popped + queue)[i]] <= depth[(popped + queue)[j]])
    && (forall u :: u in popped ==> depth[u] <= top)
    && (forall u :: u in queue ==> top <= depth[u] <= top + 1)
  }

  /** Depths are numbers of clicks, and links of taken URLs are seen at most one level deeper. */
  ghost predicate Explored(web: Web, home: string, start: Url, popped: seq<Url>, depth: map<Url, nat>) {
    start in depth && depth[start] == 0
    && (forall u :: u in depth ==> InClicks(web, home, start, u, depth[u]))
    && forall u :: u in popped ==> LinksClose(web, home, depth, u)
  }

  ghost predicate LinksClose(web: Web, home: string, depth: map<Url, nat>, u: Url) {
    u in depth && forall v :: v in Targets(web, home, u) ==> v in depth && depth[v] <= depth[u] + 1
  }

  /** The queue is advanced by one: the new top is the level of the URL taken. */
  lemma PopHead(popped: seq<Url>, queue: seq<Url>, depth: map<Url, nat>, top: nat)
    requires Levels(popped, queue, depth, top) && queue != []
    ensures queue[0] !in popped && queue[0] in depth && top <= depth[queue[0]]
    ensures Levels(popped + [queue[0]], queue[1..], depth, depth[queue[0]])
  {
    var all := popped + queue;
    var n := |popped|;
    assert all[n] == queue[0];
    assert (popped + [queue[0]]) + queue[1..] == all;
    forall u | u in queue[1..]
      ensures depth[queue[0]] <= depth[u]
    {
      var k :| 0 <= k < |queue| - 1 && queue[1..][k] == u;
      assert all[n + 1 + k] == u;
    }
    forall u | u in popped
      ensures u != queue[0] && depth[u] <= depth[queue[0]]
    {
      var k :| 0 <= k < |popped| && popped[k] == u;
      assert all[k] == u;
    }
  }

  /** A newly found URL joins the end of the queue one level below the URL just taken. */
  lemma PushLevel(popped: seq<Url>, queue: seq<Url>, depth: map<Url, nat>, top: nat, u: Url)
    requires Levels(popped, queue, depth, top) && u !in depth
    ensures Levels(popped, queue + [u], depth[u := top + 1], top)
  {
    var all := popped + queue;
    var depth' := depth[u := top + 1];
    assert popped + (queue + [u]) == all + [u];
    forall i | 0 <= i < |all|
      ensures all[i] in depth && all[i] != u && depth'[all[i]] == depth[all[i]] <= top + 1
    {
      if i < |popped| {
        assert all[i] in popped;
      } else {
        assert all[i] == queue[i - |popped|];
      }
    }
  }

  /** Along any walk the first URL that was not taken is in the queue at no more than its position;
      if all were taken, so is the last, at no more than the walk's length. */
  lemma {:induction false} WalkMeetsQueue(web: Web, home: string, start: Url, popped: seq<Url>, queue: seq<Url>,
                                          depth: map<Url, nat>, p: seq<Url>)
    requires Explored(web, home, start, popped, depth)
    requires forall u :: u in depth <==> u in popped || u in queue
    requires Walk(web, home, start, p)
    ensures (exists x :: x in queue && depth[x] < |p|)
      || (p[|p| - 1] in popped && depth[p[|p| - 1]] < |p|)
  {
    if |p| == 1 {
      if start in queue {
        assert depth[start] < |p|;
      }
    } else {
      var q := p[..|p| - 1];
      WalkMeetsQueue(web, home, start, popped, queue, depth, q);
      if x :| x in queue && depth[x] < |q| {
        assert depth[x] < |p|;
      } else {
        var u, v := q[|q| - 1], p[|p| - 1];
        assert LinksClose(web, home, depth, u) && v in Targets(web, home, u);
      }
    }
  }

  /** So the numbers given to taken URLs are their distances. */
  lemma TakenAtDistance(web: Web, home: string, start: Url, popped: seq<Url>, queue: seq<Url>,
                        depth: map<Url, nat>, top: nat, u: Url)
    requires Levels(popped, queue, depth, top) && Explored(web, home, start, popped, depth) && u in popped
    ensures IsDistance(web, home, start, u, depth[u])
  {
    forall p | WalkTo(web, home, start, u, p)
      ensures depth[u] < |p|
    {
      WalkMeetsQueue(web, home, start, popped, queue, depth, p);
    }
  }

  /** And whatever was not taken is no nearer than anything that was. */
  lemma NotTakenIsFar(web: Web, home: string, start: Url, popped: seq<Url>, queue: seq<Url>,
                      depth: map<Url, nat>, top: nat, p: seq<Url>)
    requires Levels(popped, queue, depth, top) && Explored(web, home, start, popped, depth)
    requires Walk(web, home, start, p) && p[|p| - 1] !in popped
    ensures queue != [] && forall u :: u in popped ==> depth[u] < |p|
  {
    WalkMeetsQueue(web, home, start, popped, queue, depth, p);
  }

  /** URLs were taken in the order of their distance from the start, which `depth` records. */
  ghost predicate NearestFirst(web: Web, home: string, start: Url, popped: seq<Url>, depth: map<Url, nat>) {
    (forall u :: u in popped ==> u in depth && IsDistance(web, home, start, u, depth[u]))
    && forall i, j :: 0 <= i < j < |popped| ==> depth[popped[i]] <= depth[popped[j]]
  }

  /** Any walk to a URL that was not taken is longer than the distance of every URL that was. */
  ghost predicate OthersAreFarther(web: Web, home: string, start: Url, popped: seq<Url>, depth: map<Url, nat>) {
    (forall u :: u in popped ==> u in depth)
    && forall p :: Walk(web, home, start, p) && p[|p| - 1] !in popped ==> forall u :: u in popped ==> depth[u] < |p|
  }

  /** Exactly the reachable URLs. */
  ghost predicate WholeSite(web: Web, home: string, start: Url, popped: seq<Url>) {
    forall u :: u in popped <==> Reachable(web, home, start, u)
  }

  /** Every queued link of a URL taken was taken or is waiting. */
  ghost predicate LinksKept(web: Web, home: string, popped: seq<Url>, waiting: seq<Url>) {
    forall u, v :: u in popped && v in Targets(web, home, u) ==> v in popped || v in waiting
  }

  /** The URL without its fragment of every followed link of a fetched page is known. */
  ghost predicate FollowsLinks(web: Web, home: string, fetched: seq<Url>, known: seq<Url>) {
    forall u, l ::
      (u in fetched && web.visit(u).Page? && l in web.visit(u).links && SameHost(web.hostOf(l), home) && !web.skipped(l))
      ==> web.unfragmented(l) in known
  }

  /** u was fetched and has a followed link that reads v without its fragment. */
  ghost predicate LinksTo(web: Web, home: string, u: Url, v: Url) {
    MayFetch(web, home, u) && web.visit(u).Page?
    && exists l :: l in web.visit(u).links && SameHost(web.hostOf(l), home) && !web.skipped(l) && web.unfragmented(l) == v
  }

  /** Every known URL but the start is such a link. */
  ghost predicate OnlyLinks(web: Web, home: string, start: Url, fetched: seq<Url>, known: seq<Url>) {
    forall v :: v in known && v != start ==> exists u :: u in fetched && LinksTo(web, home, u, v)
  }

  lemma TargetsIff(web: Web, home: string, u: Url, v: Url)
    ensures v in Targets(web, home, u) <==> LinksTo(web, home, u, v)
  {
    if MayFetch(web, home, u) && web.visit(u).Page? {
      WantedIff(web, home, web.visit(u).links, v);
    }
  }

  /** Every URL seen but the start was found on a page taken. */
  ghost predicate Sourced(web: Web, home: string, start: Url, popped: seq<Url>, depth: map<Url, nat>) {
    forall v :: v in depth && v != start ==> exists u :: u in popped && v in Targets(web, home, u)
  }

  // ---------------------------------------------------------------- the crawl

  class CrawlJob {
    var maxPages: nat
    var pagesFound: nat
    var pagesIndexed: nat
    var pagesFailed: nat

    constructor (limit: nat)
      ensures maxPages == limit && pagesFound == 0 && pagesIndexed == 0 && pagesFailed == 0
    {
      maxPages, pagesFound, pagesIndexed, pagesFailed := limit, 0, 0, 0;
    }

    /** `popped` records every URL taken from the queue, `fetched` every one asked for, `filed` the final
        URL of every page handed to `_index_page`, in order; `waiting` is the queue at the end.
        `universe` bounds the URLs the site can mention. */
    method Run(web: Web, home: string, start: Url, ghost universe: set<Url>)
      returns (popped: seq<Url>, fetched: seq<Url>, filed: seq<Url>, waiting: seq<Url>, ghost depth: map<Url, nat>)
      requires pagesFound == 0 && pagesIndexed == 0 && pagesFailed == 0
      requires start in universe
      requires Closed(web, home, universe)
      modifies this
      // no URL is taken twice; the nearest are taken first, each at its distance from the start
      ensures Distinct(popped + waiting)
      ensures NearestFirst(web, home, start, popped, depth)
      ensures OthersAreFarther(web, home, start, popped, depth)
      // links of what was taken are taken or waiting; an empty queue means the whole site was taken
      ensures LinksKept(web, home, popped, waiting)
      ensures waiting == [] ==> WholeSite(web, home, start, popped)
      // every link of the host on a fetched page is taken or waiting without its fragment, and nothing else is
      ensures FollowsLinks(web, home, fetched, popped + waiting) && OnlyLinks(web, home, start, fetched, popped + waiting)
      // exactly the allowed URLs of the start host are fetched, and exactly the long enough pages of them filed
      ensures fetched == Filter(popped, FetchesAt(web, home)) && OnlyAllowed(web, home, popped, fetched)
      ensures Filed(web, fetched, filed)
      // the counters count, the limit holds, and only the limit stops the crawl early
      ensures maxPages == old(maxPages)
      ensures Counted(web, home, popped, Tally(pagesFound, pagesIndexed, pagesFailed, fetched, filed))
      ensures CountersAre(web, fetched, filed, pagesFound, pagesIndexed, pagesFailed)
      ensures pagesFound <= maxPages && (waiting != [] ==> pagesFound == maxPages)
    {
      hide FollowsLinks, OnlyLinks, OnlyAllowed, Filed, CountersAre, NearestFirst, OthersAreFarther, LinksKept, WholeSite, Crawling, Explored, Levels, DeepenedBy, TallyOf, Counted;
      ghost var top := 0;
      popped, fetched, filed := [], [], [];
      var queue := [start];
      var seen := {start};
      depth := map[start := 0];
      StartCrawling(web, home, start, universe);
      TallyNone(web, home);
      while |queue| > 0 && pagesFound < maxPages
        invariant Crawling(web, home, start, universe, popped, queue, seen, depth, top)
        invariant maxPages == old(maxPages) && pagesFound <= maxPages
        invariant Tally(pagesFound, pagesIndexed, pagesFailed, fetched, filed) == TallyOf(web, home, popped)
        decreases universe - Taken(popped)
      {
        TakeHead(web, home, start, universe, popped, queue, seen, depth, top);
        ghost var before := popped;
        var url := queue[0];
        queue := queue[1..];
        top := depth[url];
        popped := popped + [url];
        TallySnoc(web, home, before, url);
        if !SameHost(web.hostOf(url), home) || !web.allowed(url) {
          DeadEnd(web, home, start, universe, before, url, queue, seen, depth);
          continue;
        }
        fetched := fetched + [url];
        var result := web.visit(url);
        if result.Failed? {
          DeadEnd(web, home, start, universe, before, url, queue, seen, depth);
          pagesFailed := pagesFailed + 1;
          continue;
        }
        ghost var queue0, seen0, depth0 := queue, seen, depth;
        queue, seen, depth := QueueLinks(web, home, popped, queue, seen, result.links, depth, top);
        LinksQueued(web, home, start, universe, before, url, queue0, seen0, depth0, queue, seen, depth);
        if result.textLength < MIN_TEXT || web.skipped(result.finalUrl) {
          continue;
        }
        filed := filed + [result.finalUrl];
        IndexPage(result.indexing);
        pagesFound := pagesFound + 1;
      }
      waiting := queue;
      TallyCounts(web, home, popped);
      Fetched(web, home, popped, Tally(pagesFound, pagesIndexed, pagesFailed, fetched, filed));
      TallySpelledOut(web, home, popped, Tally(pagesFound, pagesIndexed, pagesFailed, fetched, filed));
      Conclusions(web, home, start, universe, popped, waiting, seen, depth, top);
      LinksConcluded(web, home, start, universe, popped, waiting, seen, depth, top, fetched);
    }

    /** What `_index_page` does to the job. */
    method IndexPage(outcome: Indexing)
      modifies this`pagesIndexed, this`pagesFailed
      ensures pagesIndexed == old(pagesIndexed) + if outcome == Indexed then 1 else 0
      ensures pagesFailed == old(pagesFailed) + if outcome == IndexingFailed then 1 else 0
    {
      if outcome == Indexed {
        pagesIndexed := pagesIndexed + 1;
      } else if outcome == IndexingFailed {
        pagesFailed := pagesFailed + 1;
      }
    }
  }

  /** The loop invariant. */
  ghost predicate Crawling(web: Web, home: string, start: Url, universe: set<Url>, popped: seq<Url>, queue: seq<Url>,
                           seen: set<Url>, depth: map<Url, nat>, top: nat) {
    Levels(popped, queue, depth, top) && Explored(web, home, start, popped, depth)
    && Sourced(web, home, start, popped, depth)
    && seen == depth.Keys && seen <= universe
  }

  lemma StartCrawling(web: Web, home: string, start: Url, universe: set<Url>)
    requires start in universe
    ensures Crawling(web, home, start, universe, [], [start], {start}, map[start := 0], 0)
  {
    NoClick(web, home, start);
  }

  /** The site's links stay within the universe. */
  ghost predicate Closed(web: Web, home: string, universe: set<Url>) {
    forall u, v :: u in universe && v in Targets(web, home, u) ==> v in universe
  }

  /** Between taking url from the queue and queueing its links. */
  ghost predicate Taking(web: Web, home: string, start: Url, universe: set<Url>, popped: seq<Url>, url: Url, queue: seq<Url>,
                         seen: set<Url>, depth: map<Url, nat>) {
    Explored(web, home, start, popped, depth) && Sourced(web, home, start, popped, depth) && url in depth
    && Levels(popped + [url], queue, depth, depth[url])
    && seen == depth.Keys && seen <= universe
  }

  lemma TakeHead(web: Web, home: string, start: Url, universe: set<Url>, popped: seq<Url>, queue: seq<Url>,
                 seen: set<Url>, depth: map<Url, nat>, top: nat)
    requires Crawling(web, home, start, universe, popped, queue, seen, depth, top) && queue != []
    ensures Taking(web, home, start, universe, popped, queue[0], queue[1..], seen, depth)
    ensures universe - Taken(popped + [queue[0]]) < universe - Taken(popped)
  {
    PopHead(popped, queue, depth, top);
    SmallerRest(universe, popped, queue[0]);
  }

  /** A URL that is not fetched, or whose fetch fails, is done with. */
  lemma DeadEnd(web: Web, home: string, start: Url, universe: set<Url>, popped: seq<Url>, url: Url, queue: seq<Url>,
                seen: set<Url>, depth: map<Url, nat>)
    requires Taking(web, home, start, universe, popped, url, queue, seen, depth) && Targets(web, home, url) == []
    ensures Crawling(web, home, start, universe, popped + [url], queue, seen, depth, depth[url])
  {
    ExploredDeadEnd(web, home, start, popped, depth, url);
    SourcedStays(web, home, start, popped, url, depth, depth);
  }

  lemma SourcedStays(web: Web, home: string, start: Url, popped: seq<Url>, url: Url, depth: map<Url, nat>, depth': map<Url, nat>)
    requires Sourced(web, home, start, popped, depth)
    requires forall v :: v in depth' && v !in depth ==> v in Targets(web, home, url)
    ensures Sourced(web, home, start, popped + [url], depth')
  {
    forall v | v in depth' && v != start
      ensures exists u :: u in popped + [url] && v in Targets(web, home, u)
    {
      if v in depth {
        var u :| u in popped && v in Targets(web, home, u);
        assert u in popped + [url];
      } else {
        assert url in popped + [url];
      }
    }
  }

  lemma ExploredDeadEnd(web: Web, home: string, start: Url, popped: seq<Url>, depth: map<Url, nat>, url: Url)
    requires Explored(web, home, start, popped, depth) && url in depth && Targets(web, home, url) == []
    ensures Explored(web, home, start, popped + [url], depth)
  {
  }

  /** The links of url were queued. */
  lemma LinksQueued(web: Web, home: string, start: Url, universe: set<Url>, popped: seq<Url>, url: Url, queue: seq<Url>,
                    seen: set<Url>, depth: map<Url, nat>, queue': seq<Url>, seen': set<Url>, depth': map<Url, nat>)
    requires Taking(web, home, start, universe, popped, url, queue, seen, depth) && Closed(web, home, universe)
    requires Levels(popped + [url], queue', depth', depth[url]) && seen' == depth'.Keys
    requires DeepenedBy(Targets(web, home, url), depth, depth', depth[url])
    ensures Crawling(web, home, start, universe, popped + [url], queue', seen', depth', depth[url])
  {
    var all := popped + [url];
    assert all[..|all| - 1] == popped;
    forall u | u in Targets(web, home, url)
      ensures depth'[u] <= depth[url] + 1
    {
      if u in depth {
        assert u in queue || u in all;
      }
    }
    StillExplored(web, home, start, all, url, depth, depth');
    SourcedStays(web, home, start, popped, url, depth, depth');
  }

  function CountsAt(web: Web, home: string): Url -> bool {
    u => Counts(web, home, u)
  }

  function FailsAt(web: Web, home: string): Url -> bool {
    u => Fails(web, home, u)
  }

  function IndexesAt(web: Web, home: string): Url -> bool {
    u => Indexes(web, home, u)
  }

  function FetchesAt(web: Web, home: string): Url -> bool {
    u => MayFetch(web, home, u)
  }

  /** The job's counters and what it asked for and filed. */
  datatype Tally = Tally(found: nat, indexed: nat, failed: nat, fetched: seq<Url>, filed: seq<Url>)

  function Add(web: Web, home: string, t: Tally, u: Url): Tally {
    if !MayFetch(web, home, u) then t
    else match web.visit(u)
      case Failed => t.(failed := t.failed + 1, fetched := t.fetched + [u])
      case Page(final, _, length, indexing) =>
        if length < MIN_TEXT || web.skipped(final) then t.(fetched := t.fetched + [u])
        else Tally(t.found + 1, t.indexed + (if indexing == Indexed then 1 else 0),
                   t.failed + (if indexing == IndexingFailed then 1 else 0), t.fetched + [u], t.filed + [final])
  }

  function TallyOf(web: Web, home: string, popped: seq<Url>): Tally {
    if popped == [] then Tally(0, 0, 0, [], [])
    else Add(web, home, TallyOf(web, home, popped[..|popped| - 1]), popped[|popped| - 1])
  }

  lemma TallyNone(web: Web, home: string)
    ensures TallyOf(web, home, []) == Tally(0, 0, 0, [], [])
  {
  }

  lemma TallySnoc(web: Web, home: string, before: seq<Url>, url: Url)
    ensures TallyOf(web, home, before + [url]) == Add(web, home, TallyOf(web, home, before), url)
  {
    assert (before + [url])[..|before|] == before;
  }

  function Finals(web: Web, urls: seq<Url>): seq<Url> {
    if urls == [] then []
    else Finals(web, urls[..|urls| - 1])
         + if web.visit(urls[|urls| - 1]).Page? then [web.visit(urls[|urls| - 1]).finalUrl] else []
  }

  /** Among the URLs taken, in their order: what counts, what was indexed, what failed, what was
      fetched, and the final URLs of what counts. */
  ghost predicate Counted(web: Web, home: string, popped: seq<Url>, t: Tally) {
    t.found == |Filter(popped, CountsAt(web, home))|
    && t.indexed == |Filter(popped, IndexesAt(web, home))|
    && t.failed == |Filter(popped, FailsAt(web, home))|
    && t.fetched == Filter(popped, FetchesAt(web, home))
    && t.filed == Finals(web, Filter(popped, CountsAt(web, home)))
  }

  lemma Fetched(web: Web, home: string, popped: seq<Url>, t: Tally)
    requires Counted(web, home, popped, t)
    ensures t.fetched == Filter(popped, FetchesAt(web, home)) && OnlyAllowed(web, home, popped, t.fetched)
  {
  }

  /** What was fetched is what was taken, of the start host and allowed. */
  ghost predicate OnlyAllowed(web: Web, home: string, popped: seq<Url>, fetched: seq<Url>) {
    forall u :: u in fetched <==> u in popped && SameHost(web.hostOf(u), home) && web.allowed(u)
  }

  /** The page at u goes to `_index_page`: it has 120 characters of text and its address no skipped extension. */
  predicate LongPage(web: Web, u: Url) {
    web.visit(u).Page? && web.visit(u).textLength >= 120 && !web.skipped(web.visit(u).finalUrl)
  }

  function FiledAt(web: Web): Url -> bool {
    u => LongPage(web, u)
  }

  function FailedAt(web: Web): Url -> bool {
    u => web.visit(u) == Failed || (LongPage(web, u) && web.visit(u).indexing == IndexingFailed)
  }

  function IndexedAt(web: Web): Url -> bool {
    u => LongPage(web, u) && web.visit(u).indexing == Indexed
  }

  /** The final addresses of the long pages among those fetched, one for each, in order. */
  ghost predicate Filed(web: Web, fetched: seq<Url>, filed: seq<Url>) {
    var pages := Filter(fetched, FiledAt(web));
    |filed| == |pages|
    && forall i :: 0 <= i < |pages| ==> web.visit(pages[i]).Page? && filed[i] == web.visit(pages[i]).finalUrl
  }

  ghost predicate CountersAre(web: Web, fetched: seq<Url>, filed: seq<Url>, found: nat, indexed: nat, failed: nat) {
    found == |filed|
    && indexed == |Filter(fetched, IndexedAt(web))|
    && failed == |Filter(fetched, FailedAt(web))|
  }

  lemma {:induction false} FinalsOf(web: Web, urls: seq<Url>)
    requires forall u :: u in urls ==> web.visit(u).Page?
    ensures var f := Finals(web, urls);
      |f| == |urls| && forall i :: 0 <= i < |urls| ==> urls[i] in urls && f[i] == web.visit(urls[i]).finalUrl
  {
    if urls != [] {
      var init := urls[..|urls| - 1];
      assert forall u :: u in init ==> u in urls;
      assert urls[|urls| - 1] in urls;
      FinalsOf(web, init);
    }
  }

  /** The same counters without the crawler's own tests: over what was fetched. */
  lemma TallySpelledOut(web: Web, home: string, popped: seq<Url>, t: Tally)
    requires Counted(web, home, popped, t)
    ensures Filed(web, t.fetched, t.filed) && CountersAre(web, t.fetched, t.filed, t.found, t.indexed, t.failed)
  {
    FilterFilter(popped, FetchesAt(web, home), FiledAt(web));
    FilterCongruent(popped, Both(FetchesAt(web, home), FiledAt(web)), CountsAt(web, home));
    FilterFilter(popped, FetchesAt(web, home), IndexedAt(web));
    FilterCongruent(popped, Both(FetchesAt(web, home), IndexedAt(web)), IndexesAt(web, home));
    FilterFilter(popped, FetchesAt(web, home), FailedAt(web));
    FilterCongruent(popped, Both(FetchesAt(web, home), FailedAt(web)), FailsAt(web, home));
    FinalsOf(web, Filter(popped, CountsAt(web, home)));
  }

  lemma FilterSnoc(before: seq<Url>, url: Url, p: Url -> bool)
    ensures Filter(before + [url], p) == Filter(before, p) + if p(url) then [url] else []
  {
    FilterAppend(before, [url], p);
    assert [url][1..] == [];
  }

  lemma {:induction false} TallyCounts(web: Web, home: string, popped: seq<Url>)
    ensures Counted(web, home, popped, TallyOf(web, home, popped))
  {
    if popped != [] {
      var before, url := popped[..|popped| - 1], popped[|popped| - 1];
      assert popped == before + [url];
      TallyCounts(web, home, before);
      FilterSnoc(before, url, CountsAt(web, home));
      FilterSnoc(before, url, IndexesAt(web, home));
      FilterSnoc(before, url, FailsAt(web, home));
      FilterSnoc(before, url, FetchesAt(web, home));
      FinalsSnoc(web, home, before, url);
    }
  }

  lemma FinalsSnoc(web: Web, home: string, before: seq<Url>, url: Url)
    ensures Finals(web, Filter(before + [url], CountsAt(web, home)))
      == Finals(web, Filter(before, CountsAt(web, home))) + if Counts(web, home, url) then [web.visit(url).finalUrl] else []
  {
    var counted := Filter(before, CountsAt(web, home));
    FilterSnoc(before, url, CountsAt(web, home));
    assert (counted + [url])[..|counted|] == counted;
    assert counted + [] == counted;
  }

  lemma {:induction false} FinalsAre(web: Web, urls: seq<Url>, f: Url)
    requires forall u :: u in urls ==> web.visit(u).Page?
    ensures f in Finals(web, urls) <==> exists u :: u in urls && web.visit(u).finalUrl == f
  {
    if urls != [] {
      var init, last := urls[..|urls| - 1], urls[|urls| - 1];
      assert urls == init + [last];
      FinalsAre(web, init, f);
      assert forall u :: u in urls <==> u in init || u == last;
    }
  }

  /** Every filed page is on the start host exactly when no page that counts was redirected elsewhere. */
  lemma FiledAtHomeIff(web: Web, home: string, popped: seq<Url>, t: Tally)
    requires Counted(web, home, popped, t)
    ensures (forall f :: f in t.filed ==> SameHost(web.hostOf(f), home))
      <==> forall u :: u in popped && Counts(web, home, u) ==> !Strays(web, home, u)
  {
    var counted := Filter(popped, CountsAt(web, home));
    forall f
      ensures f in t.filed <==> exists u :: u in counted && web.visit(u).finalUrl == f
    {
      FinalsAre(web, counted, f);
    }
    if forall f :: f in t.filed ==> SameHost(web.hostOf(f), home) {
      forall u | u in popped && Counts(web, home, u)
        ensures !Strays(web, home, u)
      {
        assert u in counted;
        assert web.visit(u).finalUrl in t.filed;
      }
    }
  }

  /** A crawl of the whole site files only pages of its host exactly when no reachable page that counts strays. */
  lemma WholeSiteAtHomeIff(web: Web, home: string, start: Url, popped: seq<Url>, t: Tally)
    requires Counted(web, home, popped, t) && WholeSite(web, home, start, popped)
    ensures (forall f :: f in t.filed ==> SameHost(web.hostOf(f), home))
      <==> forall u :: Reachable(web, home, start, u) && Counts(web, home, u) ==> !Strays(web, home, u)
  {
    FiledAtHomeIff(web, home, popped, t);
  }

  /** The site is its start page, and the crawl of it files a page of another host. */
  ghost predicate FilesElsewhere(web: Web, home: string, start: Url, t: Tally) {
    SameHost(web.hostOf(start), home) && WholeSite(web, home, start, [start]) && Counted(web, home, [start], t)
    && t.filed != [] && !SameHost(web.hostOf(t.filed[0]), home)
  }

  /** It can stray: a page of the start host that redirects to another host is filed under that host. */
  lemma OffHostPageFiled()
    ensures exists web: Web, home, start, t :: FilesElsewhere(web, home, start, t)
  {
    var start, other := "http://a.com/", "http://b.com/";
    var web := StrayingSite(start, other);
    TallyCounts(web, "a.com", [start]);
    TallySnoc(web, "a.com", [], start);
    assert [] + [start] == [start];
    var t := TallyOf(web, "a.com", [start]);
    assert start[7] == 'a' && other[7] == 'b';
    assert t.filed == [other];
    OnlyTheStart(web, "a.com", start);
    assert FilesElsewhere(web, "a.com", start, t);
  }

  function StrayingSite(start: Url, other: Url): Web {
    Web(u => if u == start then "a.com" else "b.com", _ => false, u => u, _ => true, _ => Page(other, [], 500, Indexed))
  }

  lemma SecondStep(web: Web, home: string, start: Url, p: seq<Url>)
    requires Walk(web, home, start, p) && |p| > 1
    ensures p[1] in Targets(web, home, p[0])
  {
    var i := 0;
    assert p[i + 1] in Targets(web, home, p[i]);
  }

  lemma OnlyTheStart(web: Web, home: string, start: Url)
    requires forall u :: Targets(web, home, u) == []
    ensures WholeSite(web, home, start, [start])
  {
    NoClick(web, home, start);
    var p0 :| WalkTo(web, home, start, start, p0) && |p0| == 1;
    forall u | Reachable(web, home, start, u)
      ensures u == start
    {
      var p :| WalkTo(web, home, start, u, p);
      if |p| > 1 {
        SecondStep(web, home, start, p);
      }
    }
  }

  ghost function Taken(popped: seq<Url>): set<Url> {
    set u | u in popped
  }

  lemma SmallerRest(universe: set<Url>, before: seq<Url>, url: Url)
    requires url in universe && url !in before
    ensures universe - Taken(before + [url]) < universe - Taken(before)
  {
    assert url in universe - Taken(before);
    assert url in before + [url];
  }

  /** The wanted URLs not numbered before are numbered one below `top`; nothing else changes. */
  ghost predicate DeepenedBy(wanted: seq<Url>, depth: map<Url, nat>, depth': map<Url, nat>, top: nat) {
    (forall u :: u in depth ==> u in depth' && depth'[u] == depth[u])
    && (forall u :: u in depth' && u !in depth ==> u in wanted && depth'[u] == top + 1)
    && forall u :: u in wanted ==> u in depth'
  }

  /** Everything wanted has been seen, and nothing else new. */
  ghost predicate SeenAfter(seen: set<Url>, wanted: seq<Url>, seen': set<Url>) {
    forall u :: u in seen' <==> u in seen || u in wanted
  }

  /** The old queue comes first, then what was wanted and had not been seen. */
  ghost predicate QueuedAfter(queue: seq<Url>, seen: set<Url>, wanted: seq<Url>, queue': seq<Url>) {
    queue <= queue' && forall u :: u in queue'[|queue|..] <==> u in wanted && u !in seen
  }

  lemma QueueOne(queue: seq<Url>, seen: set<Url>, wanted: seq<Url>, queue': seq<Url>, target: Url)
    requires QueuedAfter(queue, seen, wanted, queue') && target !in seen
    ensures QueuedAfter(queue, seen, wanted + [target], queue' + [target])
  {
    assert (queue' + [target])[|queue|..] == queue'[|queue|..] + [target];
  }

  lemma QueueNone(queue: seq<Url>, seen: set<Url>, wanted: seq<Url>, queue': seq<Url>, target: Url)
    requires QueuedAfter(queue, seen, wanted, queue') && (target in seen || target in wanted)
    ensures QueuedAfter(queue, seen, wanted + [target], queue')
  {
  }

  /** The inner loop: queue the wanted links not seen before. */
  method QueueLinks(web: Web, home: string, ghost popped: seq<Url>, queue: seq<Url>, seen: set<Url>, links: seq<Url>,
                    ghost depth: map<Url, nat>, ghost top: nat)
    returns (queue': seq<Url>, seen': set<Url>, ghost depth': map<Url, nat>)
    requires Levels(popped, queue, depth, top) && seen == depth.Keys
    ensures Levels(popped, queue', depth', top) && seen' == depth'.Keys
    ensures DeepenedBy(Wanted(web, home, links), depth, depth', top)
    ensures SeenAfter(seen, Wanted(web, home, links), seen') && QueuedAfter(queue, seen, Wanted(web, home, links), queue')
  {
    queue', seen', depth' := queue, seen, depth;
    for i := 0 to |links|
      invariant Levels(popped, queue', depth', top) && seen' == depth'.Keys
      invariant DeepenedBy(Wanted(web, home, links[..i]), depth, depth', top)
      invariant SeenAfter(seen, Wanted(web, home, links[..i]), seen')
      invariant QueuedAfter(queue, seen, Wanted(web, home, links[..i]), queue')
    {
      var link := links[i];
      assert links[..i + 1][..i] == links[..i];
      if !SameHost(web.hostOf(link), home) {
        continue;
      }
      if web.skipped(link) {
        continue;
      }
      var target := web.unfragmented(link);
      if target in seen' {
        QueueNone(queue, seen, Wanted(web, home, links[..i]), queue', target);
      } else {
        QueueOne(queue, seen, Wanted(web, home, links[..i]), queue', target);
        PushLevel(popped, queue', depth', top, target);
        seen' := seen' + {target};
        queue' := queue' + [target];
        depth' := depth'[target := top + 1];
      }
    }
    assert links[..|links|] == links;
  }

  /** Queueing the links of `url` keeps everything explored. */
  lemma StillExplored(web: Web, home: string, start: Url, popped: seq<Url>, url: Url, before: map<Url, nat>, depth: map<Url, nat>)
    requires popped != [] && popped[|popped| - 1] == url && url in before
    requires Explored(web, home, start, popped[..|popped| - 1], before)
    requires forall u :: u in before ==> u in depth && depth[u] == before[u]
    requires forall u :: u in depth && u !in before ==> u in Targets(web, home, url) && depth[u] == before[url] + 1
    requires forall u :: u in Targets(web, home, url) ==> u in depth && depth[u] <= before[url] + 1
    ensures Explored(web, home, start, popped, depth)
  {
    DepthsAreClicks(web, home, start, url, before, depth);
    forall u | u in popped
      ensures LinksClose(web, home, depth, u)
    {
      if u != url {
        assert u in popped[..|popped| - 1];
        assert LinksClose(web, home, before, u);
      }
    }
  }

  lemma DepthsAreClicks(web: Web, home: string, start: Url, url: Url, before: map<Url, nat>, depth: map<Url, nat>)
    requires url in before && forall u :: u in before ==> InClicks(web, home, start, u, before[u])
    requires forall u :: u in before ==> u in depth && depth[u] == before[u]
    requires forall u :: u in depth && u !in before ==> u in Targets(web, home, url) && depth[u] == before[url] + 1
    ensures forall u :: u in depth ==> InClicks(web, home, start, u, depth[u])
  {
    forall u | u in depth
      ensures InClicks(web, home, start, u, depth[u])
    {
      if u !in before {
        OneMoreClick(web, home, start, url, u, before[url]);
      }
    }
  }

  lemma AllAtDistance(web: Web, home: string, start: Url, popped: seq<Url>, queue: seq<Url>, depth: map<Url, nat>, top: nat)
    requires Levels(popped, queue, depth, top) && Explored(web, home, start, popped, depth)
    ensures NearestFirst(web, home, start, popped, depth)
  {
    forall u | u in popped
      ensures u in depth && IsDistance(web, home, start, u, depth[u])
    {
      TakenAtDistance(web, home, start, popped, queue, depth, top, u);
    }
    assert forall i :: 0 <= i < |popped| ==> popped[i] == (popped + queue)[i];
  }

  lemma RestIsFarther(web: Web, home: string, start: Url, popped: seq<Url>, queue: seq<Url>, depth: map<Url, nat>, top: nat)
    requires Levels(popped, queue, depth, top) && Explored(web, home, start, popped, depth)
    ensures OthersAreFarther(web, home, start, popped, depth)
  {
    forall p | Walk(web, home, start, p) && p[|p| - 1] !in popped
      ensures forall u :: u in popped ==> depth[u] < |p|
    {
      NotTakenIsFar(web, home, start, popped, queue, depth, top, p);
    }
  }

  lemma EmptyQueueMeansAll(web: Web, home: string, start: Url, popped: seq<Url>, depth: map<Url, nat>, top: nat)
    requires Levels(popped, [], depth, top) && Explored(web, home, start, popped, depth)
    ensures WholeSite(web, home, start, popped)
  {
    forall u
      ensures u in popped <==> Reachable(web, home, start, u)
    {
      if u in popped {
        assert InClicks(web, home, start, u, depth[u]);
        var p :| WalkTo(web, home, start, u, p) && |p| == depth[u] + 1;
      }
      if Reachable(web, home, start, u) {
        var p :| WalkTo(web, home, start, u, p);
        WalkMeetsQueue(web, home, start, popped, [], depth, p);
      }
    }
  }

  lemma LinksAreKept(web: Web, home: string, start: Url, popped: seq<Url>, queue: seq<Url>, depth: map<Url, nat>, top: nat)
    requires Levels(popped, queue, depth, top) && Explored(web, home, start, popped, depth)
    ensures LinksKept(web, home, popped, queue)
  {
    forall u, v | u in popped && v in Targets(web, home, u)
      ensures v in popped || v in queue
    {
      assert LinksClose(web, home, depth, u);
    }
  }

  lemma Conclusions(web: Web, home: string, start: Url, universe: set<Url>, popped: seq<Url>, queue: seq<Url>,
                    seen: set<Url>, depth: map<Url, nat>, top: nat)
    requires Crawling(web, home, start, universe, popped, queue, seen, depth, top)
    ensures Distinct(popped + queue)
    ensures NearestFirst(web, home, start, popped, depth)
    ensures OthersAreFarther(web, home, start, popped, depth)
    ensures LinksKept(web, home, popped, queue)
    ensures queue == [] ==> WholeSite(web, home, start, popped)
  {
    LinksAreKept(web, home, start, popped, queue, depth, top);
    AllAtDistance(web, home, start, popped, queue, depth, top);
    RestIsFarther(web, home, start, popped, queue, depth, top);
    if queue == [] {
      EmptyQueueMeansAll(web, home, start, popped, depth, top);
    }
  }

  lemma LinksConcluded(web: Web, home: string, start: Url, universe: set<Url>, popped: seq<Url>, queue: seq<Url>,
                       seen: set<Url>, depth: map<Url, nat>, top: nat, fetched: seq<Url>)
    requires Crawling(web, home, start, universe, popped, queue, seen, depth, top)
    requires fetched == Filter(popped, FetchesAt(web, home))
    ensures FollowsLinks(web, home, fetched, popped + queue) && OnlyLinks(web, home, start, fetched, popped + queue)
  {
    LinksAreKept(web, home, start, popped, queue, depth, top);
    forall u, l | u in fetched && web.visit(u).Page? && l in web.visit(u).links
      && SameHost(web.hostOf(l), home) && !web.skipped(l)
      ensures web.unfragmented(l) in popped + queue
    {
      TargetsIff(web, home, u, web.unfragmented(l));
    }
    forall v | v in popped + queue && v != start
      ensures exists u :: u in fetched && LinksTo(web, home, u, v)
    {
      assert v in depth;
      var u :| u in popped && v in Targets(web, home, u);
      TargetsIff(web, home, u, v);
      assert u in fetched;
    }
  }
}
