/**
 * `crawlWebsite` (main.js:154-254) as the source runs it: a state object whose
 * queue, visited set, node set and graph are updated in place, batch after
 * batch, until the queue is empty. Each method is proved to perform the
 * corresponding step of crawl_model.dfy.
 */
module Crawler {
  import opened Common
  import opened Decimal
  import opened CrawlModel
  import opened CrawlWork
  import opened CrawlReach
  import opened GraphOutput

  /**
   * The dequeue loop has shifted `taken` entries off `s0.queue` and
   * dispatched `batch`, and the rest of the plan is what `Plan` gives for
   * what is left.
   */
  ghost predicate Dequeued(s0: Frontier, s: Frontier, batch: seq<Entry>, taken: nat) {
    && |batch| <= MAX_CONCURRENT_REQUESTS
    && var rest := Plan(s.queue, s.visitedUrls, MAX_CONCURRENT_REQUESTS - |batch|);
    && taken <= |s0.queue| && s.queue == s0.queue[taken..]
    && taken + rest.0 == Plan(s0.queue, s0.visitedUrls, MAX_CONCURRENT_REQUESTS).0
    && batch + rest.1 == Plan(s0.queue, s0.visitedUrls, MAX_CONCURRENT_REQUESTS).1
    && s.visitedUrls == s0.visitedUrls + Elems(Urls(batch))
    && s.nodeSet == AddNodes(s0.nodeSet, Urls(batch))
    && s.graph == s0.graph
  }

  lemma DequeueStart(s0: Frontier)
    ensures Dequeued(s0, s0, [], 0)
  {
    assert [] + Plan(s0.queue, s0.visitedUrls, MAX_CONCURRENT_REQUESTS).1 == Plan(s0.queue, s0.visitedUrls, MAX_CONCURRENT_REQUESTS).1;
    assert s0.queue[0..] == s0.queue;
  }

  /** Shifting the head of the queue and dispatching it keeps `Dequeued`. */
  lemma DequeueDispatch(s0: Frontier, s: Frontier, batch: seq<Entry>, taken: nat)
    requires Dequeued(s0, s, batch, taken)
    requires |batch| < MAX_CONCURRENT_REQUESTS && s.queue != [] && Dispatchable(s.queue[0], s.visitedUrls)
    ensures var e := s.queue[0];
      Dequeued(s0, Frontier(s.queue[1..], s.visitedUrls + {e.url}, AddNode(s.nodeSet, e.url), s.graph), batch + [e], taken + 1)
  {
    var e := s.queue[0];
    assert s0.queue[taken + 1..] == s.queue[1..];
    assert MAX_CONCURRENT_REQUESTS - |batch + [e]| == MAX_CONCURRENT_REQUESTS - |batch| - 1;
    PlanDispatchHead(s.queue, s.visitedUrls, MAX_CONCURRENT_REQUESTS - |batch|, batch);
    UrlsSnoc(s0.nodeSet, batch, e);
  }

  /** `Plan` dispatches a dispatchable head and goes on with one less room. */
  lemma PlanDispatchHead(queue: seq<Entry>, visited: set<string>, room: nat, batch: seq<Entry>)
    requires room > 0 && queue != [] && Dispatchable(queue[0], visited)
    ensures var rest := Plan(queue[1..], visited + {queue[0].url}, room - 1);
      Plan(queue, visited, room).0 == rest.0 + 1 && batch + Plan(queue, visited, room).1 == (batch + [queue[0]]) + rest.1
  {
    var rest := Plan(queue[1..], visited + {queue[0].url}, room - 1);
    assert (batch + [queue[0]]) + rest.1 == batch + ([queue[0]] + rest.1);
  }

  /** Dispatching one more entry adds its URL to the URLs, the visited set and the node set. */
  lemma UrlsSnoc(nodeSet: seq<string>, batch: seq<Entry>, e: Entry)
    ensures Elems(Urls(batch + [e])) == Elems(Urls(batch)) + {e.url}
    ensures AddNodes(nodeSet, Urls(batch + [e])) == AddNode(AddNodes(nodeSet, Urls(batch)), e.url)
  {
    var u := Urls(batch + [e]);
    assert u == Urls(batch) + [e.url];
    assert u[..|batch|] == Urls(batch);
    assert Elems(u) == Elems(Urls(batch)) + {e.url} by {
      forall x | x in Elems(Urls(batch)) ensures x in u {
        var i :| 0 <= i < |batch| && Urls(batch)[i] == x;
        assert u[i] == x;
      }
    }
  }

  /** Shifting the head of the queue and skipping it keeps `Dequeued`. */
  lemma DequeueSkip(s0: Frontier, s: Frontier, batch: seq<Entry>, taken: nat)
    requires Dequeued(s0, s, batch, taken)
    requires |batch| < MAX_CONCURRENT_REQUESTS && s.queue != [] && !Dispatchable(s.queue[0], s.visitedUrls)
    ensures Dequeued(s0, Frontier(s.queue[1..], s.visitedUrls, s.nodeSet, s.graph), batch, taken + 1)
  {
    var room := MAX_CONCURRENT_REQUESTS - |batch|;
    assert s0.queue[taken + 1..] == s.queue[1..];
    var rest := Plan(s.queue[1..], s.visitedUrls, room);
    assert Plan(s.queue, s.visitedUrls, room) == (rest.0 + 1, rest.1);
  }

  /** A finished dequeue loop has performed `DispatchStep`. */
  lemma DispatchDone(s0: Frontier, s: Frontier, batch: seq<Entry>, taken: nat)
    requires Dequeued(s0, s, batch, taken)
    requires |batch| == MAX_CONCURRENT_REQUESTS || s.queue == []
    ensures DispatchStep(s0) == (s, batch)
  {
    var p := Plan(s0.queue, s0.visitedUrls, MAX_CONCURRENT_REQUESTS);
    var rest := Plan(s.queue, s.visitedUrls, MAX_CONCURRENT_REQUESTS - |batch|);
    assert rest.0 == 0 && rest.1 == [];
    assert batch + rest.1 == batch;
    assert p.1 == batch && p.0 == taken;
    var d := DispatchStep(s0);
    assert d.1 == batch;
    assert d.0.queue == s.queue;
    assert d.0 == s;
  }

  /**
   * The `forEach` over a page's links has handled the first `i` of them:
   * `queue` and `nodeSet` have grown by the unvisited ones among those.
   */
  ghost predicate Enqueued(queue0: seq<Entry>, nodeSet0: seq<string>, e: Entry, links: seq<string>, visited: set<string>,
                           i: nat, queue: seq<Entry>, nodeSet: seq<string>) {
    && i <= |links|
    && queue == queue0 + Children(e, Unvisited(links[..i], visited))
    && nodeSet == AddNodes(nodeSet0, Unvisited(links[..i], visited))
  }

  lemma UnvisitedSnoc(links: seq<string>, i: nat, visited: set<string>)
    requires i < |links|
    ensures Unvisited(links[..i + 1], visited)
         == Unvisited(links[..i], visited) + if links[i] in visited then [] else [links[i]]
  {
    assert links[..i + 1][..i] == links[..i];
  }

  lemma AddNodesSnoc(nodeSet: seq<string>, urls: seq<string>, url: string)
    ensures AddNodes(nodeSet, urls + [url]) == AddNode(AddNodes(nodeSet, urls), url)
  {
    assert (urls + [url])[..|urls|] == urls;
  }

  /** Handling a visited link `i` keeps `Enqueued` with nothing added. */
  lemma EnqueueVisited(queue0: seq<Entry>, nodeSet0: seq<string>, e: Entry, links: seq<string>, visited: set<string>,
                       i: nat, queue: seq<Entry>, nodeSet: seq<string>)
    requires i < |links| && links[i] in visited && Enqueued(queue0, nodeSet0, e, links, visited, i, queue, nodeSet)
    ensures Enqueued(queue0, nodeSet0, e, links, visited, i + 1, queue, nodeSet)
  {
    UnvisitedSnoc(links, i, visited);
    assert Unvisited(links[..i], visited) + [] == Unvisited(links[..i], visited);
  }

  /** Handling an unvisited link `i` keeps `Enqueued`: it joins the queue, and the node set unless already there. */
  lemma EnqueueFresh(queue0: seq<Entry>, nodeSet0: seq<string>, e: Entry, links: seq<string>, visited: set<string>,
                     i: nat, queue: seq<Entry>, nodeSet: seq<string>)
    requires i < |links| && links[i] !in visited && Enqueued(queue0, nodeSet0, e, links, visited, i, queue, nodeSet)
    ensures Enqueued(queue0, nodeSet0, e, links, visited, i + 1,
      queue + [Entry(links[i], e.currentDepth + 1, e.maxDepth)], AddNode(nodeSet, links[i]))
  {
    var before := Unvisited(links[..i], visited);
    UnvisitedSnoc(links, i, visited);
    QueueSnoc(queue0, e, before, links[i]);
    AddNodesSnoc(nodeSet0, before, links[i]);
  }

  lemma QueueSnoc(queue0: seq<Entry>, e: Entry, urls: seq<string>, url: string)
    ensures queue0 + Children(e, urls) + [Entry(url, e.currentDepth + 1, e.maxDepth)] == queue0 + Children(e, urls + [url])
  {
    ChildrenSnoc(e, urls, url);
  }

  /**
   * One pass of the dequeue loop of main.js:182-193 on the loop's copies of
   * the queue, the visited set and the node set: shift the head, and dispatch
   * it when it is below its limit and not visited.
   */
  method DequeueOne(ghost s0: Frontier, q: seq<Entry>, visited: set<string>, nodes: seq<string>, batch: seq<Entry>,
                    ghost taken: nat)
    returns (q': seq<Entry>, visited': set<string>, nodes': seq<string>, batch': seq<Entry>)
    requires Dequeued(s0, Frontier(q, visited, nodes, s0.graph), batch, taken)
    requires |batch| < MAX_CONCURRENT_REQUESTS && q != []
    ensures Dequeued(s0, Frontier(q', visited', nodes', s0.graph), batch', taken + 1)
    ensures q' == q[1..]
  {
    ghost var s := Frontier(q, visited, nodes, s0.graph);
    var e := q[0];
    q', visited', nodes', batch' := q[1..], visited, nodes, batch;
    if e.currentDepth < e.maxDepth && e.url !in visited {
      DequeueDispatch(s0, s, batch, taken);
      visited' := visited + {e.url};
      if e.url !in nodes {
        nodes' := nodes + [e.url];
      }
      batch' := batch + [e];
    } else {
      DequeueSkip(s0, s, batch, taken);
    }
  }

  /** The dequeue loop of main.js:181-194 on copies of the queue, the visited set and the node set. */
  method DequeueBatch(queue: seq<Entry>, visitedUrls: set<string>, nodeSet: seq<string>, ghost graph: seq<(string, seq<string>)>)
    returns (q: seq<Entry>, visited: set<string>, nodes: seq<string>, batch: seq<Entry>)
    ensures DispatchStep(Frontier(queue, visitedUrls, nodeSet, graph)) == (Frontier(q, visited, nodes, graph), batch)
  {
    ghost var s0 := Frontier(queue, visitedUrls, nodeSet, graph);
    ghost var taken: nat := 0;
    q, visited, nodes := queue, visitedUrls, nodeSet;
    batch := [];
    DequeueStart(s0);
    while |batch| < MAX_CONCURRENT_REQUESTS && q != []
      invariant Dequeued(s0, Frontier(q, visited, nodes, graph), batch, taken)
      decreases |q|
    {
      q, visited, nodes, batch := DequeueOne(s0, q, visited, nodes, batch, taken);
      taken := taken + 1;
    }
    DispatchDone(s0, Frontier(q, visited, nodes, graph), batch, taken);
  }

  /**
   * The local state of one `crawlWebsite` call (main.js:167-175). `Valid()`
   * holds between batches; `DispatchBatch`, `EnqueueLinks` and
   * `OnFetchSettled` are the steps inside a batch, where the pending fetches
   * break it, so they state their new state against `old` instead and
   * `RunBatch` restores `Valid()`.
   */
  class CrawlState {
    var queue: seq<Entry>
    var visitedUrls: set<string>
    var nodeSet: seq<string>
    var graph: seq<(string, seq<string>)>
    /** The entries the queue started with. */
    ghost const seeds: seq<Entry>
    /** Every entry dispatched so far, in dispatch order. */
    ghost var dispatched: seq<Entry>

    function State(): Frontier
      reads this
    {
      Frontier(queue, visitedUrls, nodeSet, graph)
    }

    ghost predicate Valid()
      reads this
    {
      Wf(State(), seeds, dispatched, [])
    }

    /** The seeds enter the queue at depth 0 with their own limits; nothing is visited yet (main.js:167-175). */
    constructor (urls: seq<string>, depths: seq<nat>)
      requires |urls| == |depths|
      ensures State() == Initial(urls, depths)
      ensures seeds == SeedEntries(urls, depths) && dispatched == []
      ensures Valid()
    {
      queue := SeedEntries(urls, depths);
      visitedUrls := {};
      nodeSet := [];
      graph := [];
      seeds := SeedEntries(urls, depths);
      dispatched := [];
      new;
      InitialWf(urls, depths);
    }

    /**
     * The inner loop of main.js:181-216: shift entries off the queue, and
     * dispatch those below their limit whose URL is not visited, marking the
     * URL visited and adding it to the node set, until the batch is full or
     * the queue is empty.
     */
    method DispatchBatch() returns (batch: seq<Entry>)
      modifies this
      ensures (State(), batch) == DispatchStep(old(State()))
      ensures dispatched == old(dispatched)
    {
      var q, visited, nodes;
      q, visited, nodes, batch := DequeueBatch(queue, visitedUrls, nodeSet, graph);
      queue, visitedUrls, nodeSet := q, visited, nodes;
    }

    /**
     * The `forEach` of main.js:200-209: every link not yet visited is added to
     * the node set and enqueued one level below `e`, under the same limit.
     */
    method EnqueueLinks(e: Entry, links: seq<string>)
      modifies this
      ensures queue == old(queue) + Children(e, Unvisited(links, visitedUrls))
      ensures nodeSet == AddNodes(old(nodeSet), Unvisited(links, visitedUrls))
      ensures visitedUrls == old(visitedUrls) && graph == old(graph) && dispatched == old(dispatched)
    {
      var newQueue, newNodeSet := queue, nodeSet;
      for i := 0 to |links|
        modifies {}
        invariant Enqueued(queue, nodeSet, e, links, visitedUrls, i, newQueue, newNodeSet)
      {
        var link := links[i];
        if link !in visitedUrls {
          EnqueueFresh(queue, nodeSet, e, links, visitedUrls, i, newQueue, newNodeSet);
          if link !in newNodeSet {
            newNodeSet := newNodeSet + [link];
          }
          newQueue := newQueue + [Entry(link, e.currentDepth + 1, e.maxDepth)];
        } else {
          EnqueueVisited(queue, nodeSet, e, links, visitedUrls, i, newQueue, newNodeSet);
        }
      }
      assert links[..|links|] == links;
      queue, nodeSet := newQueue, newNodeSet;
    }

    /**
     * The callback of the fetch dispatched for `e` (main.js:196-213): on
     * success record the page's links and enqueue the unvisited ones; on
     * failure change nothing.
     */
    method OnFetchSettled(e: Entry, outcome: Option<seq<string>>)
      modifies this
      ensures State() == CompleteStep(old(State()), e, outcome)
      ensures dispatched == old(dispatched)
    {
      if outcome.Some? {
        graph := graph + [(e.url, outcome.value)];
        EnqueueLinks(e, outcome.value);
      }
    }

    /**
     * One iteration of the outer loop (main.js:178-219): dispatch a batch,
     * then await every fetch of it. The invariant of the crawl is kept, and
     * the batch holds at most `MAX_CONCURRENT_REQUESTS` entries.
     */
    method RunBatch(fetch: Fetcher) returns (batch: seq<Entry>)
      requires Valid()
      modifies this
      ensures Valid()
      ensures (State(), batch) == BatchStep(old(State()), fetch)
      ensures dispatched == old(dispatched) + batch
      ensures |batch| <= MAX_CONCURRENT_REQUESTS
    {
      ghost var s0 := State();
      BatchWf(s0, seeds, dispatched, fetch);
      batch := DispatchBatch();
      dispatched := dispatched + batch;
      ghost var s1 := State();
      for i := 0 to |batch|
        invariant CompleteAll(State(), batch[i..], fetch) == CompleteAll(s1, batch, fetch)
        invariant dispatched == old(dispatched) + batch
      {
        assert batch[i..][1..] == batch[i + 1..];
        OnFetchSettled(batch[i], fetch(batch[i].url));
      }
    }
  }

  /** The value `crawlWebsite` resolves to. */
  datatype CrawlOutput = CrawlOutput(graph: seq<(string, seq<string>)>, nodes: seq<Node>, edges: seq<Edge>)

  /** Why `crawlWebsite` rejects (main.js:157-161). */
  datatype CrawlError = UrlDepthMismatch

  /**
   * What `crawlWebsite(urls, depths)` promises of its result `out` when the
   * pages are served by `fetch`, with `dispatched` every entry whose page was
   * fetched, in dispatch order.
   */
  ghost predicate CrawlPromise(urls: seq<string>, depths: seq<nat>, fetch: Fetcher, out: CrawlOutput, dispatched: seq<Entry>)
    requires |urls| == |depths|
  {
    var ids := NodeIds(out.nodes);
    var seeds := SeedEntries(urls, depths);
    // each URL is fetched at most once, and only below the depth limit of the seed it descends from
    && NoDup(Urls(dispatched))
    && (forall e | e in dispatched :: e.currentDepth < e.maxDepth && Provenance(e, seeds, dispatched, out.graph))
    // the graph records each fetched page once, with the links it had; failed fetches are not recorded
    && NoDup(Keys(out.graph))
    && Elems(Keys(out.graph)) <= Elems(Urls(dispatched))
    && (forall i | 0 <= i < |out.graph| :: fetch(out.graph[i].0) == Some(out.graph[i].1))
    && (forall e | e in dispatched :: fetch(e.url).Some? <==> e.url in Keys(out.graph))
    // every seed and every link found below the depth limit is fetched
    && (forall e | e in seeds && e.currentDepth < e.maxDepth :: e.url in Urls(dispatched))
    && (forall e, l | e in dispatched && FoundBelowLimit(e, l, fetch) :: l in Urls(dispatched))
    // the nodes are the fetched URLs and the recorded links, once each, labelled "1", "2", ...
    && NoDup(ids)
    && Elems(ids) == Elems(Urls(dispatched)) + Targets(out.graph)
    && (forall i | 0 <= i < |out.nodes| :: out.nodes[i].nodeLabel == DecimalString(i + 1))
    // one edge per recorded link, duplicates included, numbered 1, 2, ..., between nodes
    && |out.edges| == TotalLinks(out.graph)
    && (forall k | 0 <= k < |out.edges| ::
          out.edges[k] == Edge(k + 1, LinkPairs(out.graph)[k].0, LinkPairs(out.graph)[k].1))
    && (forall edge | edge in out.edges :: edge.from in ids && edge.to in ids)
  }

  /** A crawl whose queue ran dry, with its nodes and edges built, keeps every promise of `crawlWebsite`. */
  lemma FinishedCrawl(urls: seq<string>, depths: seq<nat>, fetch: Fetcher, s: Frontier, dispatched: seq<Entry>,
                      nodes: seq<Node>, edges: seq<Edge>)
    requires |urls| == |depths| && s.queue == []
    requires Wf(s, SeedEntries(urls, depths), dispatched, [])
    requires RecordOk(s, dispatched, [], fetch) && ReachOk(s, SeedEntries(urls, depths), dispatched, [], fetch)
    requires |nodes| == |s.nodeSet| && forall i | 0 <= i < |nodes| :: nodes[i] == Node(s.nodeSet[i], DecimalString(i + 1))
    requires |edges| == |LinkPairs(s.graph)|
    requires forall k | 0 <= k < |edges| :: edges[k] == Edge(k + 1, LinkPairs(s.graph)[k].0, LinkPairs(s.graph)[k].1)
    ensures CrawlPromise(urls, depths, fetch, CrawlOutput(s.graph, nodes, edges), dispatched)
  {
    ReachedWhenEmpty(s, SeedEntries(urls, depths), dispatched, fetch);
    assert NodeIds(nodes) == s.nodeSet;
    assert Settled(dispatched, []) == dispatched;
    EdgesJoinNodes(s, dispatched, nodes, edges);
  }

  /** The built edges join built nodes: each end is a recorded page or a recorded link. */
  lemma EdgesJoinNodes(s: Frontier, dispatched: seq<Entry>, nodes: seq<Node>, edges: seq<Edge>)
    requires LogOk(s, dispatched) && Elems(Keys(s.graph)) <= s.visitedUrls && NodesOk(s)
    requires |nodes| == |s.nodeSet| && forall i | 0 <= i < |nodes| :: nodes[i] == Node(s.nodeSet[i], DecimalString(i + 1))
    requires |edges| == |LinkPairs(s.graph)|
    requires forall k | 0 <= k < |edges| :: edges[k] == Edge(k + 1, LinkPairs(s.graph)[k].0, LinkPairs(s.graph)[k].1)
    ensures forall edge | edge in edges :: edge.from in NodeIds(nodes) && edge.to in NodeIds(nodes)
  {
    LinkPairsInGraph(s.graph);
    assert NodeIds(nodes) == s.nodeSet;
    forall edge | edge in edges
      ensures edge.from in NodeIds(nodes) && edge.to in NodeIds(nodes)
    {
      var k :| 0 <= k < |edges| && edges[k] == edge;
      assert LinkPairs(s.graph)[k] in LinkPairs(s.graph);
      var j :| 0 <= j < |s.graph| && Keys(s.graph)[j] == edge.from;
      assert edge.from in Elems(Urls(dispatched));
    }
  }

  /** Each page after the first in `path` is a link of the page before it, as `fetch` serves them. */
  ghost predicate FetchPath(path: seq<string>, fetch: Fetcher) {
    forall k | 0 <= k < |path| - 1 :: fetch(path[k]).Some? && path[k + 1] in fetch(path[k]).value
  }

  /** `path` starts at seed `i` and follows links through fewer pages than that seed's limit. */
  ghost predicate SeedPath(urls: seq<string>, depths: seq<nat>, fetch: Fetcher, i: int, path: seq<string>) {
    && 0 <= i < |urls| && i < |depths|
    && path != [] && path[0] == urls[i]
    && |path| <= depths[i]
    && FetchPath(path, fetch)
  }

  /** The page of `e` is reached from a seed, given the lineage and the graph records of a crawl. */
  lemma {:induction false} LineageFromSeed(urls: seq<string>, depths: seq<nat>, fetch: Fetcher,
                                           graph: seq<(string, seq<string>)>, dispatched: seq<Entry>, e: Entry)
    requires |urls| == |depths| && e in dispatched
    requires forall d | d in dispatched :: d.currentDepth < d.maxDepth && Provenance(d, SeedEntries(urls, depths), dispatched, graph)
    requires forall i | 0 <= i < |graph| :: fetch(graph[i].0) == Some(graph[i].1)
    ensures exists i, path :: (SeedPath(urls, depths, fetch, i, path)
      && depths[i] == e.maxDepth && |path| == e.currentDepth + 1 && path[|path| - 1] == e.url)
    decreases e.currentDepth
  {
    var seeds := SeedEntries(urls, depths);
    assert Provenance(e, seeds, dispatched, graph);
    if e.currentDepth == 0 {
      var i :| 0 <= i < |seeds| && seeds[i] == e;
      assert SeedPath(urls, depths, fetch, i, [e.url]);
    } else {
      var p :| p in dispatched && ChildOf(e, p, graph);
      LineageFromSeed(urls, depths, fetch, graph, dispatched, p);
      var i, path :| SeedPath(urls, depths, fetch, i, path)
        && depths[i] == p.maxDepth && |path| == p.currentDepth + 1 && path[|path| - 1] == p.url;
      LinksOfRecord(graph, p.url, e.url);
      var j :| 0 <= j < |graph| && graph[j].0 == p.url && e.url in graph[j].1;
      FetchPathSnoc(path, e.url, fetch);
      assert SeedPath(urls, depths, fetch, i, path + [e.url]);
    }
  }

  /** A path extended by a link of its last page is still a path. */
  lemma FetchPathSnoc(path: seq<string>, url: string, fetch: Fetcher)
    requires path != [] && FetchPath(path, fetch)
    requires fetch(path[|path| - 1]).Some? && url in fetch(path[|path| - 1]).value
    ensures FetchPath(path + [url], fetch)
  {
    var path' := path + [url];
    forall k | 0 <= k < |path'| - 1
      ensures fetch(path'[k]).Some? && path'[k + 1] in fetch(path'[k]).value
    {
      if k < |path| - 1 {
        assert path'[k] == path[k] && path'[k + 1] == path[k + 1];
      }
    }
  }

  /**
   * Every fetched page is reached from some seed `i` by a chain of
   * successfully fetched links with `currentDepth` steps, fewer than
   * `depths[i]`, and the page carries that seed's limit.
   */
  lemma FetchedFromSeed(urls: seq<string>, depths: seq<nat>, fetch: Fetcher, out: CrawlOutput,
                        dispatched: seq<Entry>, e: Entry)
    requires |urls| == |depths| && CrawlPromise(urls, depths, fetch, out, dispatched) && e in dispatched
    ensures exists i, path :: (SeedPath(urls, depths, fetch, i, path)
      && depths[i] == e.maxDepth && |path| == e.currentDepth + 1 && path[|path| - 1] == e.url)
  {
    LineageFromSeed(urls, depths, fetch, out.graph, dispatched, e);
  }

  /** `crawlWebsite(urls, depths)` with the pages served by `fetch`. */
  method CrawlWebsite(urls: seq<string>, depths: seq<nat>, fetch: Fetcher)
    returns (r: Result<CrawlOutput, CrawlError>, ghost dispatched: seq<Entry>)
    ensures r.Failure? <==> |urls| != |depths|
    ensures r.Success? ==> CrawlPromise(urls, depths, fetch, r.value, dispatched)
  {
    if |urls| != |depths| {
      return Failure(UrlDepthMismatch), [];
    }
    var c := new CrawlState(urls, depths);
    InitialRecordReach(urls, depths, fetch);
    while c.queue != []
      invariant c.Valid() && c.seeds == SeedEntries(urls, depths)
      invariant RecordOk(c.State(), c.dispatched, [], fetch)
      invariant ReachOk(c.State(), c.seeds, c.dispatched, [], fetch)
      decreases QueueWork(c.queue, fetch)
    {
      BatchDecreasesWork(c.State(), fetch);
      BatchRecordReach(c.State(), c.seeds, c.dispatched, fetch);
      var batch := c.RunBatch(fetch);
    }
    var nodes := BuildNodes(c.nodeSet);
    var edges := BuildEdges(c.graph);
    FinishedCrawl(urls, depths, fetch, c.State(), c.dispatched, nodes, edges);
    dispatched := c.dispatched;
    r := Success(CrawlOutput(c.graph, nodes, edges));
  }
}
