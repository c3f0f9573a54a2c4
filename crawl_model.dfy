/**
 * The breadth-first crawl of `crawlWebsite` (main.js:154-219) as pure steps on
 * a value of its state, and the invariants those steps keep. The class in
 * crawler.dfy runs the same steps in place.
 */
module CrawlModel {
  import opened Common

  /** The most fetches one batch starts (main.js:7). */
  const MAX_CONCURRENT_REQUESTS: nat := 10

  /** A queue entry: the URL, the depth it was found at, and the depth limit of its seed. */
  datatype Entry = Entry(url: string, currentDepth: nat, maxDepth: nat)

  /** The page fetcher: the normalised links of a page, or None when fetching or parsing fails. */
  type Fetcher = string -> Option<seq<string>>

  /**
   * The state `crawlWebsite` keeps: the queue, `visitedUrls`, `nodeSet` in
   * insertion order, and `graph` as (page, links) pairs in the order they were recorded.
   */
  datatype Frontier = Frontier(
    queue: seq<Entry>,
    visitedUrls: set<string>,
    nodeSet: seq<string>,
    graph: seq<(string, seq<string>)>)

  function Urls(entries: seq<Entry>): (r: seq<string>)
    ensures |r| == |entries|
  {
    seq(|entries|, i requires 0 <= i < |entries| => entries[i].url)
  }

  function Keys(graph: seq<(string, seq<string>)>): (r: seq<string>)
    ensures |r| == |graph|
  {
    seq(|graph|, i requires 0 <= i < |graph| => graph[i].0)
  }

  /** Every link recorded in the graph. */
  function Targets(graph: seq<(string, seq<string>)>): set<string> {
    if graph == [] then {} else Targets(graph[..|graph| - 1]) + Elems(graph[|graph| - 1].1)
  }

  /** The seed entries, each at depth 0 with its own limit (main.js:171-175). */
  function SeedEntries(urls: seq<string>, depths: seq<nat>): (q: seq<Entry>)
    requires |urls| == |depths|
    ensures |q| == |urls|
  {
    seq(|urls|, i requires 0 <= i < |urls| => Entry(urls[i], 0, depths[i]))
  }

  function Initial(urls: seq<string>, depths: seq<nat>): Frontier
    requires |urls| == |depths|
  {
    Frontier(SeedEntries(urls, depths), {}, [], [])
  }

  /** The gate of main.js:186. */
  predicate Dispatchable(e: Entry, visited: set<string>) {
    e.currentDepth < e.maxDepth && e.url !in visited
  }

  /**
   * The inner loop of main.js:181-216: dequeue entries until `room` of them
   * have been dispatched or the queue is empty. Returns how many entries were
   * dequeued and the dispatched ones; a dispatched URL counts as visited for
   * the entries after it.
   */
  function Plan(queue: seq<Entry>, visited: set<string>, room: nat): (p: (nat, seq<Entry>))
    ensures p.0 <= |queue|
    decreases |queue|
  {
    if room == 0 || queue == [] then (0, [])
    else if Dispatchable(queue[0], visited) then
      var rest := Plan(queue[1..], visited + {queue[0].url}, room - 1);
      (rest.0 + 1, [queue[0]] + rest.1)
    else
      var rest := Plan(queue[1..], visited, room);
      (rest.0 + 1, rest.1)
  }

  /** `if (!nodeSet.has(url)) nodeSet.add(url)` on an insertion-ordered set. */
  function AddNode(nodeSet: seq<string>, url: string): (r: seq<string>)
    ensures Elems(r) == Elems(nodeSet) + {url}
    ensures |nodeSet| <= |r| && r[..|nodeSet|] == nodeSet
  {
    if url in nodeSet then nodeSet
    else
      assert Elems(nodeSet + [url]) == Elems(nodeSet) + {url} by {
        forall x | x in Elems(nodeSet) ensures x in nodeSet + [url] {
        }
      }
      nodeSet + [url]
  }

  function AddNodes(nodeSet: seq<string>, urls: seq<string>): (r: seq<string>)
    ensures Elems(r) == Elems(nodeSet) + Elems(urls)
    ensures |nodeSet| <= |r| && r[..|nodeSet|] == nodeSet
  {
    if urls == [] then nodeSet
    else
      var init, url := urls[..|urls| - 1], urls[|urls| - 1];
      assert Elems(urls) == Elems(init) + {url} by {
        assert urls == init + [url];
      }
      AddNode(AddNodes(nodeSet, init), url)
  }

  /** Adding to a set without repetitions keeps it without repetitions. */
  lemma {:induction false} AddNodesNoDup(nodeSet: seq<string>, urls: seq<string>)
    requires NoDup(nodeSet)
    ensures NoDup(AddNodes(nodeSet, urls))
  {
    if urls != [] {
      AddNodesNoDup(nodeSet, urls[..|urls| - 1]);
    }
  }

  /** The links of a page that are not yet visited, in order (main.js:201). */
  function Unvisited(links: seq<string>, visited: set<string>): (r: seq<string>)
    ensures forall l :: l in r <==> l in links && l !in visited
  {
    if links == [] then []
    else Unvisited(links[..|links| - 1], visited) + (if links[|links| - 1] in visited then [] else [links[|links| - 1]])
  }

  /** The entries enqueued for the links of a page fetched from `e` (main.js:203-207). */
  function Children(e: Entry, links: seq<string>): (r: seq<Entry>)
    ensures |r| == |links|
  {
    seq(|links|, i requires 0 <= i < |links| => Entry(links[i], e.currentDepth + 1, e.maxDepth))
  }

  lemma ChildrenSnoc(e: Entry, urls: seq<string>, url: string)
    ensures Children(e, urls + [url]) == Children(e, urls) + [Entry(url, e.currentDepth + 1, e.maxDepth)]
  {
  }

  /** The dispatch half of one batch: the batch and the state after it. */
  function DispatchStep(s: Frontier): (Frontier, seq<Entry>) {
    var p := Plan(s.queue, s.visitedUrls, MAX_CONCURRENT_REQUESTS);
    var batch := p.1;
    (Frontier(s.queue[p.0..], s.visitedUrls + Elems(Urls(batch)), AddNodes(s.nodeSet, Urls(batch)), s.graph), batch)
  }

  /**
   * The `.then` (main.js:196-209) or `.catch` (main.js:211-213) of the fetch
   * dispatched for `e`, with `outcome` the fetcher's answer.
   */
  function CompleteStep(s: Frontier, e: Entry, outcome: Option<seq<string>>): Frontier {
    match outcome
    case None => s
    case Some(links) =>
      var newLinks := Unvisited(links, s.visitedUrls);
      Frontier(s.queue + Children(e, newLinks), s.visitedUrls, AddNodes(s.nodeSet, newLinks), s.graph + [(e.url, links)])
  }

  /** All fetches of a batch settle, applied in dispatch order. */
  function CompleteAll(s: Frontier, batch: seq<Entry>, fetch: Fetcher): Frontier
    decreases |batch|
  {
    if batch == [] then s else CompleteAll(CompleteStep(s, batch[0], fetch(batch[0].url)), batch[1..], fetch)
  }

  /** One iteration of the outer loop (main.js:178-219): dispatch a batch, then await all of it. */
  function BatchStep(s: Frontier, fetch: Fetcher): (Frontier, seq<Entry>) {
    var d := DispatchStep(s);
    (CompleteAll(d.0, d.1, fetch), d.1)
  }

  // ---------------------------------------------------------------------------
  // The dispatch plan

  /**
   * A batch holds at most `room` entries; it is short only when the queue ran
   * dry; at least one entry is dequeued from a non-empty queue; and the
   * dequeuing stops right after the entry that filled the batch.
   */
  lemma {:induction false} PlanBounds(queue: seq<Entry>, visited: set<string>, room: nat)
    ensures Plan(queue, visited, room).0 <= |queue|
    ensures |Plan(queue, visited, room).1| <= room
    ensures |Plan(queue, visited, room).1| < room ==> Plan(queue, visited, room).0 == |queue|
    ensures queue != [] && room > 0 ==> Plan(queue, visited, room).0 >= 1
    ensures Plan(queue, visited, room).0 < |queue| ==> |Plan(queue, visited, room).1| == room
  {
    if room > 0 && queue != [] {
      if Dispatchable(queue[0], visited) {
        PlanBounds(queue[1..], visited + {queue[0].url}, room - 1);
      } else {
        PlanBounds(queue[1..], visited, room);
      }
    }
  }

  /**
   * Every dispatched entry is below its depth limit, its URL was not visited
   * before, it was dequeued in this batch, and no URL is dispatched twice.
   */
  lemma {:induction false} PlanDispatchesFresh(queue: seq<Entry>, visited: set<string>, room: nat)
    ensures var p := Plan(queue, visited, room);
      p.0 <= |queue| &&
      (forall e | e in p.1 :: Dispatchable(e, visited) && e in queue[..p.0]) &&
      NoDup(Urls(p.1))
  {
    var p := Plan(queue, visited, room);
    PlanBounds(queue, visited, room);
    if room > 0 && queue != [] {
      var e := queue[0];
      if Dispatchable(e, visited) {
        var v' := visited + {e.url};
        PlanDispatchesFresh(queue[1..], v', room - 1);
        var rest := Plan(queue[1..], v', room - 1);
        assert queue[1..][..rest.0] == queue[1..p.0];
        forall x | x in p.1
          ensures Dispatchable(x, visited) && x in queue[..p.0]
        {
          if x != e {
            assert x in rest.1;
          }
        }
        forall i, j | 0 <= i < j < |p.1|
          ensures Urls(p.1)[i] != Urls(p.1)[j]
        {
          if i == 0 {
            assert p.1[j] == rest.1[j - 1];
            assert p.1[j] in rest.1;
          } else {
            assert Urls(p.1)[i] == Urls(rest.1)[i - 1];
            assert Urls(p.1)[j] == Urls(rest.1)[j - 1];
          }
        }
      } else {
        PlanDispatchesFresh(queue[1..], visited, room);
        var rest := Plan(queue[1..], visited, room);
        assert queue[1..][..rest.0] == queue[1..p.0];
        assert Urls(p.1) == Urls(rest.1);
      }
    }
  }

  /**
   * Nothing dispatchable is dropped: a dequeued entry below its depth limit
   * was skipped only because its URL was visited, before or earlier in the batch.
   */
  lemma {:induction false} PlanSkipsOnlyGated(queue: seq<Entry>, visited: set<string>, room: nat)
    ensures var p := Plan(queue, visited, room);
      p.0 <= |queue| &&
      forall j | 0 <= j < p.0 && queue[j].currentDepth < queue[j].maxDepth ::
        queue[j].url in visited + Elems(Urls(p.1))
  {
    var p := Plan(queue, visited, room);
    PlanBounds(queue, visited, room);
    if room > 0 && queue != [] {
      var e := queue[0];
      var v' := if Dispatchable(e, visited) then visited + {e.url} else visited;
      var room' := if Dispatchable(e, visited) then room - 1 else room;
      PlanSkipsOnlyGated(queue[1..], v', room');
      var rest := Plan(queue[1..], v', room');
      assert Elems(Urls(p.1)) == (if Dispatchable(e, visited) then {e.url} else {}) + Elems(Urls(rest.1)) by {
        if Dispatchable(e, visited) {
          assert Urls(p.1) == [e.url] + Urls(rest.1);
        } else {
          assert Urls(p.1) == Urls(rest.1);
        }
      }
      forall j | 0 <= j < p.0 && queue[j].currentDepth < queue[j].maxDepth
        ensures queue[j].url in visited + Elems(Urls(p.1))
      {
        if j > 0 {
          assert queue[j] == queue[1..][j - 1];
        }
      }
    }
  }

  // ---------------------------------------------------------------------------
  // The crawl invariant

  /** The links recorded in the graph for page `url`. */
  function LinksOf(graph: seq<(string, seq<string>)>, url: string): set<string> {
    if graph == [] then {}
    else LinksOf(graph[..|graph| - 1], url) + (if graph[|graph| - 1].0 == url then Elems(graph[|graph| - 1].1) else {})
  }

  lemma LinksOfAppend(graph: seq<(string, seq<string>)>, page: string, links: seq<string>, url: string)
    ensures LinksOf(graph + [(page, links)], url) == LinksOf(graph, url) + (if page == url then Elems(links) else {})
  {
    assert (graph + [(page, links)])[..|graph|] == graph;
  }

  /** A link recorded for `url` comes from a record of `url`. */
  lemma {:induction false} LinksOfRecord(graph: seq<(string, seq<string>)>, url: string, l: string)
    requires l in LinksOf(graph, url)
    ensures exists j | 0 <= j < |graph| :: graph[j].0 == url && l in graph[j].1
  {
    var n := |graph| - 1;
    if graph[n].0 == url && l in graph[n].1 {
    } else {
      LinksOfRecord(graph[..n], url, l);
      var j :| 0 <= j < n && graph[..n][j].0 == url && l in graph[..n][j].1;
      assert graph[j] == graph[..n][j];
    }
  }

  /**
   * `e` was enqueued for a link of the page fetched for `p` (main.js:203-207):
   * one level deeper than `p` and under the same limit.
   */
  ghost predicate ChildOf(e: Entry, p: Entry, graph: seq<(string, seq<string>)>) {
    e.currentDepth == p.currentDepth + 1 && e.maxDepth == p.maxDepth && e.url in LinksOf(graph, p.url)
  }

  /** Where an entry comes from: a seed at depth 0, otherwise a child of a dispatched entry whose page was recorded. */
  ghost predicate Provenance(e: Entry, seeds: seq<Entry>, dispatched: seq<Entry>, graph: seq<(string, seq<string>)>) {
    if e.currentDepth == 0 then e in seeds else exists p | p in dispatched :: ChildOf(e, p, graph)
  }

  /** A URL is dispatched at most once, and `visitedUrls` is exactly the dispatched URLs. */
  ghost predicate LogOk(s: Frontier, dispatched: seq<Entry>) {
    NoDup(Urls(dispatched)) && s.visitedUrls == Elems(Urls(dispatched))
  }

  /**
   * Only entries below their depth limit are dispatched; no queued entry is
   * past its limit; and every entry descends from a seed, one level per
   * fetched page, under that seed's limit.
   */
  ghost predicate DepthsOk(s: Frontier, seeds: seq<Entry>, dispatched: seq<Entry>) {
    && (forall e | e in dispatched :: e.currentDepth < e.maxDepth && Provenance(e, seeds, dispatched, s.graph))
    && (forall e | e in s.queue :: e.currentDepth <= e.maxDepth && Provenance(e, seeds, dispatched, s.graph))
  }

  /**
   * Each page is recorded in the graph at most once, after it was dispatched;
   * `pending`, the tail of `dispatched`, are the fetches not settled yet.
   */
  ghost predicate GraphOk(s: Frontier, dispatched: seq<Entry>, pending: seq<Entry>) {
    && NoDup(Keys(s.graph))
    && Elems(Keys(s.graph)) <= s.visitedUrls
    && |pending| <= |dispatched| && pending == dispatched[|dispatched| - |pending|..]
    && (forall e | e in pending :: e.url !in Keys(s.graph))
  }

  /** The node set holds, once each, exactly the dispatched URLs and the recorded links. */
  ghost predicate NodesOk(s: Frontier) {
    NoDup(s.nodeSet) && Elems(s.nodeSet) == s.visitedUrls + Targets(s.graph)
  }

  /** The invariant of the crawl, with `dispatched` every entry dispatched so far, in order. */
  ghost predicate Wf(s: Frontier, seeds: seq<Entry>, dispatched: seq<Entry>, pending: seq<Entry>) {
    LogOk(s, dispatched) && DepthsOk(s, seeds, dispatched) && GraphOk(s, dispatched, pending) && NodesOk(s)
  }

  lemma TargetsAppend(graph: seq<(string, seq<string>)>, page: string, links: seq<string>)
    ensures Targets(graph + [(page, links)]) == Targets(graph) + Elems(links)
  {
    assert (graph + [(page, links)])[..|graph|] == graph;
  }

  /** The seeds, before anything is dispatched, satisfy the invariant. */
  lemma InitialWf(urls: seq<string>, depths: seq<nat>)
    requires |urls| == |depths|
    ensures Wf(Initial(urls, depths), SeedEntries(urls, depths), [], [])
  {
    assert Elems(Urls([])) == {};
  }

  lemma DispatchLog(s: Frontier, dispatched: seq<Entry>)
    requires LogOk(s, dispatched)
    ensures LogOk(DispatchStep(s).0, dispatched + DispatchStep(s).1)
  {
    var batch := DispatchStep(s).1;
    var d' := dispatched + batch;
    PlanDispatchesFresh(s.queue, s.visitedUrls, MAX_CONCURRENT_REQUESTS);
    assert Urls(d') == Urls(dispatched) + Urls(batch);
    forall i, j | 0 <= i < j < |d'|
      ensures Urls(d')[i] != Urls(d')[j]
    {
      if i < |dispatched| && j >= |dispatched| {
        assert Urls(d')[i] in Urls(dispatched);
        assert batch[j - |dispatched|] in batch;
      } else if i >= |dispatched| {
        assert Urls(d')[i] == Urls(batch)[i - |dispatched|];
        assert Urls(d')[j] == Urls(batch)[j - |dispatched|];
      }
    }
  }

  lemma DispatchDepths(s: Frontier, seeds: seq<Entry>, dispatched: seq<Entry>)
    requires DepthsOk(s, seeds, dispatched)
    ensures DepthsOk(DispatchStep(s).0, seeds, dispatched + DispatchStep(s).1)
  {
    var p := Plan(s.queue, s.visitedUrls, MAX_CONCURRENT_REQUESTS);
    var d' := dispatched + p.1;
    PlanDispatchesFresh(s.queue, s.visitedUrls, MAX_CONCURRENT_REQUESTS);
    forall e | e in d'
      ensures e.currentDepth < e.maxDepth && Provenance(e, seeds, d', s.graph)
    {
      if e !in dispatched {
        assert e in s.queue[..p.0];
        assert e in s.queue;
      }
      ProvenanceGrows(e, seeds, dispatched, p.1, s.graph);
    }
    forall e | e in s.queue[p.0..]
      ensures e.currentDepth <= e.maxDepth && Provenance(e, seeds, d', s.graph)
    {
      assert e in s.queue;
      ProvenanceGrows(e, seeds, dispatched, p.1, s.graph);
    }
  }

  /** A longer dispatch log keeps every parent. */
  lemma ProvenanceGrows(e: Entry, seeds: seq<Entry>, dispatched: seq<Entry>, batch: seq<Entry>, graph: seq<(string, seq<string>)>)
    requires Provenance(e, seeds, dispatched, graph)
    ensures Provenance(e, seeds, dispatched + batch, graph)
  {
    if e.currentDepth != 0 {
      var p :| p in dispatched && ChildOf(e, p, graph);
      assert p in dispatched + batch;
    }
  }

  /** A longer graph keeps every parent's links. */
  lemma ProvenanceRecorded(e: Entry, seeds: seq<Entry>, dispatched: seq<Entry>, graph: seq<(string, seq<string>)>,
                           page: string, links: seq<string>)
    requires Provenance(e, seeds, dispatched, graph)
    ensures Provenance(e, seeds, dispatched, graph + [(page, links)])
  {
    if e.currentDepth != 0 {
      var p :| p in dispatched && ChildOf(e, p, graph);
      LinksOfAppend(graph, page, links, p.url);
      assert ChildOf(e, p, graph + [(page, links)]);
    }
  }

  lemma DispatchGraph(s: Frontier, dispatched: seq<Entry>)
    requires GraphOk(s, dispatched, []) && LogOk(s, dispatched)
    ensures GraphOk(DispatchStep(s).0, dispatched + DispatchStep(s).1, DispatchStep(s).1)
  {
    var batch := DispatchStep(s).1;
    var d' := dispatched + batch;
    PlanDispatchesFresh(s.queue, s.visitedUrls, MAX_CONCURRENT_REQUESTS);
    assert d'[|d'| - |batch|..] == batch;
    forall e | e in batch
      ensures e.url !in Keys(s.graph)
    {
      assert e.url !in s.visitedUrls;
    }
  }

  lemma DispatchNodes(s: Frontier)
    requires NodesOk(s)
    ensures NodesOk(DispatchStep(s).0)
  {
    AddNodesNoDup(s.nodeSet, Urls(DispatchStep(s).1));
  }

  /** Dispatching a batch keeps the invariant, with the batch pending. */
  lemma DispatchWf(s: Frontier, seeds: seq<Entry>, dispatched: seq<Entry>)
    requires Wf(s, seeds, dispatched, [])
    ensures Wf(DispatchStep(s).0, seeds, dispatched + DispatchStep(s).1, DispatchStep(s).1)
  {
    DispatchLog(s, dispatched);
    DispatchDepths(s, seeds, dispatched);
    DispatchGraph(s, dispatched);
    DispatchNodes(s);
  }

  /** The entry at the head of `pending` is dispatched, and no later pending entry has its URL. */
  lemma PendingHead(s: Frontier, dispatched: seq<Entry>, pending: seq<Entry>)
    requires pending != []
    requires LogOk(s, dispatched) && GraphOk(s, dispatched, pending)
    ensures pending[0] in dispatched && pending[0].url in s.visitedUrls
    ensures forall e | e in pending[1..] :: e.url != pending[0].url
    ensures dispatched[|dispatched| - |pending[1..]|..] == pending[1..]
  {
    var m := |dispatched| - |pending|;
    assert pending[0] == dispatched[m];
    assert Urls(dispatched)[m] == pending[0].url;
    forall e | e in pending[1..]
      ensures e.url != pending[0].url
    {
      var k :| 0 <= k < |pending[1..]| && pending[1..][k] == e;
      assert Urls(dispatched)[m + 1 + k] == e.url;
    }
  }

  /**
   * Settling the fetch of a dispatched entry keeps `DepthsOk`; the entries it
   * enqueues come after the old queue, each a child of `e`: one level deeper,
   * under the same limit, for a link recorded for `e`'s page.
   */
  lemma CompleteDepths(s: Frontier, seeds: seq<Entry>, dispatched: seq<Entry>, e: Entry, outcome: Option<seq<string>>)
    requires DepthsOk(s, seeds, dispatched) && e in dispatched
    ensures DepthsOk(CompleteStep(s, e, outcome), seeds, dispatched)
    ensures var s' := CompleteStep(s, e, outcome);
      |s.queue| <= |s'.queue| && s'.queue[..|s.queue|] == s.queue
      && forall c | c in s'.queue[|s.queue|..] :: ChildOf(c, e, s'.graph)
  {
    if outcome.Some? {
      var links := outcome.value;
      var newLinks := Unvisited(links, s.visitedUrls);
      var s' := CompleteStep(s, e, outcome);
      LinksOfAppend(s.graph, e.url, links, e.url);
      assert s'.queue[|s.queue|..] == Children(e, newLinks);
      forall c | c in Children(e, newLinks)
        ensures ChildOf(c, e, s'.graph)
      {
        var k :| 0 <= k < |Children(e, newLinks)| && Children(e, newLinks)[k] == c;
        assert newLinks[k] in newLinks;
      }
      forall c | c in dispatched
        ensures Provenance(c, seeds, dispatched, s'.graph)
      {
        ProvenanceRecorded(c, seeds, dispatched, s.graph, e.url, links);
      }
      forall c | c in s'.queue
        ensures c.currentDepth <= c.maxDepth && Provenance(c, seeds, dispatched, s'.graph)
      {
        if c in s.queue {
          ProvenanceRecorded(c, seeds, dispatched, s.graph, e.url, links);
        } else {
          assert c in Children(e, newLinks);
        }
      }
    }
  }

  lemma CompleteGraph(s: Frontier, dispatched: seq<Entry>, pending: seq<Entry>, outcome: Option<seq<string>>)
    requires pending != []
    requires LogOk(s, dispatched) && GraphOk(s, dispatched, pending)
    ensures GraphOk(CompleteStep(s, pending[0], outcome), dispatched, pending[1..])
  {
    PendingHead(s, dispatched, pending);
    if outcome.Some? {
      var s' := CompleteStep(s, pending[0], outcome);
      assert Keys(s'.graph) == Keys(s.graph) + [pending[0].url];
      forall e | e in pending[1..]
        ensures e.url !in Keys(s'.graph)
      {
        assert e in pending;
      }
    }
  }

  lemma CompleteNodes(s: Frontier, e: Entry, outcome: Option<seq<string>>)
    requires NodesOk(s)
    ensures NodesOk(CompleteStep(s, e, outcome))
  {
    if outcome.Some? {
      TargetsAppend(s.graph, e.url, outcome.value);
      AddNodesNoDup(s.nodeSet, Unvisited(outcome.value, s.visitedUrls));
    }
  }

  /** One settled fetch keeps the invariant and takes its entry off the pending list. */
  lemma CompleteWf(s: Frontier, seeds: seq<Entry>, dispatched: seq<Entry>, pending: seq<Entry>,
                   outcome: Option<seq<string>>)
    requires pending != []
    requires Wf(s, seeds, dispatched, pending)
    ensures Wf(CompleteStep(s, pending[0], outcome), seeds, dispatched, pending[1..])
  {
    PendingHead(s, dispatched, pending);
    CompleteDepths(s, seeds, dispatched, pending[0], outcome);
    CompleteGraph(s, dispatched, pending, outcome);
    CompleteNodes(s, pending[0], outcome);
  }

  /** A whole batch settling keeps the invariant and leaves nothing pending. */
  lemma {:induction false} CompleteAllWf(s: Frontier, seeds: seq<Entry>, dispatched: seq<Entry>,
                                         pending: seq<Entry>, fetch: Fetcher)
    requires Wf(s, seeds, dispatched, pending)
    ensures Wf(CompleteAll(s, pending, fetch), seeds, dispatched, [])
    decreases |pending|
  {
    if pending != [] {
      CompleteWf(s, seeds, dispatched, pending, fetch(pending[0].url));
      CompleteAllWf(CompleteStep(s, pending[0], fetch(pending[0].url)), seeds, dispatched, pending[1..], fetch);
    }
  }

  /** Each iteration of the outer loop keeps the invariant, extending the dispatch log by its batch. */
  lemma BatchWf(s: Frontier, seeds: seq<Entry>, dispatched: seq<Entry>, fetch: Fetcher)
    requires Wf(s, seeds, dispatched, [])
    ensures Wf(BatchStep(s, fetch).0, seeds, dispatched + BatchStep(s, fetch).1, [])
    ensures |BatchStep(s, fetch).1| <= MAX_CONCURRENT_REQUESTS
  {
    DispatchWf(s, seeds, dispatched);
    var d := DispatchStep(s);
    CompleteAllWf(d.0, seeds, dispatched + d.1, d.1, fetch);
    PlanBounds(s.queue, s.visitedUrls, MAX_CONCURRENT_REQUESTS);
  }
}
