/**
 * What the crawl of main.js:178-219 records and what it reaches, for a given
 * fetcher: every recorded page holds the links the fetcher gave for it, every
 * successful fetch is recorded, and every link found below the depth limit is
 * visited by the time the queue is empty.
 */
module CrawlReach {
  import opened Common
  import opened CrawlModel

  /** The dispatched entries whose fetch has settled: all but the `pending` tail. */
  function Settled(dispatched: seq<Entry>, pending: seq<Entry>): (r: seq<Entry>)
    requires |pending| <= |dispatched|
    ensures |r| + |pending| == |dispatched|
  {
    dispatched[..|dispatched| - |pending|]
  }

  /** Some queued entry for `url` is still below its depth limit. */
  predicate Queued(queue: seq<Entry>, url: string) {
    exists q | q in queue :: q.url == url && q.currentDepth < q.maxDepth
  }

  /** `url` is visited, or will be dispatched unless it is visited first. */
  predicate Reached(s: Frontier, url: string) {
    url in s.visitedUrls || Queued(s.queue, url)
  }

  /**
   * The graph holds, for every recorded page, the links the fetcher returned
   * for it (main.js:197), and every settled fetch that succeeded is recorded;
   * a failed one is not (main.js:211-213).
   */
  ghost predicate RecordOk(s: Frontier, dispatched: seq<Entry>, pending: seq<Entry>, fetch: Fetcher) {
    && |pending| <= |dispatched|
    && (forall i | 0 <= i < |s.graph| :: fetch(s.graph[i].0) == Some(s.graph[i].1))
    && (forall e | e in Settled(dispatched, pending) :: fetch(e.url).Some? ==> e.url in Keys(s.graph))
  }

  /** The links of a settled page fetched below `maxDepth - 1`: those whose entries are still dispatchable. */
  ghost predicate FoundBelowLimit(e: Entry, link: string, fetch: Fetcher) {
    e.currentDepth + 1 < e.maxDepth && fetch(e.url).Some? && link in fetch(e.url).value
  }

  /**
   * Every seed below its limit, and every link a settled page yielded below
   * the limit, is reached.
   */
  ghost predicate ReachOk(s: Frontier, seeds: seq<Entry>, dispatched: seq<Entry>, pending: seq<Entry>, fetch: Fetcher) {
    && |pending| <= |dispatched|
    && (forall e | e in seeds && e.currentDepth < e.maxDepth :: Reached(s, e.url))
    && (forall e, l | e in Settled(dispatched, pending) && FoundBelowLimit(e, l, fetch) :: Reached(s, l))
  }

  lemma InitialRecordReach(urls: seq<string>, depths: seq<nat>, fetch: Fetcher)
    requires |urls| == |depths|
    ensures RecordOk(Initial(urls, depths), [], [], fetch)
    ensures ReachOk(Initial(urls, depths), SeedEntries(urls, depths), [], [], fetch)
  {
    var s := Initial(urls, depths);
    forall e | e in SeedEntries(urls, depths) && e.currentDepth < e.maxDepth
      ensures Reached(s, e.url)
    {
      assert e in s.queue;
    }
  }

  /** Dispatching a batch loses nothing reached: a dequeued entry below its limit is dispatched or already visited. */
  lemma DispatchKeepsReached(s: Frontier, url: string)
    requires Reached(s, url)
    ensures Reached(DispatchStep(s).0, url)
  {
    var p := Plan(s.queue, s.visitedUrls, MAX_CONCURRENT_REQUESTS);
    var s' := DispatchStep(s).0;
    if url !in s.visitedUrls {
      var q :| q in s.queue && q.url == url && q.currentDepth < q.maxDepth;
      var j :| 0 <= j < |s.queue| && s.queue[j] == q;
      PlanSkipsOnlyGated(s.queue, s.visitedUrls, MAX_CONCURRENT_REQUESTS);
      if j >= p.0 {
        assert q == s'.queue[j - p.0];
      }
    }
  }

  lemma DispatchRecord(s: Frontier, dispatched: seq<Entry>, fetch: Fetcher)
    requires RecordOk(s, dispatched, [], fetch)
    ensures RecordOk(DispatchStep(s).0, dispatched + DispatchStep(s).1, DispatchStep(s).1, fetch)
  {
    var batch := DispatchStep(s).1;
    assert Settled(dispatched + batch, batch) == dispatched;
  }

  lemma DispatchReach(s: Frontier, seeds: seq<Entry>, dispatched: seq<Entry>, fetch: Fetcher)
    requires ReachOk(s, seeds, dispatched, [], fetch)
    ensures ReachOk(DispatchStep(s).0, seeds, dispatched + DispatchStep(s).1, DispatchStep(s).1, fetch)
  {
    var batch := DispatchStep(s).1;
    var s' := DispatchStep(s).0;
    assert Settled(dispatched + batch, batch) == dispatched;
    forall e | e in seeds && e.currentDepth < e.maxDepth
      ensures Reached(s', e.url)
    {
      DispatchKeepsReached(s, e.url);
    }
    forall e, l | e in dispatched && FoundBelowLimit(e, l, fetch)
      ensures Reached(s', l)
    {
      assert e in Settled(dispatched, []);
      DispatchKeepsReached(s, l);
    }
  }

  /** The head of `pending` is the next entry to settle. */
  lemma SettledNext(dispatched: seq<Entry>, pending: seq<Entry>)
    requires pending != [] && |pending| <= |dispatched|
    requires pending == dispatched[|dispatched| - |pending|..]
    ensures Settled(dispatched, pending[1..]) == Settled(dispatched, pending) + [pending[0]]
  {
    assert dispatched[|dispatched| - |pending|] == pending[0];
  }

  lemma CompleteRecord(s: Frontier, dispatched: seq<Entry>, pending: seq<Entry>, fetch: Fetcher)
    requires pending != [] && RecordOk(s, dispatched, pending, fetch)
    requires pending == dispatched[|dispatched| - |pending|..]
    ensures RecordOk(CompleteStep(s, pending[0], fetch(pending[0].url)), dispatched, pending[1..], fetch)
  {
    var e := pending[0];
    var s' := CompleteStep(s, e, fetch(e.url));
    SettledNext(dispatched, pending);
    if fetch(e.url).Some? {
      RecordFetched(s.graph, e.url, fetch(e.url).value, fetch);
      assert Keys(s'.graph) == Keys(s.graph) + [e.url];
    }
  }

  /** Recording a page with the links its fetch returned keeps every record faithful to the fetcher. */
  lemma RecordFetched(graph: seq<(string, seq<string>)>, page: string, links: seq<string>, fetch: Fetcher)
    requires forall i | 0 <= i < |graph| :: fetch(graph[i].0) == Some(graph[i].1)
    requires fetch(page) == Some(links)
    ensures var g := graph + [(page, links)]; forall i | 0 <= i < |g| :: fetch(g[i].0) == Some(g[i].1)
  {
    var g := graph + [(page, links)];
    forall i | 0 <= i < |g|
      ensures fetch(g[i].0) == Some(g[i].1)
    {
      if i < |graph| {
        assert g[i] == graph[i];
      }
    }
  }

  lemma CompleteKeepsReached(s: Frontier, e: Entry, outcome: Option<seq<string>>, url: string)
    requires Reached(s, url)
    ensures Reached(CompleteStep(s, e, outcome), url)
  {
    if url !in s.visitedUrls && outcome.Some? {
      var q :| q in s.queue && q.url == url && q.currentDepth < q.maxDepth;
      assert q in CompleteStep(s, e, outcome).queue;
    }
  }

  /** A page settling enqueues, one level deeper under its limit, each of its links that is not visited. */
  lemma CompleteReachesLinks(s: Frontier, e: Entry, links: seq<string>, l: string)
    requires e.currentDepth + 1 < e.maxDepth && l in links
    ensures Reached(CompleteStep(s, e, Some(links)), l)
  {
    var s' := CompleteStep(s, e, Some(links));
    if l !in s.visitedUrls {
      var newLinks := Unvisited(links, s.visitedUrls);
      var k :| 0 <= k < |newLinks| && newLinks[k] == l;
      assert s'.queue[|s.queue| + k] == Entry(l, e.currentDepth + 1, e.maxDepth);
    }
  }

  lemma CompleteReach(s: Frontier, seeds: seq<Entry>, dispatched: seq<Entry>, pending: seq<Entry>, fetch: Fetcher)
    requires pending != []
    requires ReachOk(s, seeds, dispatched, pending, fetch) && GraphOk(s, dispatched, pending)
    ensures ReachOk(CompleteStep(s, pending[0], fetch(pending[0].url)), seeds, dispatched, pending[1..], fetch)
  {
    var h := pending[0];
    var s' := CompleteStep(s, h, fetch(h.url));
    SettledNext(dispatched, pending);
    forall e | e in seeds && e.currentDepth < e.maxDepth
      ensures Reached(s', e.url)
    {
      CompleteKeepsReached(s, h, fetch(h.url), e.url);
    }
    forall e, l | e in Settled(dispatched, pending[1..]) && FoundBelowLimit(e, l, fetch)
      ensures Reached(s', l)
    {
      if e in Settled(dispatched, pending) {
        CompleteKeepsReached(s, h, fetch(h.url), l);
      } else {
        assert e == h;
        CompleteReachesLinks(s, h, fetch(h.url).value, l);
      }
    }
  }

  lemma {:induction false} CompleteAllRecordReach(s: Frontier, seeds: seq<Entry>, dispatched: seq<Entry>,
                                                  pending: seq<Entry>, fetch: Fetcher)
    requires Wf(s, seeds, dispatched, pending)
    requires RecordOk(s, dispatched, pending, fetch) && ReachOk(s, seeds, dispatched, pending, fetch)
    ensures RecordOk(CompleteAll(s, pending, fetch), dispatched, [], fetch)
    ensures ReachOk(CompleteAll(s, pending, fetch), seeds, dispatched, [], fetch)
    decreases |pending|
  {
    if pending != [] {
      var s' := CompleteStep(s, pending[0], fetch(pending[0].url));
      CompleteRecord(s, dispatched, pending, fetch);
      CompleteReach(s, seeds, dispatched, pending, fetch);
      CompleteWf(s, seeds, dispatched, pending, fetch(pending[0].url));
      CompleteAllRecordReach(s', seeds, dispatched, pending[1..], fetch);
    }
  }

  /** Each iteration of the outer loop keeps what is recorded and what is reached. */
  lemma BatchRecordReach(s: Frontier, seeds: seq<Entry>, dispatched: seq<Entry>, fetch: Fetcher)
    requires Wf(s, seeds, dispatched, [])
    requires RecordOk(s, dispatched, [], fetch) && ReachOk(s, seeds, dispatched, [], fetch)
    ensures RecordOk(BatchStep(s, fetch).0, dispatched + BatchStep(s, fetch).1, [], fetch)
    ensures ReachOk(BatchStep(s, fetch).0, seeds, dispatched + BatchStep(s, fetch).1, [], fetch)
  {
    var d := DispatchStep(s);
    DispatchWf(s, seeds, dispatched);
    DispatchRecord(s, dispatched, fetch);
    DispatchReach(s, seeds, dispatched, fetch);
    CompleteAllRecordReach(d.0, seeds, dispatched + d.1, d.1, fetch);
  }

  /**
   * Once the queue is empty, every seed below its limit and every link found
   * below the limit has been dispatched.
   */
  lemma ReachedWhenEmpty(s: Frontier, seeds: seq<Entry>, dispatched: seq<Entry>, fetch: Fetcher)
    requires s.queue == [] && ReachOk(s, seeds, dispatched, [], fetch)
    ensures forall e | e in seeds && e.currentDepth < e.maxDepth :: e.url in s.visitedUrls
    ensures forall e, l | e in dispatched && FoundBelowLimit(e, l, fetch) :: l in s.visitedUrls
  {
    assert Settled(dispatched, []) == dispatched;
  }
}
