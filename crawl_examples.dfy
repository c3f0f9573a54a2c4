/**
 * Two small crawls worked out on the step functions, showing how the depth
 * limit acts in main.js:186: a page is fetched only when its depth is below
 * the limit, and a seed that is not fetched is not a node either.
 */
module CrawlExamples {
  import opened Common
  import opened CrawlModel
  import opened Crawler

  /** A site where page "a" links to "b" and "b" links to "c". */
  function Chain(url: string): Option<seq<string>> {
    if url == "a" then Some(["b"]) else if url == "b" then Some(["c"]) else None
  }

  /**
   * Seed "a" with limit 1: only "a" is fetched; "b" is a node because it is
   * linked, but it is queued at depth 1 and skipped, and "c" never appears.
   */
  lemma LimitOneFetchesOnlySeed()
    ensures var s1 := BatchStep(Initial(["a"], [1]), Chain);
      var s2 := BatchStep(s1.0, Chain);
      && s1.1 == [Entry("a", 0, 1)]
      && s1.0.queue == [Entry("b", 1, 1)]
      && s2.1 == []
      && s2.0 == Frontier([], {"a"}, ["a", "b"], [("a", ["b"])])
  {
    var s0 := Initial(["a"], [1]);
    assert s0.queue == [Entry("a", 0, 1)];
    assert s0.queue[1..] == [];
    assert Dispatchable(Entry("a", 0, 1), {});
    assert Plan([], {"a"}, MAX_CONCURRENT_REQUESTS - 1) == (0, []);
    assert [Entry("a", 0, 1)] + [] == [Entry("a", 0, 1)];
    assert Plan(s0.queue, {}, MAX_CONCURRENT_REQUESTS) == (1, [Entry("a", 0, 1)]);
    assert Urls([Entry("a", 0, 1)]) == ["a"];
    assert ["a"][..0] == [];
    assert AddNodes([], ["a"]) == ["a"];
    var d0 := DispatchStep(s0);
    assert d0.0 == Frontier([], {"a"}, ["a"], []);
    assert Unvisited(["b"], {"a"}) == ["b"];
    var s1 := CompleteStep(d0.0, Entry("a", 0, 1), Some(["b"]));
    assert s1 == Frontier([Entry("b", 1, 1)], {"a"}, ["a", "b"], [("a", ["b"])]);
    assert CompleteAll(d0.0, d0.1, Chain) == s1;
    assert s1.queue[1..] == [];
    assert Plan(s1.queue, s1.visitedUrls, MAX_CONCURRENT_REQUESTS) == (1, []);
    assert Urls([]) == [];
  }

  /** Seed "a" with limit 0: nothing is fetched, and the crawl ends with no node at all. */
  lemma LimitZeroRecordsNothing()
    ensures var s1 := BatchStep(Initial(["a"], [0]), Chain);
      s1.1 == [] && s1.0 == Frontier([], {}, [], [])
  {
    var s0 := Initial(["a"], [0]);
    assert s0.queue == [Entry("a", 0, 0)];
    assert s0.queue[1..] == [];
    assert Plan(s0.queue, {}, MAX_CONCURRENT_REQUESTS) == (1, []);
    assert Urls([]) == [];
  }

  /**
   * Seed "a" with limit 1 on the same site: any result that keeps the promise
   * of `crawlWebsite` fetched "a" alone and recorded no other page, so "b" is
   * never fetched with a limit of its own.
   */
  lemma LimitOnePromiseFetchesOnlySeed(out: CrawlOutput, dispatched: seq<Entry>)
    requires CrawlPromise(["a"], [1], Chain, out, dispatched)
    ensures forall e | e in dispatched :: e == Entry("a", 0, 1)
    ensures Elems(Keys(out.graph)) <= {"a"}
  {
    forall e | e in dispatched
      ensures e == Entry("a", 0, 1)
    {
      FetchedFromSeed(["a"], [1], Chain, out, dispatched, e);
      var i, path :| SeedPath(["a"], [1], Chain, i, path)
        && [1][i] == e.maxDepth && |path| == e.currentDepth + 1 && path[|path| - 1] == e.url;
      assert i == 0 && |path| == 1;
    }
    forall k | k in Elems(Keys(out.graph))
      ensures k == "a"
    {
      var j :| 0 <= j < |dispatched| && Urls(dispatched)[j] == k;
      assert dispatched[j] in dispatched;
    }
  }
}
