/**
 * Why the outer loop of `crawlWebsite` (main.js:178-219) ends for every
 * fetcher. A dispatched entry is below its depth limit and its children sit
 * one level deeper under the same limit, so the entries that one queue entry
 * can ever bring into the queue form a finite tree. Its size, `Work`, summed
 * over the queue, drops with every batch.
 */
module CrawlWork {
  import opened Common
  import opened CrawlModel

  function Remaining(depth: nat, maxDepth: nat): nat {
    if depth <= maxDepth then maxDepth - depth else 0
  }

  /**
   * The entry itself and, when it is below its limit and its page fetches,
   * the work of every link of the page one level deeper.
   */
  ghost function Work(e: Entry, fetch: Fetcher): (w: nat)
    ensures w >= 1
    decreases Remaining(e.currentDepth, e.maxDepth), 0
  {
    1 + if e.currentDepth < e.maxDepth then
          match fetch(e.url)
          case None => 0
          case Some(links) => LinksWork(links, e.currentDepth + 1, e.maxDepth, fetch)
        else 0
  }

  ghost function LinksWork(links: seq<string>, depth: nat, maxDepth: nat, fetch: Fetcher): nat
    decreases Remaining(depth, maxDepth), |links|
  {
    if links == [] then 0
    else LinksWork(links[..|links| - 1], depth, maxDepth, fetch) + Work(Entry(links[|links| - 1], depth, maxDepth), fetch)
  }

  ghost function QueueWork(queue: seq<Entry>, fetch: Fetcher): (w: nat)
    ensures w >= |queue|
  {
    if queue == [] then 0 else Work(queue[0], fetch) + QueueWork(queue[1..], fetch)
  }

  lemma {:induction false} QueueWorkAppend(a: seq<Entry>, b: seq<Entry>, fetch: Fetcher)
    ensures QueueWork(a + b, fetch) == QueueWork(a, fetch) + QueueWork(b, fetch)
  {
    if a != [] {
      assert (a + b)[1..] == a[1..] + b;
      QueueWorkAppend(a[1..], b, fetch);
    } else {
      assert a + b == b;
    }
  }

  /** The children enqueued for a page are part of the work of its entry. */
  lemma {:induction false} ChildrenWork(e: Entry, links: seq<string>, visited: set<string>, fetch: Fetcher)
    ensures QueueWork(Children(e, Unvisited(links, visited)), fetch) <= LinksWork(links, e.currentDepth + 1, e.maxDepth, fetch)
  {
    if links != [] {
      var init, last := links[..|links| - 1], links[|links| - 1];
      var child := Entry(last, e.currentDepth + 1, e.maxDepth);
      var before := Unvisited(init, visited);
      ChildrenWork(e, init, visited, fetch);
      assert LinksWork(links, e.currentDepth + 1, e.maxDepth, fetch)
          == LinksWork(init, e.currentDepth + 1, e.maxDepth, fetch) + Work(child, fetch);
      if last !in visited {
        assert Unvisited(links, visited) == before + [last];
        ChildrenSnoc(e, before, last);
        assert Children(e, Unvisited(links, visited)) == Children(e, before) + [child];
        QueueWorkAppend(Children(e, before), [child], fetch);
        assert QueueWork([child], fetch) == Work(child, fetch);
      } else {
        assert Unvisited(links, visited) == before + [];
        assert before + [] == before;
      }
    }
  }

  /** The dispatched entries are drawn from the dequeued ones, so their work is no larger. */
  lemma {:induction false} PlanWork(queue: seq<Entry>, visited: set<string>, room: nat, fetch: Fetcher)
    ensures QueueWork(Plan(queue, visited, room).1, fetch) <= QueueWork(queue[..Plan(queue, visited, room).0], fetch)
  {
    var p := Plan(queue, visited, room);
    if room > 0 && queue != [] {
      var v' := if Dispatchable(queue[0], visited) then visited + {queue[0].url} else visited;
      var room' := if Dispatchable(queue[0], visited) then room - 1 else room;
      PlanWork(queue[1..], v', room', fetch);
      var rest := Plan(queue[1..], v', room');
      assert queue[..p.0] == [queue[0]] + queue[1..][..rest.0];
      assert QueueWork(queue[..p.0], fetch) == Work(queue[0], fetch) + QueueWork(queue[1..][..rest.0], fetch);
      if Dispatchable(queue[0], visited) {
        assert p.1 == [queue[0]] + rest.1;
        assert QueueWork(p.1, fetch) == Work(queue[0], fetch) + QueueWork(rest.1, fetch);
      }
    }
  }

  /** Enqueueing the unvisited links of a page fetched for an entry below its limit adds less than the entry's work. */
  lemma FetchedWork(queue: seq<Entry>, e: Entry, links: seq<string>, visited: set<string>, fetch: Fetcher)
    requires e.currentDepth < e.maxDepth && fetch(e.url) == Some(links)
    ensures QueueWork(queue + Children(e, Unvisited(links, visited)), fetch) + 1 <= QueueWork(queue, fetch) + Work(e, fetch)
  {
    var children := Children(e, Unvisited(links, visited));
    ChildrenWork(e, links, visited, fetch);
    QueueWorkAppend(queue, children, fetch);
    assert Work(e, fetch) == 1 + LinksWork(links, e.currentDepth + 1, e.maxDepth, fetch);
  }

  /** Settling one entry below its limit adds less to the queue than its work. */
  lemma CompleteStepWork(s: Frontier, e: Entry, fetch: Fetcher)
    requires e.currentDepth < e.maxDepth
    ensures QueueWork(CompleteStep(s, e, fetch(e.url)).queue, fetch) + 1 <= QueueWork(s.queue, fetch) + Work(e, fetch)
  {
    if fetch(e.url).Some? {
      var links := fetch(e.url).value;
      FetchedWork(s.queue, e, links, s.visitedUrls, fetch);
      assert CompleteStep(s, e, fetch(e.url)).queue == s.queue + Children(e, Unvisited(links, s.visitedUrls));
    }
  }

  /** Settling a batch of entries below their limits adds less to the queue than their work. */
  lemma {:induction false} CompleteAllWork(s: Frontier, batch: seq<Entry>, fetch: Fetcher)
    requires forall e | e in batch :: e.currentDepth < e.maxDepth
    ensures QueueWork(CompleteAll(s, batch, fetch).queue, fetch) + |batch| <= QueueWork(s.queue, fetch) + QueueWork(batch, fetch)
    decreases |batch|
  {
    if batch != [] {
      var e := batch[0];
      var s' := CompleteStep(s, e, fetch(e.url));
      assert e in batch;
      assert forall x | x in batch[1..] :: x in batch;
      CompleteStepWork(s, e, fetch);
      CompleteAllWork(s', batch[1..], fetch);
      assert CompleteAll(s, batch, fetch) == CompleteAll(s', batch[1..], fetch);
      assert QueueWork(batch, fetch) == Work(e, fetch) + QueueWork(batch[1..], fetch);
    }
  }

  /** Every iteration of the outer loop strictly lowers the queue's work: the crawl ends. */
  lemma BatchDecreasesWork(s: Frontier, fetch: Fetcher)
    requires s.queue != []
    ensures QueueWork(BatchStep(s, fetch).0.queue, fetch) < QueueWork(s.queue, fetch)
  {
    var p := Plan(s.queue, s.visitedUrls, MAX_CONCURRENT_REQUESTS);
    var d := DispatchStep(s);
    PlanBounds(s.queue, s.visitedUrls, MAX_CONCURRENT_REQUESTS);
    PlanDispatchesFresh(s.queue, s.visitedUrls, MAX_CONCURRENT_REQUESTS);
    PlanWork(s.queue, s.visitedUrls, MAX_CONCURRENT_REQUESTS, fetch);
    assert s.queue == s.queue[..p.0] + s.queue[p.0..];
    QueueWorkAppend(s.queue[..p.0], s.queue[p.0..], fetch);
    CompleteAllWork(d.0, d.1, fetch);
  }
}
