# Web crawler and closeness ranking — a Dafny model

This project models the core of a Node.js web crawler that works in two stages.

First, `crawlWebsite` crawls from a list of seed URLs, each with its own depth limit. The crawl is breadth-first and runs in batches of at most `MAX_CONCURRENT_REQUESTS` (10) fetches. It builds a graph of pages and links, and from it a labelled node list and a numbered edge list.

Second, `GetMostCentralNode` ranks the nodes by closeness centrality:
- It splits the rows of an all-pairs distance matrix among `NUM_THREADS` (8) worker threads.
- Each worker (`calculatePartialMatrix` in worker.js) computes its rows through a shortest-path library.
- The main thread merges the rows as the results arrive.
- It then picks the most central node and sorts the seed URLs by score.

Where the code runs step by step, the model does too:
- The crawl state is a class (`Crawler.CrawlState`) whose methods update its fields. Its two loops (dequeueing a batch, enqueueing a page's links) work on local copies of the fields and store them back when the loop ends, which nothing else can observe.
- The matrix is an `array` written row by row.
- The worker and the ranking loops are `while`/`for` loops with invariants.

Each method is proved against pure step functions and specification predicates (crawl_model.dfy, crawl_reach.dfy, crawl_work.dfy). Lemmas about those functions establish the properties that matter:
- a URL is fetched at most once;
- a page is fetched only below the depth limit of a seed it is reached from, along a chain of fetched links with one step per level (`Crawler.FetchedFromSeed`);
- the graph records only fetched pages;
- a batch holds at most 10 fetches;
- every link found below the limit is fetched;
- every edge joins two nodes;
- the crawl terminates;
- the row ranges cover the matrix disjointly;
- merging in any arrival order gives the full matrix;
- the ranking picks the first best node;
- the seed list is the unique stable descending sort.

The oracles are parameters:
- The page fetcher `fetch: string -> Option<seq<string>>` returns the page's normalised links, or `None` when the fetch or the parse fails.
- The shortest-path library is `sp: (string, string) -> nat`, the `.length` it reports for a pair of URLs.
- Worker failures are modelled by `arrival`, the distinct workers whose result arrived.

Scores are integer sums rather than floats. A score is `1 / sum`, so a smaller positive sum is a higher score. A sum of 0 is JavaScript's `1 / 0 = Infinity`, which beats every finite score and ties with itself (`Ranking.ScoreGreater`).

The depth gate of main.js:186 has consequences a reader may not expect, and the model keeps them as the code has them:
- **A seed with limit 0.** Its own entry is never fetched, and it does not make the URL a node: a URL enters `nodeSet` only when some entry for it is dispatched (main.js:186-188) or when a fetched page links to it (main.js:202). A lone seed with limit 0 is therefore not a node; the same URL given again with a positive limit, or linked from a fetched page, is. `CrawlExamples.LimitZeroRecordsNothing` works out the lone case.
- **A seed with limit 1.** Only pages with `currentDepth < maxDepth` are fetched. For the chain `a -> b -> c` with limit 1, only `a` is fetched; `b` is a node that is never fetched, and `c` is not a node. `CrawlExamples.LimitOneFetchesOnlySeed` works this case out on the steps, and `CrawlExamples.LimitOnePromiseFetchesOnlySeed` shows that every result keeping the promise of `crawlWebsite` fetches `a` alone.
- **A sum of 0.** The code computes `1 / 0 = Infinity` for it, and the model keeps that.

## Model

| member | source | states |
|---|---|---|
| Decimal.DecimalString | main.js:225 | `String(n)`: non-empty, all decimal digits, no leading zero for n > 0 |
| Decimal.ParseDecimalString | main.js:225 | reading a label back as a decimal number gives the number it was made from |
| Decimal.DecimalStringInjective | main.js:222-226 | different node indices get different labels |
| Links.Resolve | main.js:110-125 | the original link is always a suffix of the result; with absolute protocol and origin, the link is left unchanged exactly when it does not start with `/`, `?` or `#` |
| Links.KeptLinks | main.js:107 | no more links are kept than were given |
| Links.KeptLinksMembers | main.js:107 | the kept links are exactly the input links that do not start with `about:` |
| Links.KeptLinksAppend | main.js:107 | the filter keeps the relative order of the links |
| Links.NormaliseLinks | main.js:106-125 | the output has one link per kept link, and each is that link resolved |
| Links.PrefixedIsNotAbout | main.js:111-120 | prefixing a relative link with a protocol or origin never yields an `about:` link |
| Links.PrefixedIsNotRelative | main.js:111-120 | prefixing a relative link with a protocol or origin yields a link that is not relative |
| Links.ResolvedIsAbsolute | main.js:110-125 | a link that is not `about:` resolves to one that starts with none of `about:`, `/`, `?` or `#` |
| Links.NormalisedLinksAreAbsolute | main.js:106-125 | no output link starts with `about:`, `/`, `?` or `#` |
| Links.KeptLinksOfClean | main.js:107 | a list without `about:` links passes the filter whole |
| Links.NormaliseIdempotent | main.js:106-125 | normalising an already normalised list changes nothing |
| CrawlModel.Initial | main.js:166-175 | the starting state: the seed entries queued, and empty `visitedUrls`, `nodeSet` and `graph`. No contract of its own; `CrawlModel.InitialWf` and `CrawlReach.InitialRecordReach` prove the invariants it starts |
| CrawlModel.Dispatchable | main.js:186 | the gate: below the depth limit and not yet visited. No contract of its own; `CrawlModel.PlanDispatchesFresh` and `CrawlModel.PlanSkipsOnlyGated` state which entries pass it |
| CrawlModel.DispatchStep | main.js:181-188 | the dispatch half of a batch: dequeue by `Plan`, mark the batch visited, add its URLs to `nodeSet`. No contract of its own; `CrawlModel.PlanBounds`, `CrawlModel.PlanDispatchesFresh`, `CrawlModel.PlanSkipsOnlyGated` and `CrawlModel.DispatchWf` carry its properties |
| CrawlModel.CompleteStep | main.js:196-213 | one settled fetch: on success record the page, enqueue the unvisited links as children and add them to `nodeSet`; on failure change nothing. No contract of its own; `CrawlModel.CompleteWf`, `CrawlReach.CompleteRecord` and `CrawlReach.CompleteReach` carry its properties |
| CrawlModel.CompleteAll | main.js:218 | every fetch of a batch settled, in dispatch order. No contract of its own; `CrawlModel.CompleteAllWf`, `CrawlWork.CompleteAllWork` and `CrawlReach.CompleteAllRecordReach` carry its properties |
| CrawlModel.BatchStep | main.js:178-219 | one outer iteration: dispatch a batch, then settle all of it. No contract of its own; `CrawlModel.BatchWf`, `CrawlWork.BatchDecreasesWork` and `CrawlReach.BatchRecordReach` carry its properties |
| CrawlModel.SeedEntries | main.js:171-175 | one queue entry per seed, at depth 0 with that seed's own limit |
| CrawlModel.Plan | main.js:181-216 | the inner loop never dequeues more entries than the queue holds |
| CrawlModel.AddNode | main.js:187 | adding one URL to the insertion-ordered node set adds exactly that URL and keeps the old nodes first in their order |
| CrawlModel.AddNodes | main.js:202 | adding several URLs adds exactly those URLs and keeps the old nodes first in their order |
| CrawlModel.AddNodesNoDup | main.js:187-202 | a node set without repetitions stays without repetitions |
| CrawlModel.Unvisited | main.js:201 | the links enqueued are exactly the page's links that are not visited |
| CrawlModel.Children | main.js:203-207 | one child entry per enqueued link |
| CrawlModel.PlanBounds | main.js:178-181 | a batch holds at most 10 entries; it is short only when the queue ran dry; at least one entry is dequeued from a non-empty queue; dequeuing stops at a full batch |
| CrawlModel.PlanDispatchesFresh | main.js:183-188 | every dispatched entry is below its limit, had an unvisited URL, and was dequeued in this batch; the batch has no repeated URL |
| CrawlModel.PlanSkipsOnlyGated | main.js:186 | every dequeued entry below its limit has a URL that was already visited or is dispatched in this batch: nothing fetchable is dropped |
| CrawlModel.TargetsAppend | main.js:197 | recording a page adds exactly its links to the recorded targets |
| CrawlModel.InitialWf | main.js:167-175 | the seeded state satisfies the crawl invariant |
| CrawlModel.DispatchLog | main.js:186-187 | after a batch is dispatched, no URL has been dispatched twice, and `visitedUrls` is exactly the set of dispatched URLs |
| CrawlModel.DispatchDepths | main.js:183-188 | dispatching keeps `DepthsOk`: only entries below their limit are dispatched, and every dispatched or queued entry is a seed at depth 0 or a child of a dispatched entry (one level deeper, same limit, a link recorded for the parent's page) |
| CrawlModel.DispatchGraph | main.js:186-197 | the graph records no page twice, only dispatched pages, and none of the fetches still pending |
| CrawlModel.DispatchNodes | main.js:188 | the node set holds, once each, the dispatched URLs and the recorded links |
| CrawlModel.DispatchWf | main.js:181-216 | dispatching a batch keeps the crawl invariant |
| CrawlModel.PendingHead | main.js:196-197 | the next fetch to settle was dispatched, its URL is visited, and no other pending fetch has the same URL |
| CrawlModel.CompleteDepths | main.js:200-208 | settling keeps `DepthsOk`; the old queue is kept as a prefix, and every entry enqueued after it is a child of the settled entry: one level deeper, under the same limit, for a link recorded for its page |
| CrawlModel.CompleteGraph | main.js:196-213 | settling a fetch records its page at most once, and a failed fetch records nothing |
| CrawlModel.CompleteNodes | main.js:200-209 | enqueued links join the node set once each |
| CrawlModel.CompleteWf | main.js:196-213 | settling one fetch keeps the crawl invariant |
| CrawlModel.CompleteAllWf | main.js:218 | settling a whole batch keeps the crawl invariant |
| CrawlModel.BatchWf | main.js:178-219 | one outer iteration keeps the crawl invariant and dispatches at most 10 fetches |
| CrawlWork.QueueWorkAppend | main.js:203 | the work of a queue is additive |
| CrawlWork.ChildrenWork | main.js:200-208 | the children of a page weigh no more than the work of its links |
| CrawlWork.PlanWork | main.js:181-188 | the dispatched entries weigh no more than the dequeued ones |
| CrawlWork.FetchedWork | main.js:196-208 | enqueueing the unvisited links of a page fetched below its limit adds less work than the entry carried |
| CrawlWork.CompleteStepWork | main.js:196-213 | settling an entry below its limit adds less to the queue than that entry's work |
| CrawlWork.CompleteAllWork | main.js:218 | settling a batch adds less work than the batch carried |
| CrawlWork.BatchDecreasesWork | main.js:178-219 | each outer iteration strictly lowers the queue's work, so the crawl ends for every fetcher |
| CrawlReach.InitialRecordReach | main.js:167-175 | at the start, the graph is empty and every seed below its limit is queued |
| CrawlReach.DispatchKeepsReached | main.js:183-187 | a URL that was queued below its limit or visited stays so after dispatch |
| CrawlReach.DispatchRecord | main.js:181-216 | after dispatch, every graph entry still equals its page's fetch result |
| CrawlReach.DispatchReach | main.js:181-216 | after dispatch, seeds and links found below the limit are still queued or visited |
| CrawlReach.CompleteRecord | main.js:196-213 | a settled successful fetch is recorded with exactly the links the fetcher returned |
| CrawlReach.RecordFetched | main.js:197 | recording a page with the links its fetch returned keeps every record equal to the fetcher's answer |
| CrawlReach.CompleteKeepsReached | main.js:196-213 | settling a fetch never drops a reached URL |
| CrawlReach.CompleteReachesLinks | main.js:200-208 | when a page's children are still below the limit, every link of the page ends up queued or visited |
| CrawlReach.CompleteReach | main.js:196-213 | settling one fetch keeps every found link below the limit reached |
| CrawlReach.CompleteAllRecordReach | main.js:218 | settling a batch keeps the graph faithful to the fetcher and every found link reached |
| CrawlReach.BatchRecordReach | main.js:178-219 | one outer iteration keeps both properties |
| CrawlReach.ReachedWhenEmpty | main.js:178 | once the queue is empty, every seed below its limit and every link found below the limit has been visited |
| CrawlExamples.LimitOneFetchesOnlySeed | main.js:186 | with limit 1 on the chain a -> b -> c, only a is fetched, b is a node, and c never appears |
| CrawlExamples.LimitZeroRecordsNothing | main.js:186-188 | a lone seed with limit 0 is neither fetched nor a node |
| CrawlExamples.LimitOnePromiseFetchesOnlySeed | main.js:186 | with seed a at limit 1 on the chain a -> b -> c, every result keeping the promise of `crawlWebsite` fetched only the seed entry and recorded only page a |
| GraphOutput.LinkPairs | main.js:231-232 | there is one (from, to) pair per recorded link, duplicates included |
| GraphOutput.LinkPairsInGraph | main.js:231-239 | every pair starts at a recorded page and ends at a recorded link |
| GraphOutput.BuildNodes | main.js:222-226 | node i has id `nodeSet[i]` and label `String(i + 1)` |
| GraphOutput.NodeLabels | main.js:222-226 | every label is all digits, parses back to its 1-based position, and differs from every other label |
| GraphOutput.BuildEdges | main.js:229-240 | edge k is numbered k + 1 and joins the k-th recorded (page, link) pair |
| Crawler.DequeueStart | main.js:179-181 | an empty batch starts the dequeue loop in step with `Plan` |
| Crawler.DequeueDispatch | main.js:183-194 | dispatching the dequeued head keeps the loop in step with `Plan` |
| Crawler.DequeueSkip | main.js:183-186 | skipping a gated head keeps the loop in step with `Plan` |
| Crawler.DispatchDone | main.js:180 | a dequeue loop that stopped has performed `DispatchStep` |
| Crawler.DequeueOne | main.js:182-188 | one pass shifts the head off the queue and keeps the loop in step with `Plan` |
| Crawler.DequeueBatch | main.js:180-215 | the dequeue loop, on copies of the queue, visited set and node set, performs exactly `DispatchStep` |
| Crawler.EnqueueVisited | main.js:201 | a visited link adds nothing to the queue or the node set |
| Crawler.EnqueueFresh | main.js:201-207 | an unvisited link joins the queue one level deeper under the same limit, and the node set unless it is there already |
| Crawler.CrawlState.constructor | main.js:167-175 | the state starts with the seed entries queued, nothing visited, and empty node set and graph |
| Crawler.CrawlState.DispatchBatch | main.js:180-215 | the dequeue loop updates the state to exactly `DispatchStep` of the old state, and returns its batch |
| Crawler.CrawlState.EnqueueLinks | main.js:200-209 | the queue gains one child per unvisited link, the node set gains the unvisited links, and nothing else changes |
| Crawler.CrawlState.OnFetchSettled | main.js:196-213 | the callback performs exactly `CompleteStep`: on success it records the page and enqueues its links; on failure nothing changes |
| Crawler.CrawlState.RunBatch | main.js:178-219 | one outer iteration performs `BatchStep`, keeps the crawl invariant, extends the dispatch log with the batch, and fetches at most 10 pages |
| Crawler.FinishedCrawl | main.js:178-250 | a crawl whose queue ran dry keeps every promise in `CrawlPromise`, including the lineage of each fetched entry back to a seed and graph keys that are fetched pages |
| Crawler.EdgesJoinNodes | main.js:229-240 | every built edge runs from a node to a node: its ends are a recorded page and one of its recorded links |
| Crawler.LineageFromSeed | main.js:171-207 | an entry with a lineage of recorded fetches is reached from a seed `i` by a chain of links the fetcher served, with `currentDepth` steps, fewer than `depths[i]`, and carries that seed's limit |
| Crawler.FetchedFromSeed | main.js:171-207 | every page a crawl fetched is reached from some seed `i` by a chain of fetched links shorter than `depths[i]`, and carries that seed's limit |
| Crawler.CrawlWebsite | main.js:154-254 | fails exactly when the counts of URLs and depths differ. Otherwise: no URL is fetched twice; every fetched entry is below its limit and descends from a seed through fetched pages, one level per step, under that seed's limit; every seed and every link found below the limit is fetched; the graph holds each successful fetch once with its links, only pages that were fetched, and never a failed one; the nodes are the fetched URLs and recorded links, labelled "1".."n"; one edge per recorded link, numbered 1..E, between nodes |
| Partition.ChunkSize | main.js:355 | `Math.ceil(n / workers)`: the least chunk that covers n rows, and 0 exactly when n is 0 |
| Partition.ShardOf | main.js:360-361 | the worker owning row r exists and its range holds r |
| Partition.ShardBounds | main.js:360-361 | every range ends at or below n; a range whose start is at or past its end is empty |
| Partition.ShardsDisjoint | main.js:359-361 | no row is in two ranges |
| Partition.ShardsCover | main.js:359-361 | each row of [0, n) is in the range of exactly one worker |
| Worker.Cell | worker.js:40 | a path length of 0 becomes `Infinity`; any other length is kept |
| Worker.OracleRow | worker.js:34-41 | a row has one cell per node |
| Worker.CalculatePartialMatrix | worker.js:28-52 | returns the unchanged start and end, with one row per index in range (none for an empty range). Row k is the oracle row of node start + k. The status is "Completed" for a non-empty range and unset otherwise. One progress message is posted per row but the last |
| Worker.RunWorker | worker.js:54-62 | the worker posts its progress messages, then exactly one final message carrying the start, end and rows |
| Worker.OracleRowPositive | worker.js:36-40 | no computed cell is a zero length, and a cell is `Infinity` exactly when the library reports length 0 |
| DistanceMatrix.InfRow | main.js:331 | n cells, all `Infinity` |
| DistanceMatrix.CreateSquareMatrix | main.js:328-335 | a fresh matrix with one all-`Infinity` row per node |
| DistanceMatrix.Merged | main.js:390-392 | merging keeps the number of rows |
| DistanceMatrix.MergeShard | main.js:390-392 | rows start..end-1 are overwritten with the worker's rows in order, and every other row is unchanged |
| DistanceMatrix.ShardRows | worker.js:33-48 | a worker's result has one row per index of its range, each the oracle row of that index |
| DistanceMatrix.MergeArrivals | main.js:380-399 | merging the arrived results keeps the number of rows |
| DistanceMatrix.MergeShardRow | main.js:390-392 | merging worker w's rows sets row i to its oracle row if w owns i, and leaves it unchanged otherwise |
| DistanceMatrix.MergeArrivalsRows | main.js:380-399 | in any arrival order, row i ends up as its oracle row if its owner arrived, and unchanged otherwise |
| DistanceMatrix.AllArrived | main.js:395-396 | there are at most 8 distinct arrivals, and counting 8 of them means every worker arrived |
| DistanceMatrix.SetTheWholeMatrix | main.js:353-410 | succeeds exactly when all 8 results arrive; the matrix is the merge of the arrived results; on success row i is the oracle row of node i |
| Ranking.SumOfDistance | main.js:418-428 | an all-`Infinity` row sums to 0; the sum is at least every finite cell; a zero sum means no positive finite cell |
| Ranking.SumZeroIffIsolated | worker.js:36-40 | a node's sum is 0, and its score `Infinity`, exactly when the library finds no path from it to any node |
| Ranking.ScoreGreater | main.js:284-288 | `1 / a > 1 / b` on the sums, with a sum of 0 as `Infinity`. No contract of its own; `Ranking.ScoreOrder` proves it a strict total order in which `Infinity` beats every finite score |
| Ranking.ScoreOrder | main.js:288 | comparing scores is a strict total order on sums, and `Infinity` beats every finite score |
| Ranking.FirstBest | main.js:285-294 | the chosen index has a maximal score, and every earlier index a strictly lower one |
| Ranking.FirstBestStep | main.js:285-294 | scanning one more node makes it the first best exactly when it beats the current one |
| Ranking.FirstBestUnique | main.js:285-294 | only one index is first with a maximal score |
| Ranking.SeedScores | main.js:296-301 | the collected list holds exactly the nodes whose id is a seed URL, with their sums |
| Ranking.Insert | main.js:305 | inserting adds exactly the element |
| Ranking.SortByScore | main.js:305 | sorting permutes the list |
| Ranking.InsertSorted | main.js:305 | inserting into a descending list keeps it descending |
| Ranking.InsertTies | main.js:305 | the inserted element goes after every equal-score element |
| Ranking.SortByScoreProperties | main.js:305 | the sort is descending by score, a permutation, and stable (equal scores keep their order) |
| Ranking.SameLast | main.js:305 | two descending lists with the same ties end alike |
| Ranking.SortedTiesUnique | main.js:305 | a descending order that keeps the order of ties is unique |
| Ranking.StableSortUnique | main.js:305 | every stable descending sort of the list equals `SortByScore` |
| Ranking.RankNodes | main.js:279-305 | the most central node is missing exactly when there are no nodes; otherwise it is the first node of maximal score. The seed list is the seed-URL nodes, stably sorted by descending score |
| Ranking.GetMostCentralNode | main.js:267-321 | returns nothing exactly when a worker failed. Otherwise it ranks the matrix of oracle rows: the first node of maximal score, and the stably sorted seed list |

## Left out

- Reading the URL file, prompting for depths and validating URLs (`readUrlsFromFile`, `getDepthFromUser`, `getArrayOfDepth`, main.js:16-81), and `main` (main.js:433-461): console and file I/O. Depths are taken as natural numbers.
- HTTP fetching, `response.text()` and the JSDOM parse (main.js:94-104): network and a foreign library. The crawl takes a `fetch` parameter that returns a page's links, already normalised, or `None` for any failure.
- The `new URL(...)` parse (main.js:112, 119). The `protocol` and `origin` are parameters of `Links.Resolve`.
- Crawler.CrawlState.RunBatch: the callbacks of a batch are applied in dispatch order. JavaScript runs them in completion order, and the model fixes one order. That order decides more than the order of the queue, of `nodeSet` and of `graph` (and so labels and edge numbers): it also decides WHICH pages are fetched. When two pages of a batch link to the same unvisited URL, each callback enqueues an entry for it (main.js:201-207), and the entry enqueued first is the one dispatched; its depth and limit are inherited by everything found below it. With seeds A (limit 3) and B (limit 5) both linking to x, x to y and y to z, z is fetched only when B's callback runs first. The model, which always runs A's first, never fetches z. The properties proved (no URL fetched twice, lineage under a seed's limit, batch size, reach, graph and node contents) hold for the order the model fixes; they are not proved for the other orders.
- The key order of `Object.entries(graph)` (main.js:231). The model keeps pages in recording order, which is what JavaScript does for keys that are not array indices.
- The `arrows: "to"` field of edges (main.js:237): a constant with no behaviour.
- Worker threads, `postMessage`, and the `error`/`exit` listeners (main.js:362-371, 380-408; worker.js:2, 44, 62). A run is modelled by `arrival`, the distinct workers whose result arrived, in arrival order. `ok` is false when fewer than 8 arrived, which stands for a rejected promise.
- The progress counter `nodesProcessed` and its output (main.js:377, 382-385): logging only.
- The `dijkstra-calculator` library and the graph the worker builds for it (worker.js:3, 7-16). It is modelled as the oracle `sp`, and nothing is assumed about what its `.length` counts.
- Ranking.SumOfDistance: closeness `1 / sum` is a float, and the comparator `b - a` can produce `NaN` for `Infinity - Infinity` (main.js:284, 305). The model keeps the integer sum and orders sums by `Ranking.ScoreGreater`, with 0 as `Infinity`. It does not model float rounding, which could make two close scores compare equal.
- Ranking.RankNodes: `listUrls.sort` sorts in place (main.js:305). The model reassigns the list to the value of the stable sort function `Ranking.SortByScore`. `Array.prototype.sort` is stable, and the model relies on that.
- Ranking.GetMostCentralNode: the caught error is logged, and the function returns `undefined` (main.js:318-320); the model returns `None`.
- JavaScript number width: node labels, edge ids and distance sums are unbounded naturals in the model. In JavaScript, `String(n)` switches to exponent form from 1e21, and `nodeIndex++`, `edgeIndex++` and the sums lose precision above 2^53; no crawl reaches those sizes.
- Timing and console output (`performance.now`, `console.*`, `process.stdout.write`) and the JSON file writes: I/O with no effect on results.
