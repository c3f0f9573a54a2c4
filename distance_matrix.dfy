/**
 * The distance matrix of `GetMostCentralNode`: `createSquareMatrix`
 * (main.js:328-335) and `SetTheWholeMatrix` (main.js:353-410), which starts
 * one worker per row range and copies each worker's rows into the matrix as
 * its result arrives. Threads and messages are not modelled: `arrival` lists
 * the workers whose result arrived, in arrival order, before the crawl
 * either had all `NUM_THREADS` of them or a worker failed.
 */
module DistanceMatrix {
  import opened Common
  import opened Partition
  import opened Worker

  /** `new Array(n).fill(Infinity)` */
  function InfRow(n: nat): (row: seq<Dist>)
    ensures |row| == n && forall j | 0 <= j < n :: row[j] == Inf
  {
    seq(n, j => Inf)
  }

  /** `createSquareMatrix(nodes)`: one row of `Infinity` per node. */
  method CreateSquareMatrix(nodes: seq<Node>) returns (matrix: array<seq<Dist>>)
    ensures fresh(matrix) && matrix.Length == |nodes|
    ensures forall i | 0 <= i < matrix.Length :: matrix[i] == InfRow(|nodes|)
  {
    matrix := new seq<Dist>[|nodes|];
    for i := 0 to |nodes|
      invariant forall k | 0 <= k < i :: matrix[k] == InfRow(|nodes|)
    {
      matrix[i] := InfRow(|nodes|);
    }
  }

  /** The rows after a worker's rows are copied over `[startIndex, endIndex)` (main.js:390-392). */
  function Merged(rows: seq<seq<Dist>>, startIndex: nat, endIndex: nat, partialMatrix: seq<seq<Dist>>): (r: seq<seq<Dist>>)
    requires startIndex < endIndex ==> endIndex <= |rows| && endIndex - startIndex <= |partialMatrix|
    ensures |r| == |rows|
  {
    seq(|rows|, i requires 0 <= i < |rows| =>
      if startIndex <= i < endIndex then partialMatrix[i - startIndex] else rows[i])
  }

  /** The merge loop of main.js:390-392, writing the matrix in place. */
  method MergeShard(matrix: array<seq<Dist>>, startIndex: nat, endIndex: nat, partialMatrix: seq<seq<Dist>>)
    requires startIndex < endIndex ==> endIndex <= matrix.Length && endIndex - startIndex <= |partialMatrix|
    modifies matrix
    ensures matrix[..] == Merged(old(matrix[..]), startIndex, endIndex, partialMatrix)
  {
    var i := startIndex;
    while i < endIndex
      invariant startIndex <= i && (if startIndex < endIndex then i <= endIndex else i == startIndex)
      invariant forall k | 0 <= k < matrix.Length ::
        matrix[k] == if startIndex <= k < i then partialMatrix[k - startIndex] else old(matrix[k])
    {
      matrix[i] := partialMatrix[i - startIndex];
      i := i + 1;
    }
  }

  /** The rows of worker `w`, exactly as `calculatePartialMatrix` computes them. */
  function ShardRows(nodes: seq<Node>, sp: PathOracle, w: nat): (rows: seq<seq<Dist>>)
    ensures var s := ShardStart(|nodes|, NUM_THREADS, w);
      |rows| == RangeSize(s, ShardEnd(|nodes|, NUM_THREADS, w)) &&
      forall k | 0 <= k < |rows| :: s + k < |nodes| && rows[k] == OracleRow(nodes, sp, s + k)
  {
    var s := ShardStart(|nodes|, NUM_THREADS, w);
    var e := ShardEnd(|nodes|, NUM_THREADS, w);
    ShardBounds(|nodes|, NUM_THREADS, w);
    seq(RangeSize(s, e), k requires 0 <= k < RangeSize(s, e) => OracleRow(nodes, sp, s + k))
  }

  /** The rows after the results of the workers in `arrival` have been merged, in that order. */
  function MergeArrivals(rows: seq<seq<Dist>>, nodes: seq<Node>, sp: PathOracle, arrival: seq<nat>): (r: seq<seq<Dist>>)
    requires |rows| == |nodes|
    ensures |r| == |rows|
  {
    if arrival == [] then rows
    else
      var w := arrival[|arrival| - 1];
      ShardBounds(|nodes|, NUM_THREADS, w);
      Merged(MergeArrivals(rows, nodes, sp, arrival[..|arrival| - 1]), ShardStart(|nodes|, NUM_THREADS, w),
             ShardEnd(|nodes|, NUM_THREADS, w), ShardRows(nodes, sp, w))
  }

  /** Merging worker `w`'s rows gives row `i` its oracle row when `w` owns it, and leaves it otherwise. */
  lemma MergeShardRow(rows: seq<seq<Dist>>, nodes: seq<Node>, sp: PathOracle, w: nat, i: nat)
    requires |rows| == |nodes| && w < NUM_THREADS && i < |rows|
    ensures ShardEnd(|nodes|, NUM_THREADS, w) <= |nodes|
    ensures Merged(rows, ShardStart(|nodes|, NUM_THREADS, w), ShardEnd(|nodes|, NUM_THREADS, w), ShardRows(nodes, sp, w))[i]
         == if w == ShardOf(|nodes|, NUM_THREADS, i) then OracleRow(nodes, sp, i) else rows[i]
  {
    ShardBounds(|nodes|, NUM_THREADS, w);
    ShardsCover(|nodes|, NUM_THREADS, i);
    var start := ShardStart(|nodes|, NUM_THREADS, w);
    if InShard(|nodes|, NUM_THREADS, w, i) {
      assert ShardRows(nodes, sp, w)[i - start] == OracleRow(nodes, sp, i);
    }
  }

  /**
   * Whatever the arrival order, row `i` ends up as the oracle row of node `i`
   * when the worker that owns it has arrived, and unchanged otherwise.
   */
  lemma {:induction false} MergeArrivalsRows(rows: seq<seq<Dist>>, nodes: seq<Node>, sp: PathOracle, arrival: seq<nat>)
    requires |rows| == |nodes|
    requires forall w | w in arrival :: w < NUM_THREADS
    ensures forall i | 0 <= i < |rows| ::
      MergeArrivals(rows, nodes, sp, arrival)[i]
        == if ShardOf(|nodes|, NUM_THREADS, i) in arrival then OracleRow(nodes, sp, i) else rows[i]
  {
    if arrival != [] {
      var init := arrival[..|arrival| - 1];
      var w := arrival[|arrival| - 1];
      assert arrival == init + [w];
      assert w in arrival;
      assert forall x | x in init :: x in arrival;
      MergeArrivalsRows(rows, nodes, sp, init);
      var before := MergeArrivals(rows, nodes, sp, init);
      forall i | 0 <= i < |rows|
        ensures MergeArrivals(rows, nodes, sp, arrival)[i]
          == if ShardOf(|nodes|, NUM_THREADS, i) in arrival then OracleRow(nodes, sp, i) else rows[i]
      {
        MergeShardRow(before, nodes, sp, w, i);
      }
    }
  }

  /** The elements of a sequence without repetitions are as many as its length. */
  lemma {:induction false} NoDupCard(s: seq<nat>)
    requires NoDup(s)
    ensures |Elems(s)| == |s|
  {
    if s != [] {
      var init := s[..|s| - 1];
      var last := s[|s| - 1];
      assert s == init + [last];
      assert Elems(s) == Elems(init) + {last};
      forall k | 0 <= k < |init|
        ensures init[k] != last
      {
        assert s[k] == init[k];
      }
      assert last !in init;
      NoDupCard(init);
    }
  }

  /** The worker numbers `0 .. k - 1`. */
  function Range(k: nat): (r: set<nat>)
    ensures |r| == k
    ensures forall w: nat :: w in r <==> w < k
  {
    if k == 0 then {} else Range(k - 1) + {k - 1}
  }

  /**
   * `completedWorkers === NUM_THREADS` (main.js:395-396) means every worker has
   * arrived: each worker posts one result, so `NUM_THREADS` distinct arrivals
   * are all of them.
   */
  lemma AllArrived(arrival: seq<nat>)
    requires NoDup(arrival) && forall w | w in arrival :: w < NUM_THREADS
    ensures |arrival| <= NUM_THREADS
    ensures |arrival| == NUM_THREADS <==> forall w: nat | w < NUM_THREADS :: w in arrival
  {
    NoDupCard(arrival);
    ElemsInRange(arrival, NUM_THREADS);
    SubsetOfRange(Elems(arrival), NUM_THREADS);
    ElemsCoverRange(arrival, NUM_THREADS);
  }

  lemma ElemsInRange(s: seq<nat>, k: nat)
    requires forall w | w in s :: w < k
    ensures Elems(s) <= Range(k)
  {
  }

  /** Every number below `k` occurs in `s` exactly when `Elems(s)` covers `Range(k)`. */
  lemma ElemsCoverRange(s: seq<nat>, k: nat)
    ensures (forall w: nat | w < k :: w in s) <==> Range(k) <= Elems(s)
  {
    var all, seen := Range(k), Elems(s);
    if all <= seen {
      forall w: nat | w < k
        ensures w in s
      {
        assert w in all;
      }
    }
    if forall w: nat | w < k :: w in s {
      forall w | w in all
        ensures w in seen
      {
        assert w in s;
      }
    }
  }

  /** A subset of `0 .. k - 1` has at most `k` members, and exactly `k` only when it is all of them. */
  lemma SubsetOfRange(a: set<nat>, k: nat)
    requires a <= Range(k)
    ensures |a| <= k && (|a| == k <==> Range(k) <= a)
  {
    var all := Range(k);
    assert |all - a| == |all| - |a|;
    if |a| == k {
      assert all - a == {};
    }
  }

  /**
   * `SetTheWholeMatrix` (main.js:353-410): start the `NUM_THREADS` workers on
   * their ranges, then merge each result as it arrives. `ok` is whether the
   * promise resolves, which it does once `NUM_THREADS` results have arrived;
   * otherwise a worker failed and it rejects.
   */
  method SetTheWholeMatrix(matrix: array<seq<Dist>>, nodes: seq<Node>, sp: PathOracle, arrival: seq<nat>)
    returns (ok: bool)
    requires matrix.Length == |nodes|
    requires NoDup(arrival) && forall w | w in arrival :: w < NUM_THREADS
    modifies matrix
    ensures ok <==> |arrival| == NUM_THREADS
    ensures matrix[..] == MergeArrivals(old(matrix[..]), nodes, sp, arrival)
    ensures ok ==> forall i | 0 <= i < matrix.Length :: matrix[i] == OracleRow(nodes, sp, i)
  {
    var chunkSize := ChunkSize(|nodes|, NUM_THREADS);
    var ranges: seq<(nat, nat)> := [];
    for i := 0 to NUM_THREADS
      invariant |ranges| == i
      invariant forall k | 0 <= k < i :: ranges[k] == (ShardStart(|nodes|, NUM_THREADS, k), ShardEnd(|nodes|, NUM_THREADS, k))
    {
      var startIndex := i * chunkSize;
      var endIndex := if (i + 1) * chunkSize < |nodes| then (i + 1) * chunkSize else |nodes|;
      ranges := ranges + [(startIndex, endIndex)];
    }
    var completedWorkers := 0;
    ghost var rows0 := matrix[..];
    for a := 0 to |arrival|
      invariant completedWorkers == a
      invariant matrix[..] == MergeArrivals(rows0, nodes, sp, arrival[..a])
    {
      var w := arrival[a];
      assert w in arrival;
      ShardBounds(|nodes|, NUM_THREADS, w);
      var messages := RunWorker(ranges[w].0, ranges[w].1, nodes, sp);
      ghost var before := matrix[..];
      ghost var after := MergeArrivals(rows0, nodes, sp, arrival[..a + 1]);
      assert arrival[..a + 1][..a] == arrival[..a];
      assert after == Merged(before, ranges[w].0, ranges[w].1, ShardRows(nodes, sp, w));
      for m := 0 to |messages|
        invariant completedWorkers == a + (if m == |messages| then 1 else 0)
        invariant matrix[..] == if m == |messages| then after else before
      {
        match messages[m]
        case Progress =>
        case Done(result) =>
          assert m == |messages| - 1;
          assert result.partialMatrix == ShardRows(nodes, sp, w);
          MergeShard(matrix, result.startIndex, result.endIndex, result.partialMatrix);
          completedWorkers := completedWorkers + 1;
      }
    }
    assert arrival[..|arrival|] == arrival;
    ok := completedWorkers == NUM_THREADS;
    if ok {
      AllArrived(arrival);
      MergeArrivalsRows(rows0, nodes, sp, arrival);
    }
  }
}
