/**
 * How `SetTheWholeMatrix` splits the rows of the distance matrix among its
 * workers (main.js:355-361): worker `i` gets the rows
 * `[i * chunkSize, min((i + 1) * chunkSize, n))` with
 * `chunkSize = Math.ceil(n / NUM_THREADS)`. The lemmas hold for any positive
 * number of workers.
 */
module Partition {

  /** The number of worker threads (main.js:8). */
  const NUM_THREADS: nat := 8

  /** `Math.ceil(n / workers)`: the least chunk that covers `n` rows in `workers` pieces. */
  function ChunkSize(n: nat, workers: nat): (c: nat)
    requires workers > 0
    ensures c * workers >= n
    ensures c > 0 ==> (c - 1) * workers < n
    ensures n > 0 <==> c > 0
  {
    var c := (n + workers - 1) / workers;
    var rem := (n + workers - 1) % workers;
    assert n + workers - 1 == c * workers + rem;
    c
  }

  function ShardStart(n: nat, workers: nat, i: nat): nat
    requires workers > 0
  {
    i * ChunkSize(n, workers)
  }

  function ShardEnd(n: nat, workers: nat, i: nat): nat
    requires workers > 0
  {
    var e := (i + 1) * ChunkSize(n, workers);
    if e < n then e else n
  }

  /** Row `r` is one of the rows of worker `i`. */
  predicate InShard(n: nat, workers: nat, i: nat, r: nat)
    requires workers > 0
  {
    ShardStart(n, workers, i) <= r < ShardEnd(n, workers, i)
  }

  /** The worker whose range holds row `r`. */
  function ShardOf(n: nat, workers: nat, r: nat): (i: nat)
    requires workers > 0 && r < n
    ensures i < workers && InShard(n, workers, i, r)
  {
    var c := ChunkSize(n, workers);
    var i := r / c;
    assert i * c <= r < (i + 1) * c;
    assert i < workers by {
      if i >= workers {
        MulMonotone(workers, i, c);
      }
    }
    i
  }

  lemma MulMonotone(a: nat, b: nat, c: nat)
    requires a <= b
    ensures a * c <= b * c
  {
    assert b * c == a * c + (b - a) * c;
  }

  /** Every range ends at or below `n`, and a range that starts at or past its end is empty. */
  lemma ShardBounds(n: nat, workers: nat, i: nat)
    requires workers > 0
    ensures ShardEnd(n, workers, i) <= n
    ensures ShardStart(n, workers, i) >= ShardEnd(n, workers, i) ==> forall r :: !InShard(n, workers, i, r)
  {
  }

  /** No row belongs to two workers. */
  lemma ShardsDisjoint(n: nat, workers: nat, i: nat, j: nat, r: nat)
    requires workers > 0 && i != j
    ensures !(InShard(n, workers, i, r) && InShard(n, workers, j, r))
  {
    var c := ChunkSize(n, workers);
    if i < j {
      MulMonotone(i + 1, j, c);
    } else {
      MulMonotone(j + 1, i, c);
    }
  }

  /** The ranges cover `[0, n)`: each row belongs to exactly one worker, the one `ShardOf` names. */
  lemma ShardsCover(n: nat, workers: nat, r: nat)
    requires workers > 0 && r < n
    ensures forall i: nat | i < workers :: InShard(n, workers, i, r) <==> i == ShardOf(n, workers, r)
  {
    var k := ShardOf(n, workers, r);
    forall i: nat | i < workers && i != k
      ensures !InShard(n, workers, i, r)
    {
      ShardsDisjoint(n, workers, i, k, r);
    }
  }
}
