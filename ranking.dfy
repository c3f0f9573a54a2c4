/**
 * Closeness ranking (main.js:267-321, 418-428). A node's closeness is
 * `1 / sum` of the finite entries of its row; it is kept here as the integer
 * sum, with a sum of 0 standing for JavaScript's `1 / 0 = Infinity`, which
 * beats every finite score.
 */
module Ranking {
  import opened Common
  import opened Partition
  import opened Worker
  import opened DistanceMatrix

  /** `GetSumOfDistance` (main.js:418-428): the `reduce` over a row, adding only the finite cells. */
  function SumOfDistance(row: seq<Dist>): (sum: nat)
    ensures (forall j | 0 <= j < |row| :: row[j] == Inf) ==> sum == 0
    ensures forall j | 0 <= j < |row| && row[j].Fin? :: row[j].length <= sum
    ensures sum == 0 ==> forall j | 0 <= j < |row| :: row[j] == Inf || row[j] == Fin(0)
  {
    if row == [] then 0
    else
      var last := match row[|row| - 1] case Fin(d) => d case Inf => 0;
      SumOfDistance(row[..|row| - 1]) + last
  }

  /** A node's sum is 0, so its closeness is `Infinity`, exactly when the library finds no path from it. */
  lemma SumZeroIffIsolated(nodes: seq<Node>, sp: PathOracle, i: nat)
    requires i < |nodes|
    ensures SumOfDistance(OracleRow(nodes, sp, i)) == 0 <==> forall j | 0 <= j < |nodes| :: sp(nodes[i].id, nodes[j].id) == 0
  {
    OracleRowPositive(nodes, sp, i);
    var row := OracleRow(nodes, sp, i);
    if forall j | 0 <= j < |nodes| :: sp(nodes[i].id, nodes[j].id) == 0 {
      assert forall j | 0 <= j < |row| :: row[j] == Inf;
    }
  }

  /**
   * `1 / a > 1 / b` for the sums `a` and `b` (main.js:284, 288): `Infinity`
   * beats every finite score and ties with itself; a smaller positive sum is
   * a higher score.
   */
  predicate ScoreGreater(a: nat, b: nat) {
    if a == 0 then b != 0 else b != 0 && a < b
  }

  /** The scores are totally ordered: equal scores are equal sums. */
  lemma ScoreOrder(a: nat, b: nat, c: nat)
    ensures !ScoreGreater(a, a)
    ensures ScoreGreater(a, b) && ScoreGreater(b, c) ==> ScoreGreater(a, c)
    ensures ScoreGreater(a, b) || ScoreGreater(b, a) || a == b
    ensures a == 0 && b != 0 ==> ScoreGreater(a, b)
  {
  }

  /** A node and its score: `{ id, closenessCentrality }` with the sum in place of the score. */
  datatype Scored = Scored(id: string, sum: nat)

  /** What `GetMostCentralNode` returns (main.js:317). */
  datatype Ranking = Ranking(mostCentralNode: Option<Scored>, listUrls: seq<Scored>)

  /** The sums of the first `n` rows. */
  function Sums(rows: seq<seq<Dist>>, n: nat): (sums: seq<nat>)
    requires n <= |rows|
    ensures |sums| == n
  {
    seq(n, i requires 0 <= i < n => SumOfDistance(rows[i]))
  }

  /** `k` has a maximal score, and every earlier index a strictly lower one. */
  predicate IsFirstBest(sums: seq<nat>, k: nat) {
    && k < |sums|
    && (forall j | 0 <= j < |sums| :: !ScoreGreater(sums[j], sums[k]))
    && (forall j | 0 <= j < k :: ScoreGreater(sums[k], sums[j]))
  }

  /** Scanning one more score: it becomes the first best exactly when it beats the current one. */
  lemma FirstBestStep(sums: seq<nat>, best: nat, sum: nat)
    requires sums == [] || IsFirstBest(sums, best)
    ensures IsFirstBest(sums + [sum], if sums == [] || ScoreGreater(sum, sums[best]) then |sums| else best)
  {
    var s := sums + [sum];
    if sums == [] || ScoreGreater(sum, sums[best]) {
      forall j | 0 <= j < |s|
        ensures !ScoreGreater(s[j], sum)
      {
        if j < |sums| {
          ScoreOrder(s[j], sums[best], sum);
          ScoreOrder(sum, s[j], 0);
        }
      }
      forall j | 0 <= j < |sums|
        ensures ScoreGreater(sum, s[j])
      {
        ScoreOrder(sum, sums[best], s[j]);
      }
    } else {
      ScoreOrder(sum, sums[best], 0);
    }
  }

  /** The first index with a maximal score. */
  function FirstBest(sums: seq<nat>): (k: nat)
    requires |sums| > 0
    ensures IsFirstBest(sums, k)
  {
    if |sums| == 1 then 0
    else
      var init := sums[..|sums| - 1];
      var k := FirstBest(init);
      assert forall j | 0 <= j < |init| :: sums[j] == init[j];
      if ScoreGreater(sums[|sums| - 1], sums[k]) then |sums| - 1 else k
  }

  /** There is only one first best index. */
  lemma FirstBestUnique(sums: seq<nat>, k: nat)
    requires IsFirstBest(sums, k)
    ensures k == FirstBest(sums)
  {
    var f := FirstBest(sums);
    assert IsFirstBest(sums, f);
  }

  /** The `listUrls` the loop collects from the first `n` nodes: those whose id is a seed URL, in node order. */
  function SeedScores(urls: seq<string>, nodes: seq<Node>, rows: seq<seq<Dist>>, n: nat): (r: seq<Scored>)
    requires n <= |nodes| && n <= |rows|
    ensures forall x :: x in r <==> exists i | 0 <= i < n :: nodes[i].id in urls && x == Scored(nodes[i].id, SumOfDistance(rows[i]))
  {
    if n == 0 then []
    else
      var before := SeedScores(urls, nodes, rows, n - 1);
      var i := n - 1;
      before + if nodes[i].id in urls then [Scored(nodes[i].id, SumOfDistance(rows[i]))] else []
  }

  // ---------------------------------------------------------------------------
  // `listUrls.sort((a, b) => b.closenessCentrality - a.closenessCentrality)`
  // (main.js:305): a stable sort by descending score.

  /** No element has a higher score than one before it. */
  predicate SortedByScore(s: seq<Scored>) {
    forall i, j | 0 <= i < j < |s| :: !ScoreGreater(s[j].sum, s[i].sum)
  }

  /** The elements with the given sum, in order: the comparator treats them as equal. */
  function Ties(s: seq<Scored>, sum: nat): (r: seq<Scored>)
    ensures |r| <= |s|
    ensures forall x | x in r :: x in s && x.sum == sum
  {
    if s == [] then []
    else Ties(s[..|s| - 1], sum) + if s[|s| - 1].sum == sum then [s[|s| - 1]] else []
  }

  lemma {:induction false} TiesAppend(a: seq<Scored>, b: seq<Scored>, sum: nat)
    ensures Ties(a + b, sum) == Ties(a, sum) + Ties(b, sum)
    decreases |b|
  {
    if b == [] {
      assert a + b == a;
    } else {
      assert (a + b)[..|a + b| - 1] == a + b[..|b| - 1];
      TiesAppend(a, b[..|b| - 1], sum);
    }
  }

  /** Insert `x` after every element whose score is not below its own. */
  function Insert(sorted: seq<Scored>, x: Scored): (r: seq<Scored>)
    ensures multiset(r) == multiset(sorted) + multiset{x}
  {
    if sorted == [] then [x]
    else
      var last := sorted[|sorted| - 1];
      var init := sorted[..|sorted| - 1];
      assert sorted == init + [last];
      if ScoreGreater(x.sum, last.sum) then Insert(init, x) + [last] else sorted + [x]
  }

  /** The stable sort: insert the elements one by one, from the first. */
  function SortByScore(s: seq<Scored>): (r: seq<Scored>)
    ensures multiset(r) == multiset(s)
  {
    if s == [] then []
    else
      assert s == s[..|s| - 1] + [s[|s| - 1]];
      Insert(SortByScore(s[..|s| - 1]), s[|s| - 1])
  }

  lemma {:induction false} InsertSorted(sorted: seq<Scored>, x: Scored)
    requires SortedByScore(sorted)
    ensures SortedByScore(Insert(sorted, x))
  {
    if sorted != [] {
      var last := sorted[|sorted| - 1];
      var init := sorted[..|sorted| - 1];
      var r := Insert(sorted, x);
      if ScoreGreater(x.sum, last.sum) {
        InsertSorted(init, x);
        var front := Insert(init, x);
        forall i | 0 <= i < |front|
          ensures !ScoreGreater(last.sum, front[i].sum)
        {
          assert front[i] in multiset(front);
          if front[i] != x {
            assert front[i] in init;
          }
        }
      } else {
        forall i | 0 <= i < |sorted|
          ensures !ScoreGreater(x.sum, sorted[i].sum)
        {
          ScoreOrder(x.sum, last.sum, sorted[i].sum);
        }
      }
    }
  }

  lemma {:induction false} InsertTies(sorted: seq<Scored>, x: Scored, sum: nat)
    ensures Ties(Insert(sorted, x), sum) == Ties(sorted, sum) + Ties([x], sum)
  {
    if sorted == [] {
      assert Ties([x], sum) == Ties([], sum) + Ties([x], sum);
    } else {
      var last := sorted[|sorted| - 1];
      var init := sorted[..|sorted| - 1];
      assert sorted == init + [last];
      if ScoreGreater(x.sum, last.sum) {
        assert Insert(sorted, x) == Insert(init, x) + [last];
        InsertTies(init, x, sum);
        TiesAppend(Insert(init, x), [last], sum);
        TiesAppend(init, [last], sum);
        assert Ties([last], sum) == [] || Ties([x], sum) == [];
        SwapEmpty(Ties(init, sum), Ties([x], sum), Ties([last], sum));
      } else {
        TiesAppend(sorted, [x], sum);
      }
    }
  }

  lemma SwapEmpty<T>(p: seq<T>, u: seq<T>, v: seq<T>)
    requires u == [] || v == []
    ensures p + u + v == p + v + u
  {
    if u == [] {
      assert p + u == p;
      assert p + v + u == p + v;
    } else {
      assert p + v == p;
      assert p + u + v == p + u;
    }
  }

  /**
   * The sort orders by descending score, keeps the elements, and keeps the
   * order of equal scores (the sort is stable).
   */
  lemma {:induction false} SortByScoreProperties(s: seq<Scored>)
    ensures SortedByScore(SortByScore(s))
    ensures multiset(SortByScore(s)) == multiset(s)
    ensures forall sum :: Ties(SortByScore(s), sum) == Ties(s, sum)
  {
    if s != [] {
      var init := s[..|s| - 1];
      var last := s[|s| - 1];
      assert s == init + [last];
      SortByScoreProperties(init);
      InsertSorted(SortByScore(init), last);
      forall sum
        ensures Ties(SortByScore(s), sum) == Ties(s, sum)
      {
        InsertTies(SortByScore(init), last, sum);
        TiesAppend(init, [last], sum);
      }
    }
  }

  lemma SortedInit(s: seq<Scored>)
    requires SortedByScore(s) && s != []
    ensures SortedByScore(s[..|s| - 1])
  {
  }

  /** In a sorted sequence, the last element has the lowest score. */
  lemma SortedLastLowest(s: seq<Scored>, i: nat)
    requires SortedByScore(s) && i < |s|
    ensures !ScoreGreater(s[|s| - 1].sum, s[i].sum)
  {
    if i < |s| - 1 {
    }
  }

  /** The last element of a sequence is the last of its ties. */
  lemma LastOfTies(s: seq<Scored>)
    requires s != []
    ensures var ties := Ties(s, s[|s| - 1].sum); ties != [] && ties[|ties| - 1] == s[|s| - 1]
  {
  }

  /** Two sorted sequences with the same ties end with the same element. */
  lemma SameLast(t: seq<Scored>, r: seq<Scored>)
    requires SortedByScore(t) && SortedByScore(r) && t != [] && r != []
    requires Ties(t, t[|t| - 1].sum) == Ties(r, t[|t| - 1].sum)
    requires Ties(t, r[|r| - 1].sum) == Ties(r, r[|r| - 1].sum)
    ensures t[|t| - 1] == r[|r| - 1]
  {
    var a := t[|t| - 1];
    var b := r[|r| - 1];
    LastOfTies(t);
    LastOfTies(r);
    // `a` occurs in `r`, so `b` scores no higher than it; and symmetrically.
    assert a in Ties(r, a.sum);
    var i :| 0 <= i < |r| && r[i] == a;
    SortedLastLowest(r, i);
    assert b in Ties(t, b.sum);
    var j :| 0 <= j < |t| && t[j] == b;
    SortedLastLowest(t, j);
    ScoreOrder(a.sum, b.sum, 0);
  }

  /** Dropping the same last element from two sequences with the same ties keeps their ties the same. */
  lemma DropLastTies(t: seq<Scored>, r: seq<Scored>, sum: nat)
    requires t != [] && r != [] && t[|t| - 1] == r[|r| - 1]
    requires Ties(t, sum) == Ties(r, sum)
    ensures Ties(t[..|t| - 1], sum) == Ties(r[..|r| - 1], sum)
  {
    var a := t[|t| - 1];
    var tail := if a.sum == sum then [a] else [];
    var x, y := Ties(t[..|t| - 1], sum), Ties(r[..|r| - 1], sum);
    assert Ties(t, sum) == x + tail;
    assert Ties(r, sum) == y + tail;
    CancelRight(x, y, tail);
  }

  lemma CancelRight<T>(x: seq<T>, y: seq<T>, tail: seq<T>)
    requires x + tail == y + tail
    ensures x == y
  {
    assert |x| == |y|;
    assert x == (x + tail)[..|x|];
    assert y == (y + tail)[..|y|];
  }

  /**
   * Sortedness and the order of ties determine a sequence: the stable sort
   * is the only sorted arrangement that keeps the order of equal scores.
   */
  lemma {:induction false} SortedTiesUnique(t: seq<Scored>, r: seq<Scored>)
    requires SortedByScore(t) && SortedByScore(r)
    requires forall sum :: Ties(t, sum) == Ties(r, sum)
    ensures t == r
    decreases |t| + |r|
  {
    if t != [] && r != [] {
      SameLast(t, r);
      var t' := t[..|t| - 1];
      var r' := r[..|r| - 1];
      forall sum
        ensures Ties(t', sum) == Ties(r', sum)
      {
        DropLastTies(t, r, sum);
      }
      SortedInit(t);
      SortedInit(r);
      SortedTiesUnique(t', r');
      assert t == t' + [t[|t| - 1]] && r == r' + [r[|r| - 1]];
    } else if t != [] {
      LastOfTies(t);
    } else if r != [] {
      LastOfTies(r);
    }
  }

  /** Any stable sort by descending score of `s` is `SortByScore(s)`. */
  lemma StableSortUnique(s: seq<Scored>, t: seq<Scored>)
    requires SortedByScore(t) && forall sum :: Ties(t, sum) == Ties(s, sum)
    ensures t == SortByScore(s)
  {
    SortByScoreProperties(s);
    SortedTiesUnique(t, SortByScore(s));
  }

  // ---------------------------------------------------------------------------
  // The loop of `GetMostCentralNode`

  /**
   * main.js:282-305: score every node, keep the first strictly best one, and
   * collect the seed URLs' scores, then sort those by descending score.
   */
  method RankNodes(urls: seq<string>, nodes: seq<Node>, matrix: array<seq<Dist>>) returns (r: Ranking)
    requires |nodes| <= matrix.Length
    ensures r.mostCentralNode.None? <==> |nodes| == 0
    ensures |nodes| > 0 ==>
      var sums := Sums(matrix[..], |nodes|);
      r.mostCentralNode == Some(Scored(nodes[FirstBest(sums)].id, sums[FirstBest(sums)]))
    ensures r.listUrls == SortByScore(SeedScores(urls, nodes, matrix[..], |nodes|))
  {
    ghost var rows := matrix[..];
    var mostCentralNode: Option<Scored> := None;
    var listUrls: seq<Scored> := [];
    ghost var best: nat := 0;
    for i := 0 to |nodes|
      invariant i == 0 <==> mostCentralNode.None?
      invariant i > 0 ==> IsFirstBest(Sums(rows, i), best)
      invariant i > 0 ==> mostCentralNode == Some(Scored(nodes[best].id, SumOfDistance(rows[best])))
      invariant listUrls == SeedScores(urls, nodes, rows, i)
    {
      var sum := SumOfDistance(matrix[i]);
      ghost var before := Sums(rows, i);
      assert Sums(rows, i + 1) == before + [sum];
      FirstBestStep(before, best, sum);
      if i == 0 || ScoreGreater(sum, mostCentralNode.value.sum) {
        mostCentralNode := Some(Scored(nodes[i].id, sum));
        best := i;
      }
      if nodes[i].id in urls {
        listUrls := listUrls + [Scored(nodes[i].id, sum)];
      }
    }
    if |nodes| > 0 {
      FirstBestUnique(Sums(rows, |nodes|), best);
    }
    listUrls := SortByScore(listUrls);
    r := Ranking(mostCentralNode, listUrls);
  }

  /** The matrix every worker computes its rows of. */
  function OracleMatrix(nodes: seq<Node>, sp: PathOracle): (rows: seq<seq<Dist>>)
    ensures |rows| == |nodes|
  {
    seq(|nodes|, i requires 0 <= i < |nodes| => OracleRow(nodes, sp, i))
  }

  /**
   * `GetMostCentralNode` (main.js:267-321): build the matrix, fill it through
   * the workers, and rank. When a worker fails the error is caught and
   * logged, and nothing is returned (main.js:318-320).
   */
  method GetMostCentralNode(urls: seq<string>, nodes: seq<Node>, sp: PathOracle, arrival: seq<nat>)
    returns (r: Option<Ranking>)
    requires NoDup(arrival) && forall w | w in arrival :: w < NUM_THREADS
    ensures r.None? <==> |arrival| != NUM_THREADS
    ensures r.Some? ==>
      var rows := OracleMatrix(nodes, sp);
      var sums := Sums(rows, |nodes|);
      && (r.value.mostCentralNode.None? <==> |nodes| == 0)
      && (|nodes| > 0 ==> r.value.mostCentralNode == Some(Scored(nodes[FirstBest(sums)].id, sums[FirstBest(sums)])))
      && r.value.listUrls == SortByScore(SeedScores(urls, nodes, rows, |nodes|))
  {
    var matrix := CreateSquareMatrix(nodes);
    var ok := SetTheWholeMatrix(matrix, nodes, sp, arrival);
    if !ok {
      return None;
    }
    assert matrix[..] == OracleMatrix(nodes, sp);
    var ranking := RankNodes(urls, nodes, matrix);
    r := Some(ranking);
  }
}
