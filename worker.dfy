/**
 * The worker thread of worker.js: it computes the rows `[startIndex, endIndex)`
 * of the distance matrix, posting a progress message per row but the last,
 * then posts its result. The shortest-path library is a parameter: `sp(a, b)`
 * stands for `graph.calculateShortestPath(a, b).length` on the graph of the
 * crawled nodes and edges (worker.js:7-16, 36-39).
 */
module Worker {
  import opened Common

  /** The `.length` of the path the shortest-path library returns between two URLs. */
  type PathOracle = (string, string) -> nat

  /** worker.js:40: a length of 0 (no path) becomes `Infinity`. */
  function Cell(length: nat): (d: Dist)
    ensures d == Inf <==> length == 0
    ensures d.Fin? ==> d.length == length
  {
    if length != 0 then Fin(length) else Inf
  }

  /** The row of node `i`: its cell for every node `j`, in node order. */
  function OracleRow(nodes: seq<Node>, sp: PathOracle, i: nat): (row: seq<Dist>)
    requires i < |nodes|
    ensures |row| == |nodes|
  {
    seq(|nodes|, j requires 0 <= j < |nodes| => Cell(sp(nodes[i].id, nodes[j].id)))
  }

  /** The `status` a worker reports: unset, or what its last row set. */
  datatype Status = NoStatus | Ongoing | Completed

  /** The object `calculatePartialMatrix` returns (worker.js:51). */
  datatype PartialResult = PartialResult(startIndex: nat, endIndex: nat, partialMatrix: seq<seq<Dist>>, status: Status)

  /** What a worker posts: `{ status: "Ongoing" }`, or its result (worker.js:44, 62). */
  datatype Message = Progress | Done(result: PartialResult)

  /** The number of rows in `[startIndex, endIndex)`: none when the range is empty. */
  function RangeSize(startIndex: nat, endIndex: nat): nat {
    if startIndex < endIndex then endIndex - startIndex else 0
  }

  /** `calculatePartialMatrix` (worker.js:28-52), with the progress messages it posts. */
  method CalculatePartialMatrix(startIndex: nat, endIndex: nat, nodes: seq<Node>, sp: PathOracle)
    returns (r: PartialResult, posted: seq<Message>)
    requires startIndex < endIndex ==> endIndex <= |nodes|
    ensures r.startIndex == startIndex && r.endIndex == endIndex
    ensures |r.partialMatrix| == RangeSize(startIndex, endIndex)
    ensures forall k | 0 <= k < |r.partialMatrix| :: r.partialMatrix[k] == OracleRow(nodes, sp, startIndex + k)
    ensures r.status == if startIndex < endIndex then Completed else NoStatus
    ensures |posted| == if startIndex < endIndex then endIndex - startIndex - 1 else 0
    ensures forall m | m in posted :: m == Progress
  {
    var status := NoStatus;
    var partialMatrix: seq<seq<Dist>> := [];
    posted := [];
    var i := startIndex;
    while i < endIndex
      invariant startIndex <= i && (if startIndex < endIndex then i <= endIndex else i == startIndex)
      invariant |partialMatrix| == i - startIndex
      invariant forall k | 0 <= k < |partialMatrix| :: partialMatrix[k] == OracleRow(nodes, sp, startIndex + k)
      invariant status == if i == startIndex then NoStatus else if i == endIndex then Completed else Ongoing
      invariant |posted| == if i == startIndex then 0 else if i == endIndex then i - startIndex - 1 else i - startIndex
      invariant forall m | m in posted :: m == Progress
    {
      var row: seq<Dist> := [];
      for j := 0 to |nodes|
        invariant |row| == j
        invariant forall k | 0 <= k < j :: row[k] == Cell(sp(nodes[i].id, nodes[k].id))
      {
        var distance := sp(nodes[i].id, nodes[j].id);
        row := row + [if distance != 0 then Fin(distance) else Inf];
      }
      if i != endIndex - 1 {
        status := Ongoing;
        posted := posted + [Progress];
      } else {
        status := Completed;
      }
      partialMatrix := partialMatrix + [row];
      i := i + 1;
    }
    r := PartialResult(startIndex, endIndex, partialMatrix, status);
  }

  /** The whole worker (worker.js:54-62): compute the rows, then post the result last. */
  method RunWorker(startIndex: nat, endIndex: nat, nodes: seq<Node>, sp: PathOracle) returns (messages: seq<Message>)
    requires startIndex < endIndex ==> endIndex <= |nodes|
    ensures |messages| == RangeSize(startIndex, endIndex) + (if startIndex < endIndex then 0 else 1)
    ensures messages[|messages| - 1].Done?
    ensures forall k | 0 <= k < |messages| - 1 :: messages[k] == Progress
    ensures var r := messages[|messages| - 1].result;
      && r.startIndex == startIndex && r.endIndex == endIndex
      && |r.partialMatrix| == RangeSize(startIndex, endIndex)
      && forall k | 0 <= k < |r.partialMatrix| :: r.partialMatrix[k] == OracleRow(nodes, sp, startIndex + k)
  {
    var partial, posted := CalculatePartialMatrix(startIndex, endIndex, nodes, sp);
    messages := posted + [Done(partial)];
    assert forall k | 0 <= k < |posted| :: posted[k] in posted;
  }

  /** No cell of a computed row is a zero length: a finite entry is always positive. */
  lemma OracleRowPositive(nodes: seq<Node>, sp: PathOracle, i: nat)
    requires i < |nodes|
    ensures forall j | 0 <= j < |nodes| :: OracleRow(nodes, sp, i)[j] != Fin(0)
    ensures forall j | 0 <= j < |nodes| :: OracleRow(nodes, sp, i)[j] == Inf <==> sp(nodes[i].id, nodes[j].id) == 0
  {
    forall j | 0 <= j < |nodes|
      ensures OracleRow(nodes, sp, i)[j] == Cell(sp(nodes[i].id, nodes[j].id))
    {
    }
  }
}
