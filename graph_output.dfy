/** The labelled nodes and the numbered edges `crawlWebsite` builds once the queue is empty (main.js:221-240). */
module GraphOutput {
  import opened Common
  import opened Decimal
  import opened CrawlModel

  function NodeIds(nodes: seq<Node>): (r: seq<string>)
    ensures |r| == |nodes|
  {
    seq(|nodes|, i requires 0 <= i < |nodes| => nodes[i].id)
  }

  /** The links of one page as (from, to) pairs, in the page's order, duplicates included. */
  function PairsFrom(page: string, links: seq<string>): (r: seq<(string, string)>)
    ensures |r| == |links|
  {
    seq(|links|, j requires 0 <= j < |links| => (page, links[j]))
  }

  /** The number of links recorded over all pages, duplicates included. */
  function TotalLinks(graph: seq<(string, seq<string>)>): nat {
    if graph == [] then 0 else TotalLinks(graph[..|graph| - 1]) + |graph[|graph| - 1].1|
  }

  /** All recorded links as (from, to) pairs: page by page in recording order, then link by link. */
  function LinkPairs(graph: seq<(string, seq<string>)>): (r: seq<(string, string)>)
    ensures |r| == TotalLinks(graph)
  {
    if graph == [] then []
    else LinkPairs(graph[..|graph| - 1]) + PairsFrom(graph[|graph| - 1].0, graph[|graph| - 1].1)
  }

  /** Every pair starts at a recorded page and ends at one of the recorded links. */
  lemma {:induction false} LinkPairsInGraph(graph: seq<(string, seq<string>)>)
    ensures forall p | p in LinkPairs(graph) :: p.0 in Keys(graph) && p.1 in Targets(graph)
  {
    if graph != [] {
      var init := graph[..|graph| - 1];
      var last := graph[|graph| - 1];
      LinkPairsInGraph(init);
      TargetsAppend(init, last.0, last.1);
      assert graph == init + [last];
      forall p | p in LinkPairs(graph)
        ensures p.0 in Keys(graph) && p.1 in Targets(graph)
      {
        if p in LinkPairs(init) {
          var k :| 0 <= k < |init| && Keys(init)[k] == p.0;
          assert Keys(graph)[k] == p.0;
        } else {
          assert p in PairsFrom(last.0, last.1);
          assert Keys(graph)[|graph| - 1] == p.0;
        }
      }
    }
  }

  /** `nodes`: one node per member of `nodeSet`, in insertion order, labelled "1", "2", ... (main.js:222-226). */
  method BuildNodes(nodeSet: seq<string>) returns (nodes: seq<Node>)
    ensures |nodes| == |nodeSet|
    ensures forall i | 0 <= i < |nodes| :: nodes[i] == Node(nodeSet[i], DecimalString(i + 1))
  {
    var nodeIndex := 1;
    nodes := [];
    for i := 0 to |nodeSet|
      invariant |nodes| == i && nodeIndex == i + 1
      invariant forall k | 0 <= k < i :: nodes[k] == Node(nodeSet[k], DecimalString(k + 1))
    {
      nodes := nodes + [Node(nodeSet[i], DecimalString(nodeIndex))];
      nodeIndex := nodeIndex + 1;
    }
  }

  /** Labels are pairwise distinct, and each reads back as its 1-based position. */
  lemma NodeLabels(nodes: seq<Node>, nodeSet: seq<string>)
    requires |nodes| == |nodeSet|
    requires forall i | 0 <= i < |nodes| :: nodes[i] == Node(nodeSet[i], DecimalString(i + 1))
    ensures forall i | 0 <= i < |nodes| :: AllDigits(nodes[i].nodeLabel) && ParseDecimal(nodes[i].nodeLabel) == i + 1
    ensures forall i, j | 0 <= i < j < |nodes| :: nodes[i].nodeLabel != nodes[j].nodeLabel
  {
    forall i | 0 <= i < |nodes|
      ensures AllDigits(nodes[i].nodeLabel) && ParseDecimal(nodes[i].nodeLabel) == i + 1
    {
      ParseDecimalString(i + 1);
    }
    forall i, j | 0 <= i < j < |nodes|
      ensures nodes[i].nodeLabel != nodes[j].nodeLabel
    {
      DecimalStringInjective(i + 1, j + 1);
    }
  }

  /** `edges`: one edge per recorded link, numbered 1, 2, ... in `LinkPairs` order (main.js:229-240). */
  method BuildEdges(graph: seq<(string, seq<string>)>) returns (edges: seq<Edge>)
    ensures |edges| == |LinkPairs(graph)|
    ensures forall k | 0 <= k < |edges| :: edges[k] == Edge(k + 1, LinkPairs(graph)[k].0, LinkPairs(graph)[k].1)
  {
    var edgeIndex := 1;
    edges := [];
    for g := 0 to |graph|
      invariant edgeIndex == |edges| + 1
      invariant |edges| == |LinkPairs(graph[..g])|
      invariant forall k | 0 <= k < |edges| :: edges[k] == Edge(k + 1, LinkPairs(graph[..g])[k].0, LinkPairs(graph[..g])[k].1)
    {
      var source := graph[g].0;
      var targets := graph[g].1;
      ghost var done := LinkPairs(graph[..g]);
      for t := 0 to |targets|
        invariant edgeIndex == |edges| + 1
        invariant |edges| == |done| + t
        invariant forall k | 0 <= k < |edges| ::
          edges[k] == Edge(k + 1, (done + PairsFrom(source, targets[..t]))[k].0, (done + PairsFrom(source, targets[..t]))[k].1)
      {
        edges := edges + [Edge(edgeIndex, source, targets[t])];
        edgeIndex := edgeIndex + 1;
        assert (done + PairsFrom(source, targets[..t + 1]))[|edges| - 1] == (source, targets[t]);
        assert forall k | 0 <= k < |done| + t ::
          (done + PairsFrom(source, targets[..t + 1]))[k] == (done + PairsFrom(source, targets[..t]))[k];
      }
      assert graph[..g + 1][..g] == graph[..g];
      assert targets[..|targets|] == targets;
      assert LinkPairs(graph[..g + 1]) == done + PairsFrom(source, targets);
    }
    assert graph[..|graph|] == graph;
  }
}
