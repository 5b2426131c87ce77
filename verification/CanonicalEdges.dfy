/** When the edges that the pipeline ends with depend on the graph alone, as its nodes always do. */
module CanonicalEdges {
  import opened Limits
  import opened Walks
  import opened KindFilters
  import opened GraphState
  import opened KeyOrder
  import opened NodeSort
  import opened Rollup
  import opened EdgePriority
  import opened Compaction
  import opened GraphPipeline
  import opened CanonicalOrder

  /** No two edges join the same two items, in either direction. */
  ghost predicate SeparateItems(nodes: seq<Node>, edges: seq<Edge>) {
    forall i, j :: 0 <= i < j < |edges| && InRange(edges[i], |nodes|) && InRange(edges[j], |nodes|) ==>
      Ends(nodes, edges[i]) != Ends(nodes, edges[j])
  }

  ghost function Ends(nodes: seq<Node>, e: Edge): set<int>
    requires InRange(e, |nodes|)
  {
    {nodes[e.from].id, nodes[e.to].id}
  }

  /** The passes draw no link twice, so they keep that. */
  lemma SubgraphStaysSeparate(nodes: seq<Node>, edges: seq<Edge>, nodes': seq<Node>, edges': seq<Edge>,
                              source: seq<int>)
    requires Subgraph(nodes, edges, nodes', edges', source) && SeparateItems(nodes, edges)
    ensures SeparateItems(nodes', edges')
  {
    forall i, j | 0 <= i < j < |edges'| && InRange(edges'[i], |nodes'|) && InRange(edges'[j], |nodes'|)
      ensures Ends(nodes', edges'[i]) != Ends(nodes', edges'[j])
    {
      assert SameLink(nodes, edges, nodes', edges'[i], source[i]) &&
             SameLink(nodes, edges, nodes', edges'[j], source[j]);
      assert source[i] != source[j];
      assert Ends(nodes', edges'[i]) == Ends(nodes, edges[source[i]]);
      assert Ends(nodes', edges'[j]) == Ends(nodes, edges[source[j]]);
    }
  }

  /** The rank of an edge without its position. */
  ghost function EdgeRank(nodes: seq<Node>, rel: Relation, selected: int, center: int, e: Edge): Key {
    var p := SelectedIndex(nodes, selected, center);
    var q := SecondaryIndex(p, IndexOf(nodes, center));
    Key(Min(Distance(rel, p, e.from), Distance(rel, p, e.to)),
        Min(Distance(rel, q, e.from), Distance(rel, q, e.to)),
        Max(Distance(rel, p, e.from), Distance(rel, p, e.to)),
        Min(e.from, e.to), Max(e.from, e.to), 0)
  }

  /** Between edges that join different items the position never decides. */
  lemma RankDecides(nodes: seq<Node>, edges: seq<Edge>, selected: int, center: int, i: int, j: int)
    requires EdgesInRange(edges, |nodes|) && SeparateItems(nodes, edges)
    requires 0 <= i < |edges| && 0 <= j < |edges| && i != j
    ensures var rel := IndexPairs(edges, |nodes|);
      KeyLess(PriorityKey(nodes, edges, selected, center, i), PriorityKey(nodes, edges, selected, center, j)) <==>
      KeyLess(EdgeRank(nodes, rel, selected, center, edges[i]), EdgeRank(nodes, rel, selected, center, edges[j]))
  {
    hide Distance, IndexPairs, SelectedIndex, IndexOf;
    assert InRange(edges[i], |nodes|) && InRange(edges[j], |nodes|);
    assert Ends(nodes, edges[i]) != Ends(nodes, edges[j]);
  }

  /** The first `limit` of the edges in `all` by `key`, in order. */
  ghost predicate TopEdges(all: set<Edge>, key: Edge -> Key, limit: int, top: seq<Edge>) {
    && |top| == limit && StrictlySorted(top, key) && Elements(top) <= all
    && forall x, y :: x in top && y in all && y !in top ==> KeyLess(key(x), key(y))
  }

  lemma TopEdgesUnique(all: set<Edge>, key: Edge -> Key, limit: int, a: seq<Edge>, b: seq<Edge>)
    requires TopEdges(all, key, limit, a) && TopEdges(all, key, limit, b)
    ensures a == b
  {
    TopEdgesWithin(all, key, limit, a, b);
    TopEdgesWithin(all, key, limit, b, a);
    SortedListingUnique(a, b, key);
  }

  lemma TopEdgesWithin(all: set<Edge>, key: Edge -> Key, limit: int, a: seq<Edge>, b: seq<Edge>)
    requires TopEdges(all, key, limit, a) && TopEdges(all, key, limit, b)
    ensures Elements(a) <= Elements(b)
  {
    forall x | x in a
      ensures x in b
    {
      if x !in b {
        var y := MemberMissing(a, b, x);
        assert false;
      }
    }
  }

  /** Cut to the limit, separate edges are the top ones of their set. */
  lemma CutIsTop(nodes: seq<Node>, edges: seq<Edge>, selected: int, center: int, limit: int, edges': seq<Edge>)
    requires EdgesPrioritized(nodes, edges, selected, center, limit, edges') && |edges| > limit
    requires EdgesInRange(edges, |nodes|) && SeparateItems(nodes, edges)
    ensures var rel := IndexPairs(edges, |nodes|);
            TopEdges(Elements(edges), (e: Edge) => EdgeRank(nodes, rel, selected, center, e), limit, edges')
  {
    hide PriorityKey, EdgeRank, KeyLess, IndexPairs, SeparateItems;
    var rel := IndexPairs(edges, |nodes|);
    var kept :| TopPositions(nodes, edges, selected, center, limit, kept) && Picked(edges, kept, edges');
    forall i, j | 0 <= i < j < |edges'|
      ensures KeyLess(EdgeRank(nodes, rel, selected, center, edges'[i]),
                      EdgeRank(nodes, rel, selected, center, edges'[j]))
    {
      assert Outranks(nodes, edges, selected, center, kept[i], kept[j]);
      OutranksSelf(nodes, edges, selected, center, kept[i], kept[j]);
      RankDecides(nodes, edges, selected, center, kept[i], kept[j]);
    }
    forall x, y | x in edges' && y in edges && y !in edges'
      ensures KeyLess(EdgeRank(nodes, rel, selected, center, x), EdgeRank(nodes, rel, selected, center, y))
    {
      var i :| 0 <= i < |edges'| && edges'[i] == x;
      var d :| 0 <= d < |edges| && edges[d] == y;
      DroppedNotKept(edges, kept, edges', d);
      assert Outranks(nodes, edges, selected, center, kept[i], d);
      RankDecides(nodes, edges, selected, center, kept[i], d);
    }
    forall e | e in edges'
      ensures e in edges
    {
      var i :| 0 <= i < |edges'| && edges'[i] == e;
      assert edges[kept[i]] == e;
    }
  }

  lemma DroppedNotKept(edges: seq<Edge>, kept: seq<int>, edges': seq<Edge>, d: int)
    requires Picked(edges, kept, edges') && 0 <= d < |edges| && edges[d] !in edges'
    ensures d !in kept
  {
    forall k | 0 <= k < |kept|
      ensures kept[k] != d
    {
      assert edges'[k] in edges';
    }
  }

  lemma OutranksSelf(nodes: seq<Node>, edges: seq<Edge>, selected: int, center: int, i: int, j: int)
    requires Outranks(nodes, edges, selected, center, i, j)
    ensures i != j
  {
    hide PriorityKey;
  }

  /** The links that survive compaction. */
  ghost function KeptLinks(filter: NodeFilter, nodes: seq<Node>, edges: seq<Edge>): set<Link> {
    set l | l in Links(nodes, edges) && EnabledItem(filter, BareNodes(nodes), l.fromId)
            && EnabledItem(filter, BareNodes(nodes), l.toId)
  }

  /** Separate edges are as many as their links. */
  lemma SeparateCount(nodes: seq<Node>, edges: seq<Edge>)
    requires EdgesInRange(edges, |nodes|) && SeparateItems(nodes, edges)
    ensures |edges| == |Links(nodes, edges)|
  {
    var links := seq(|edges|, i requires 0 <= i < |edges| => LinkOf(nodes, edges[i]));
    forall i, j | 0 <= i < j < |links|
      ensures links[i] != links[j]
    {
      assert InRange(edges[i], |nodes|) && InRange(edges[j], |nodes|);
      assert Ends(nodes, edges[i]) != Ends(nodes, edges[j]);
    }
    DistinctCount(links);
    assert Elements(links) == Links(nodes, edges) by {
      forall l | l in Links(nodes, edges)
        ensures l in links
      {
        var i :| 0 <= i < |edges| && InRange(edges[i], |nodes|) && LinkOf(nodes, edges[i]) == l;
        assert links[i] == l;
      }
    }
  }

  /** The edges as the node sort leaves them: all inside the buffer, with the links that survive compaction. */
  lemma BeforeTheCut(filter: NodeFilter, selected: int, center: int, mode: SortMode, limit: int,
                     nodes: seq<Node>, edges: seq<Edge>, nodes': seq<Node>, edges': seq<Edge>)
      returns (sorted: seq<Edge>)
    requires DistinctIds(nodes) && PassesRun(filter, selected, center, mode, limit, nodes, edges, nodes', edges')
    ensures DistinctIds(nodes') && EdgesInRange(sorted, |nodes'|)
    ensures Links(nodes', sorted) == KeptLinks(filter, nodes, edges)
    ensures SeparateItems(nodes, edges) ==> SeparateItems(nodes', sorted)
    ensures EdgesPrioritized(nodes', sorted, selected, center, limit, edges')
  {
    hide Compacted, Annotated, NodesSorted, EdgesPrioritized, Links, BareNodes, EnabledItem, SeparateItems, Subgraph;
    hide DistinctIds, NodeKindEnabled;
    var n1, e1, n2, e3 :|
      && Compacted(filter, nodes, edges, n1, e1) && Annotated(n1, e1, n2) && DistinctIds(n1) && DistinctIds(n2)
      && NodesSorted(SettingOf(n2, e1, selected, center, mode), n2, e1, nodes', e3)
      && EdgesPrioritized(nodes', e3, selected, center, limit, edges');
    sorted := e3;
    CompactionByItems(filter, nodes, edges, n1, e1);
    var s1 := CompactionIsSubgraph(filter, nodes, edges, n1, e1);
    SubgraphInRange(nodes, edges, n1, e1, s1);
    var s2 := AnnotationIsSubgraph(n1, e1, n2);
    AnnotationKeepsLinks(n1, e1, n2);
    SubgraphInRange(n1, e1, n2, e1, s2);
    var s3 := SortIsSubgraph(SettingOf(n2, e1, selected, center, mode), n2, e1, nodes', e3);
    SubgraphInRange(n2, e1, nodes', e3, s3);
    SortedOnce(SettingOf(n2, e1, selected, center, mode), n2, e1, nodes', e3);
    if SeparateItems(nodes, edges) {
      SubgraphStaysSeparate(nodes, edges, n1, e1, s1);
      SubgraphStaysSeparate(n1, e1, n2, e1, s2);
      SubgraphStaysSeparate(n2, e1, nodes', e3, s3);
    }
  }

  /** Drawing the same links on the same nodes is having the same edges. */
  lemma SameLinksSameEdges(nodes: seq<Node>, a: seq<Edge>, b: seq<Edge>)
    requires DistinctIds(nodes) && EdgesInRange(a, |nodes|) && EdgesInRange(b, |nodes|)
    requires Links(nodes, a) == Links(nodes, b)
    ensures Elements(a) == Elements(b) && IndexPairs(a, |nodes|) == IndexPairs(b, |nodes|)
  {
    hide DistinctIds, Links;
    SameEdges(nodes, a, b);
    SameEdges(nodes, b, a);
    assert forall e :: e in a ==> InRange(e, |nodes|);
    assert forall e :: e in b ==> InRange(e, |nodes|);
    PairsWithin(a, b, |nodes|);
    PairsWithin(b, a, |nodes|);
  }

  lemma PairsWithin(a: seq<Edge>, b: seq<Edge>, n: int)
    requires Elements(a) <= Elements(b)
    ensures IndexPairs(a, n) <= IndexPairs(b, n)
  {
    forall u, v | (u, v) in IndexPairs(a, n)
      ensures (u, v) in IndexPairs(b, n)
    {
      IndexPairsMember(a, n, u, v);
      var i :| 0 <= i < |a| && InRange(a[i], n) && Joins(a[i], u, v);
      assert a[i] in Elements(a);
      var j :| 0 <= j < |b| && b[j] == a[i];
      IndexPairsMember(b, n, u, v);
    }
  }

  lemma SameKeptLinks(filter: NodeFilter, nodesA: seq<Node>, edgesA: seq<Edge>, nodesB: seq<Node>, edgesB: seq<Edge>)
    requires SameGraph(nodesA, edgesA, nodesB, edgesB)
    ensures KeptLinks(filter, nodesA, edgesA) == KeptLinks(filter, nodesB, edgesB)
  {
    hide BareNodes, Links, EnabledItem;
  }

  /** As long as neither result reaches the limit, two loads of one graph end with the same edges, in whatever order and
      multiplicity. */
  lemma EdgesCanonicalWithinLimit(filter: NodeFilter, selected: int, center: int, mode: SortMode, limit: int,
                                  nodesA: seq<Node>, edgesA: seq<Edge>, nodesB: seq<Node>, edgesB: seq<Edge>,
                                  finalA: seq<Node>, edgesA': seq<Edge>, finalB: seq<Node>, edgesB': seq<Edge>)
    requires DistinctIds(nodesA) && DistinctIds(nodesB) && SameGraph(nodesA, edgesA, nodesB, edgesB)
    requires PassesRun(filter, selected, center, mode, limit, nodesA, edgesA, finalA, edgesA')
    requires PassesRun(filter, selected, center, mode, limit, nodesB, edgesB, finalB, edgesB')
    requires |edgesA'| < limit && |edgesB'| < limit
    ensures finalA == finalB && Elements(edgesA') == Elements(edgesB')
  {
    hide PassesRun, SameGraph, DistinctIds, KeptLinks, Links;
    PipelineIsCanonical(filter, selected, center, mode, limit, nodesA, edgesA, nodesB, edgesB,
                        finalA, edgesA', finalB, edgesB');
    var a := BeforeTheCut(filter, selected, center, mode, limit, nodesA, edgesA, finalA, edgesA');
    var b := BeforeTheCut(filter, selected, center, mode, limit, nodesB, edgesB, finalB, edgesB');
    SameKeptLinks(filter, nodesA, edgesA, nodesB, edgesB);
    SameLinksSameEdges(finalA, a, b);
  }

  /** If no two links join the same items, two loads of one graph end with the same edges in any case, and with the same
      list of edges when more links survive compaction than the limit allows. */
  lemma EdgesCanonical(filter: NodeFilter, selected: int, center: int, mode: SortMode, limit: int,
                       nodesA: seq<Node>, edgesA: seq<Edge>, nodesB: seq<Node>, edgesB: seq<Edge>,
                       finalA: seq<Node>, edgesA': seq<Edge>, finalB: seq<Node>, edgesB': seq<Edge>)
    requires DistinctIds(nodesA) && DistinctIds(nodesB) && SameGraph(nodesA, edgesA, nodesB, edgesB)
    requires PassesRun(filter, selected, center, mode, limit, nodesA, edgesA, finalA, edgesA')
    requires PassesRun(filter, selected, center, mode, limit, nodesB, edgesB, finalB, edgesB')
    requires SeparateItems(nodesA, edgesA) && SeparateItems(nodesB, edgesB)
    ensures finalA == finalB && |edgesA'| == |edgesB'| && Elements(edgesA') == Elements(edgesB')
    ensures |KeptLinks(filter, nodesA, edgesA)| > limit ==> edgesA' == edgesB'
  {
    hide PassesRun, SameGraph, DistinctIds, KeptLinks, Links, SeparateItems, TopEdges, TopPositions, IndexPairs,
         EdgeRank;
    PipelineIsCanonical(filter, selected, center, mode, limit, nodesA, edgesA, nodesB, edgesB,
                        finalA, edgesA', finalB, edgesB');
    var a := BeforeTheCut(filter, selected, center, mode, limit, nodesA, edgesA, finalA, edgesA');
    var b := BeforeTheCut(filter, selected, center, mode, limit, nodesB, edgesB, finalB, edgesB');
    SameKeptLinks(filter, nodesA, edgesA, nodesB, edgesB);
    SameLinksSameEdges(finalA, a, b);
    SeparateCount(finalA, a);
    SeparateCount(finalA, b);
    if |a| > limit {
      var rel := IndexPairs(a, |finalA|);
      CutIsTop(finalA, a, selected, center, limit, edgesA');
      CutIsTop(finalA, b, selected, center, limit, edgesB');
      TopEdgesUnique(Elements(a), (e: Edge) => EdgeRank(finalA, rel, selected, center, e), limit, edgesA', edgesB');
    }
  }
}
