/** Annotating and then sorting gives one answer per graph, however its nodes were numbered and its edges listed. */
module CanonicalOrder {
  import opened GraphState
  import opened KeyOrder
  import opened Rollup
  import opened NodeSort
  import opened KindFilters
  import opened Compaction
  import opened EdgePriority
  import opened GraphPipeline

  /** Same items and same links; numbering, edge order, repeated edges and stale anchors may differ. */
  ghost predicate SameGraph(nodesA: seq<Node>, edgesA: seq<Edge>, nodesB: seq<Node>, edgesB: seq<Edge>) {
    BareNodes(nodesA) == BareNodes(nodesB) && Links(nodesA, edgesA) == Links(nodesB, edgesB)
  }

  /** One run of annotation and node sort. */
  ghost predicate Arranged(nodes: seq<Node>, edges: seq<Edge>, selected: int, center: int, mode: SortMode,
                           nodes': seq<Node>, edges': seq<Edge>) {
    exists annotated ::
      && Annotated(nodes, edges, annotated) && DistinctIds(annotated)
      && NodesSorted(SettingOf(annotated, edges, selected, center, mode), annotated, edges, nodes', edges')
  }

  lemma AnchoringUnique(nodes: seq<Node>, sources: set<int>, node: Node, x: Node, y: Node)
    requires DistinctIds(nodes)
    requires AnchoredAt(BareNodes(nodes), sources, node, x) && AnchoredAt(BareNodes(nodes), sources, node, y)
    ensures x == y
  {
  }

  lemma AnnotationSubset(nodesA: seq<Node>, edgesA: seq<Edge>, nodesB: seq<Node>, edgesB: seq<Edge>,
                         afterA: seq<Node>, afterB: seq<Node>)
    requires DistinctIds(nodesA) && DistinctIds(nodesB) && SameGraph(nodesA, edgesA, nodesB, edgesB)
    requires Annotated(nodesA, edgesA, afterA) && Annotated(nodesB, edgesB, afterB)
    ensures Elements(afterA) <= Elements(afterB)
  {
    forall x | x in afterA
      ensures x in afterB
    {
      var i :| 0 <= i < |afterA| && afterA[i] == x;
      assert Bare(nodesA[i]) in BareNodes(nodesB);
      var j :| 0 <= j < |nodesB| && Bare(nodesB[j]) == Bare(nodesA[i]);
      AnchoringUnique(nodesB, Sources(Links(nodesB, edgesB), nodesB[j].id), Bare(nodesB[j]), afterA[i], afterB[j]);
    }
  }

  /** Annotation keeps ids, so it keeps links. */
  lemma AnnotationKeepsLinks(nodes: seq<Node>, edges: seq<Edge>, nodes': seq<Node>)
    requires Annotated(nodes, edges, nodes')
    ensures forall i :: 0 <= i < |nodes| ==> SameItem(nodes[i], nodes'[i])
    ensures NodeIds(nodes') == NodeIds(nodes) && Links(nodes', edges) == Links(nodes, edges)
  {
  }

  /** The arrangement does not depend on how the graph came to be numbered. */
  lemma ArrangementIsCanonical(nodesA: seq<Node>, edgesA: seq<Edge>, nodesB: seq<Node>, edgesB: seq<Edge>,
                               selected: int, center: int, mode: SortMode,
                               sortedA: seq<Node>, edgesA': seq<Edge>, sortedB: seq<Node>, edgesB': seq<Edge>)
    requires DistinctIds(nodesA) && DistinctIds(nodesB) && SameGraph(nodesA, edgesA, nodesB, edgesB)
    requires Arranged(nodesA, edgesA, selected, center, mode, sortedA, edgesA')
    requires Arranged(nodesB, edgesB, selected, center, mode, sortedB, edgesB')
    ensures sortedA == sortedB
    ensures forall e :: InRange(e, |sortedA|) ==> (e in edgesA' <==> e in edgesB')
  {
    hide Annotated, NodeKey, Links, BareNodes, NodeIds, DistinctIds;
    var a :| Annotated(nodesA, edgesA, a) && DistinctIds(a)
      && NodesSorted(SettingOf(a, edgesA, selected, center, mode), a, edgesA, sortedA, edgesA');
    var b :| Annotated(nodesB, edgesB, b) && DistinctIds(b)
      && NodesSorted(SettingOf(b, edgesB, selected, center, mode), b, edgesB, sortedB, edgesB');
    AnnotationSubset(nodesA, edgesA, nodesB, edgesB, a, b);
    AnnotationSubset(nodesB, edgesB, nodesA, edgesA, b, a);
    AnnotationKeepsLinks(nodesA, edgesA, a);
    AnnotationKeepsLinks(nodesB, edgesB, b);
    IdsOfBare(nodesA);
    IdsOfBare(nodesB);
    SortedOnce(SettingOf(a, edgesA, selected, center, mode), a, edgesA, sortedA, edgesA');
    SortedOnce(SettingOf(b, edgesB, selected, center, mode), b, edgesB, sortedB, edgesB');
    SortedListingUnique(sortedA, sortedB, (node: Node) => NodeKey(SettingOf(a, edgesA, selected, center, mode), node));
    SameEdges(sortedA, edgesA', edgesB');
    SameEdges(sortedA, edgesB', edgesA');
  }

  lemma IdsOfBare(nodes: seq<Node>)
    ensures NodeIds(nodes) == set node | node in BareNodes(nodes) :: node.id
  {
  }

  lemma SortedOnce(s: Setting, nodes: seq<Node>, edges: seq<Edge>, nodes': seq<Node>, edges': seq<Edge>)
    requires DistinctIds(nodes) && NodesSorted(s, nodes, edges, nodes', edges')
    ensures Elements(nodes') == Elements(nodes) && DistinctIds(nodes') && Links(nodes', edges') == Links(nodes, edges)
    ensures NodeIds(nodes') == NodeIds(nodes)
    ensures StrictlySorted(nodes', (node: Node) => NodeKey(s, node))
  {
    var order :| RenumberedBy(order, nodes, edges, nodes', edges');
    RenumberingIsIsomorphism(order, nodes, edges, nodes', edges');
  }

  lemma SameEdges(nodes: seq<Node>, edgesA: seq<Edge>, edgesB: seq<Edge>)
    requires DistinctIds(nodes) && Links(nodes, edgesA) == Links(nodes, edgesB)
    ensures forall e :: InRange(e, |nodes|) && e in edgesA ==> e in edgesB
  {
    forall e | InRange(e, |nodes|) && e in edgesA
      ensures e in edgesB
    {
      assert LinkOf(nodes, e) in Links(nodes, edgesB);
      var i :| 0 <= i < |edgesB| && InRange(edgesB[i], |nodes|) && LinkOf(nodes, edgesB[i]) == LinkOf(nodes, e);
      assert edgesB[i] == e;
    }
  }

  /** Sorting a sorted graph again moves nothing. */
  lemma SortIsIdempotent(nodes: seq<Node>, edges: seq<Edge>, selected: int, center: int, mode: SortMode,
                         once: seq<Node>, onceEdges: seq<Edge>, twice: seq<Node>, twiceEdges: seq<Edge>)
    requires DistinctIds(nodes)
    requires NodesSorted(SettingOf(nodes, edges, selected, center, mode), nodes, edges, once, onceEdges)
    requires NodesSorted(SettingOf(once, onceEdges, selected, center, mode), once, onceEdges, twice, twiceEdges)
    ensures twice == once && twiceEdges == onceEdges
  {
    hide NodeKey, Links, NodeIds;
    var s := SettingOf(nodes, edges, selected, center, mode);
    SortedOnce(s, nodes, edges, once, onceEdges);
    SortedOnce(s, once, onceEdges, twice, twiceEdges);
    SortedListingUnique(once, twice, (node: Node) => NodeKey(s, node));
    var order :| RenumberedBy(order, once, onceEdges, twice, twiceEdges);
    assert forall i :: 0 <= i < |once| ==> order[i] == i;
  }

  /** Compaction does not depend on the numbering either. */
  lemma CompactionSameGraph(filter: NodeFilter, nodesA: seq<Node>, edgesA: seq<Edge>, nodesB: seq<Node>,
                            edgesB: seq<Edge>,
                            keptA: seq<Node>, edgesA': seq<Edge>, keptB: seq<Node>, edgesB': seq<Edge>)
    requires DistinctIds(nodesA) && DistinctIds(nodesB) && SameGraph(nodesA, edgesA, nodesB, edgesB)
    requires Compacted(filter, nodesA, edgesA, keptA, edgesA') && Compacted(filter, nodesB, edgesB, keptB, edgesB')
    ensures SameGraph(keptA, edgesA', keptB, edgesB')
  {
    hide Compacted, DistinctIds, NodeKindEnabled, BareNodes, Links;
    CompactionByItems(filter, nodesA, edgesA, keptA, edgesA');
    CompactionByItems(filter, nodesB, edgesB, keptB, edgesB');
  }

  /** Compaction in terms of items: the enabled ones, and the links between enabled ones. */
  lemma CompactionByItems(filter: NodeFilter, nodes: seq<Node>, edges: seq<Edge>, nodes': seq<Node>, edges': seq<Edge>)
    requires DistinctIds(nodes) && Compacted(filter, nodes, edges, nodes', edges')
    ensures BareNodes(nodes') == set b | b in BareNodes(nodes) && NodeKindEnabled(filter, b.kind)
    ensures Links(nodes', edges') == set l | l in Links(nodes, edges) && EnabledItem(filter, BareNodes(nodes), l.fromId)
                                                && EnabledItem(filter, BareNodes(nodes), l.toId)
  {
    hide NodeKindEnabled;
    var kept, source :|
      && KeptNodes(filter, nodes, |nodes|, kept) && NodesTaken(nodes, kept, nodes')
      && KeptEdges(edges, |nodes|, kept, |edges|, source) && EdgesTaken(edges, kept, source, edges');
    forall b | b in BareNodes(nodes')
      ensures b in BareNodes(nodes) && NodeKindEnabled(filter, b.kind)
    {
      var k :| 0 <= k < |nodes'| && Bare(nodes'[k]) == b;
      assert kept[k] in kept;
    }
    forall b | b in BareNodes(nodes) && NodeKindEnabled(filter, b.kind)
      ensures b in BareNodes(nodes')
    {
      var i :| 0 <= i < |nodes| && Bare(nodes[i]) == b;
      assert i in kept;
      var k :| 0 <= k < |kept| && kept[k] == i;
      assert Bare(nodes'[k]) == b;
    }
    LinksKept(filter, nodes, edges, nodes', edges', kept, source);
  }

  ghost predicate EnabledItem(filter: NodeFilter, bare: set<Node>, id: int) {
    exists b :: b in bare && b.id == id && NodeKindEnabled(filter, b.kind)
  }

  lemma LinksKept(filter: NodeFilter, nodes: seq<Node>, edges: seq<Edge>, nodes': seq<Node>, edges': seq<Edge>,
                  kept: seq<int>, source: seq<int>)
    requires DistinctIds(nodes)
    requires KeptNodes(filter, nodes, |nodes|, kept) && NodesTaken(nodes, kept, nodes')
    requires KeptEdges(edges, |nodes|, kept, |edges|, source) && EdgesTaken(edges, kept, source, edges')
    ensures Links(nodes', edges') == set l | l in Links(nodes, edges) && EnabledItem(filter, BareNodes(nodes), l.fromId)
                                                && EnabledItem(filter, BareNodes(nodes), l.toId)
  {
    KeptAreEnabled(filter, nodes, kept);
    hide NodeKindEnabled, EnabledItem, BareNodes, KeptNodes;
    forall l | l in Links(nodes', edges')
      ensures l in Links(nodes, edges)
      ensures EnabledItem(filter, BareNodes(nodes), l.fromId) && EnabledItem(filter, BareNodes(nodes), l.toId)
    {
      var i :| 0 <= i < |edges'| && InRange(edges'[i], |nodes'|) && LinkOf(nodes', edges'[i]) == l;
      assert source[i] in source && Relocated(kept, edges[source[i]], edges'[i]);
      assert LinkOf(nodes, edges[source[i]]) == l;
    }
    forall l | l in Links(nodes, edges) && EnabledItem(filter, BareNodes(nodes), l.fromId)
               && EnabledItem(filter, BareNodes(nodes), l.toId)
      ensures l in Links(nodes', edges')
    {
      var e :| 0 <= e < |edges| && InRange(edges[e], |nodes|) && LinkOf(nodes, edges[e]) == l;
      assert EdgeStays(edges, |nodes|, kept, e);
      assert e in source;
      var i :| 0 <= i < |source| && source[i] == e;
      assert Relocated(kept, edges[e], edges'[i]);
      assert LinkOf(nodes', edges'[i]) == l;
    }
  }

  lemma KeptAreEnabled(filter: NodeFilter, nodes: seq<Node>, kept: seq<int>)
    requires DistinctIds(nodes) && KeptNodes(filter, nodes, |nodes|, kept)
    ensures forall i :: 0 <= i < |nodes| ==> (EnabledItem(filter, BareNodes(nodes), nodes[i].id) <==> i in kept)
  {
  }

  /** The node buffer the whole pipeline ends with is a function of the graph, not of how it was loaded. */
  lemma PipelineIsCanonical(filter: NodeFilter, selected: int, center: int, mode: SortMode, limit: int,
                            nodesA: seq<Node>, edgesA: seq<Edge>, nodesB: seq<Node>, edgesB: seq<Edge>,
                            finalA: seq<Node>, edgesA': seq<Edge>, finalB: seq<Node>, edgesB': seq<Edge>)
    requires DistinctIds(nodesA) && DistinctIds(nodesB) && SameGraph(nodesA, edgesA, nodesB, edgesB)
    requires PassesRun(filter, selected, center, mode, limit, nodesA, edgesA, finalA, edgesA')
    requires PassesRun(filter, selected, center, mode, limit, nodesB, edgesB, finalB, edgesB')
    ensures finalA == finalB
  {
    hide Compacted, Annotated, NodesSorted, EdgesPrioritized, DistinctIds, SameGraph, SettingOf;
    var a1, x1, a2, x3 :|
      && Compacted(filter, nodesA, edgesA, a1, x1) && Annotated(a1, x1, a2) && DistinctIds(a1) && DistinctIds(a2)
      && NodesSorted(SettingOf(a2, x1, selected, center, mode), a2, x1, finalA, x3)
      && EdgesPrioritized(finalA, x3, selected, center, limit, edgesA');
    var b1, y1, b2, y3 :|
      && Compacted(filter, nodesB, edgesB, b1, y1) && Annotated(b1, y1, b2) && DistinctIds(b1) && DistinctIds(b2)
      && NodesSorted(SettingOf(b2, y1, selected, center, mode), b2, y1, finalB, y3)
      && EdgesPrioritized(finalB, y3, selected, center, limit, edgesB');
    CompactionSameGraph(filter, nodesA, edgesA, nodesB, edgesB, a1, x1, b1, y1);
    ArrangementIsCanonical(a1, x1, b1, y1, selected, center, mode, finalA, x3, finalB, y3);
  }
}
