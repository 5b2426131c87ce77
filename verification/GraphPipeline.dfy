/** The four passes in the order the loader runs them, and what survives all of them. */
module GraphPipeline {
  import opened Limits
  import opened KindFilters
  import opened GraphState
  import opened KeyOrder
  import opened NodeSort
  import opened Rollup
  import opened EdgePriority
  import opened Compaction

  /** Every new node is an old item, and every new edge joins the same items with the same kind as the old edge
      `source` names for it, no old edge being named twice. */
  ghost predicate Subgraph(nodes: seq<Node>, edges: seq<Edge>, nodes': seq<Node>, edges': seq<Edge>, source: seq<int>) {
    && |source| == |edges'|
    && (forall i, j :: 0 <= i < j < |source| ==> source[i] != source[j])
    && (forall i :: 0 <= i < |source| ==> SameLink(nodes, edges, nodes', edges'[i], source[i]))
    && (forall k :: 0 <= k < |nodes'| ==> ItemOf(nodes, nodes'[k]))
  }

  ghost predicate SameLink(nodes: seq<Node>, edges: seq<Edge>, nodes': seq<Node>, e': Edge, i: int) {
    && 0 <= i < |edges| && InRange(edges[i], |nodes|) && InRange(e', |nodes'|)
    && LinkOf(nodes', e') == LinkOf(nodes, edges[i])
  }

  ghost predicate ItemOf(nodes: seq<Node>, node: Node) {
    exists j :: 0 <= j < |nodes| && SameItem(nodes[j], node)
  }

  lemma SubgraphTrans(n0: seq<Node>, e0: seq<Edge>, n1: seq<Node>, e1: seq<Edge>, n2: seq<Node>, e2: seq<Edge>,
                      s: seq<int>, t: seq<int>) returns (r: seq<int>)
    requires Subgraph(n0, e0, n1, e1, s) && Subgraph(n1, e1, n2, e2, t)
    ensures Subgraph(n0, e0, n2, e2, r)
  {
    assert forall i :: 0 <= i < |t| ==> SameLink(n1, e1, n2, e2[i], t[i]);
    r := seq(|t|, i requires 0 <= i < |t| => s[t[i]]);
    forall i | 0 <= i < |r|
      ensures SameLink(n0, e0, n2, e2[i], r[i])
    {
      assert SameLink(n0, e0, n1, e1[t[i]], s[t[i]]);
    }
    forall k | 0 <= k < |n2|
      ensures ItemOf(n0, n2[k])
    {
      assert ItemOf(n1, n2[k]);
      var j :| 0 <= j < |n1| && SameItem(n1[j], n2[k]);
      assert ItemOf(n0, n1[j]);
    }
  }

  lemma CompactionIsSubgraph(filter: NodeFilter, nodes: seq<Node>, edges: seq<Edge>, nodes': seq<Node>,
                             edges': seq<Edge>)
      returns (source: seq<int>)
    requires Compacted(filter, nodes, edges, nodes', edges')
    ensures Subgraph(nodes, edges, nodes', edges', source)
    ensures forall k :: 0 <= k < |nodes'| ==> NodeKindEnabled(filter, nodes'[k].kind)
  {
    var kept, src :|
      && KeptNodes(filter, nodes, |nodes|, kept) && NodesTaken(nodes, kept, nodes')
      && KeptEdges(edges, |nodes|, kept, |edges|, src) && EdgesTaken(edges, kept, src, edges');
    source := src;
    hide KeptNodes, KeptEdges, NodeKindEnabled, SameItem;
    KeptFacts(filter, nodes, edges, kept, source);
    forall i | 0 <= i < |source|
      ensures SameLink(nodes, edges, nodes', edges'[i], source[i])
    {
      assert Relocated(kept, edges[source[i]], edges'[i]);
    }
    forall k | 0 <= k < |nodes'|
      ensures ItemOf(nodes, nodes'[k]) && NodeKindEnabled(filter, nodes'[k].kind)
    {
      ItemOfItself(nodes, kept[k]);
    }
  }

  lemma KeptFacts(filter: NodeFilter, nodes: seq<Node>, edges: seq<Edge>, kept: seq<int>, source: seq<int>)
    requires KeptNodes(filter, nodes, |nodes|, kept) && KeptEdges(edges, |nodes|, kept, |edges|, source)
    ensures forall k :: 0 <= k < |kept| ==> 0 <= kept[k] < |nodes| && NodeKindEnabled(filter, nodes[kept[k]].kind)
    ensures forall i :: 0 <= i < |source| ==> 0 <= source[i] < |edges| && InRange(edges[source[i]], |nodes|)
    ensures forall i, j :: 0 <= i < j < |source| ==> source[i] != source[j]
  {
    hide NodeKindEnabled;
    assert forall k :: 0 <= k < |kept| ==> kept[k] in kept;
    assert forall i :: 0 <= i < |source| ==> source[i] in source;
  }

  lemma ItemOfItself(nodes: seq<Node>, i: int)
    requires 0 <= i < |nodes|
    ensures ItemOf(nodes, nodes[i])
  {
  }

  /** `edges` all inside the buffer, as they are after compaction. */
  lemma AnnotationIsSubgraph(nodes: seq<Node>, edges: seq<Edge>, nodes': seq<Node>) returns (source: seq<int>)
    requires Annotated(nodes, edges, nodes') && EdgesInRange(edges, |nodes|)
    ensures Subgraph(nodes, edges, nodes', edges, source)
  {
    forall i | 0 <= i < |nodes|
      ensures SameItem(nodes[i], nodes'[i])
    {
      assert AnchoredAt(BareNodes(nodes), Sources(Links(nodes, edges), nodes[i].id), Bare(nodes[i]), nodes'[i]);
    }
    source := seq(|edges|, i requires 0 <= i < |edges| => i);
  }

  lemma SortIsSubgraph(s: Setting, nodes: seq<Node>, edges: seq<Edge>, nodes': seq<Node>, edges': seq<Edge>)
      returns (source: seq<int>)
    requires NodesSorted(s, nodes, edges, nodes', edges') && DistinctIds(nodes) && EdgesInRange(edges, |nodes|)
    ensures Subgraph(nodes, edges, nodes', edges', source)
  {
    var order :| RenumberedBy(order, nodes, edges, nodes', edges');
    RenumberingIsIsomorphism(order, nodes, edges, nodes', edges');
    source := seq(|edges|, i requires 0 <= i < |edges| => i);
    forall k | 0 <= k < |nodes'|
      ensures ItemOf(nodes, nodes'[k])
    {
      assert SameItem(nodes[order[k]], nodes'[k]);
    }
  }

  lemma PriorityIsSubgraph(nodes: seq<Node>, edges: seq<Edge>, selected: int, center: int, limit: int,
                           edges': seq<Edge>)
      returns (source: seq<int>)
    requires EdgesPrioritized(nodes, edges, selected, center, limit, edges') && EdgesInRange(edges, |nodes|)
    ensures Subgraph(nodes, edges, nodes, edges', source) && |edges'| <= limit
  {
    hide PriorityKey;
    if |edges| <= limit {
      source := seq(|edges|, i requires 0 <= i < |edges| => i);
    } else {
      var kept :| TopPositions(nodes, edges, selected, center, limit, kept) && Picked(edges, kept, edges');
      source := kept;
      forall i, j | 0 <= i < j < |kept|
        ensures kept[i] != kept[j]
      {
        assert Outranks(nodes, edges, selected, center, kept[i], kept[j]);
        OutranksOneWay(nodes, edges, selected, center, kept[i], kept[j]);
      }
    }
    assert forall k :: 0 <= k < |nodes| ==> SameItem(nodes[k], nodes[k]);
  }

  lemma SubgraphInRange(nodes: seq<Node>, edges: seq<Edge>, nodes': seq<Node>, edges': seq<Edge>, source: seq<int>)
    requires Subgraph(nodes, edges, nodes', edges', source)
    ensures EdgesInRange(edges', |nodes'|)
  {
  }

  /** The four passes, each as its own contract describes it; together they determine the result. */
  ghost predicate PassesRun(filter: NodeFilter, selected: int, center: int, mode: SortMode, limit: int,
                            nodes: seq<Node>, edges: seq<Edge>, nodes': seq<Node>, edges': seq<Edge>)
  {
    exists n1, e1, n2, e3 ::
      && Compacted(filter, nodes, edges, n1, e1)
      && Annotated(n1, e1, n2) && DistinctIds(n1) && DistinctIds(n2)
      && NodesSorted(SettingOf(n2, e1, selected, center, mode), n2, e1, nodes', e3)
      && EdgesPrioritized(nodes', e3, selected, center, limit, edges')
  }

  /** What can be relied on after the passes. */
  ghost predicate SoundView(filter: NodeFilter, limit: int, nodes: seq<Node>, edges: seq<Edge>, nodes': seq<Node>,
                            edges': seq<Edge>) {
    && (exists source :: Subgraph(nodes, edges, nodes', edges', source))
    && DistinctIds(nodes') && |edges'| <= limit
    && (forall k :: 0 <= k < |nodes'| ==> NodeKindEnabled(filter, nodes'[k].kind))
  }

  lemma PassesCompose(filter: NodeFilter, s: Setting, selected: int, center: int, limit: int,
                      n0: seq<Node>, e0: seq<Edge>, n1: seq<Node>, e1: seq<Edge>, n2: seq<Node>,
                      n3: seq<Node>, e3: seq<Edge>, e4: seq<Edge>)
    requires Compacted(filter, n0, e0, n1, e1) && Annotated(n1, e1, n2) && DistinctIds(n2)
    requires NodesSorted(s, n2, e1, n3, e3) && DistinctIds(n3)
    requires EdgesPrioritized(n3, e3, selected, center, limit, e4)
    ensures SoundView(filter, limit, n0, e0, n3, e4)
  {
    hide Compacted, Annotated, NodesSorted, EdgesPrioritized, DistinctIds, Subgraph, NodeKindEnabled;
    var a := CompactionIsSubgraph(filter, n0, e0, n1, e1);
    SubgraphInRange(n0, e0, n1, e1, a);
    var b := AnnotationIsSubgraph(n1, e1, n2);
    SubgraphInRange(n1, e1, n2, e1, b);
    var c := SortIsSubgraph(s, n2, e1, n3, e3);
    SubgraphInRange(n2, e1, n3, e3, c);
    var d := PriorityIsSubgraph(n3, e3, selected, center, limit, e4);
    var bc := SubgraphTrans(n1, e1, n2, e1, n3, e3, b, c);
    var bcd := SubgraphTrans(n1, e1, n3, e3, n3, e4, bc, d);
    var all := SubgraphTrans(n0, e0, n1, e1, n3, e4, a, bcd);
    KindsKept(filter, n1, e1, n3, e4, bcd);
  }

  lemma KindsKept(filter: NodeFilter, nodes: seq<Node>, edges: seq<Edge>, nodes': seq<Node>, edges': seq<Edge>,
                  source: seq<int>)
    requires Subgraph(nodes, edges, nodes', edges', source)
    requires forall k :: 0 <= k < |nodes| ==> NodeKindEnabled(filter, nodes[k].kind)
    ensures forall k :: 0 <= k < |nodes'| ==> NodeKindEnabled(filter, nodes'[k].kind)
  {
  }

  /** Compact, annotate, sort, cut. */
  method ArrangeGraph(g: GraphView, edgeLimit: int)
    requires g.Valid()
    modifies g`nodeCount, g`edgeCount, g.nodes, g.edges
    ensures g.Valid()
    ensures PassesRun(g.nodeFilter, g.selectedItemId, g.centerItemId, g.sortMode, ClampEdgeLimit(edgeLimit),
                      old(g.Nodes()), old(g.Edges()), g.Nodes(), g.Edges())
    ensures SoundView(g.nodeFilter, ClampEdgeLimit(edgeLimit), old(g.Nodes()), old(g.Edges()), g.Nodes(), g.Edges())
  {
    hide Compacted, Annotated, NodesSorted, EdgesPrioritized, DistinctIds, SoundView, SettingOf;
    ghost var n0, e0 := g.Nodes(), g.Edges();
    CompactByNodeKind(g);
    ghost var n1, e1 := g.Nodes(), g.Edges();
    AnnotateRollupRenderAnchors(g);
    ghost var n2 := g.Nodes();
    assert g.Edges() == e1;
    ghost var setting := SettingOf(n2, e1, g.selectedItemId, g.centerItemId, g.sortMode);
    ApplyNodeSort(g);
    ghost var n3, e3 := g.Nodes(), g.Edges();
    ApplyEdgePriority(g, edgeLimit);
    PassesCompose(g.nodeFilter, setting, g.selectedItemId, g.centerItemId, ClampEdgeLimit(edgeLimit),
                  n0, e0, n1, e1, n2, n3, e3, g.Edges());
  }
}
