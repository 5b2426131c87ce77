/** Drops the nodes whose kind is filtered out, and with them every edge that loses an endpoint. */
module Compaction {
  import opened Limits
  import opened KindFilters
  import opened GraphState

  ghost predicate Increasing(s: seq<int>) {
    forall i, j :: 0 <= i < j < |s| ==> s[i] < s[j]
  }

  /** `kept` lists, in order, exactly the positions of the enabled nodes. */
  ghost predicate KeptNodes(filter: NodeFilter, nodes: seq<Node>, hi: int, kept: seq<int>) {
    && Increasing(kept)
    && forall i :: i in kept <==> 0 <= i < hi && i < |nodes| && NodeKindEnabled(filter, nodes[i].kind)
  }

  ghost predicate EdgeStays(edges: seq<Edge>, n: int, kept: seq<int>, e: int)
    requires 0 <= e < |edges|
  {
    InRange(edges[e], n) && edges[e].from in kept && edges[e].to in kept
  }

  /** `source` lists, in order, exactly the edges among the first `hi` whose endpoints are both kept. */
  ghost predicate KeptEdges(edges: seq<Edge>, n: int, kept: seq<int>, hi: int, source: seq<int>) {
    && Increasing(source)
    && forall e :: e in source <==> 0 <= e < hi && e < |edges| && EdgeStays(edges, n, kept, e)
  }

  /** New nodes are the kept ones. */
  ghost predicate NodesTaken(nodes: seq<Node>, kept: seq<int>, nodes': seq<Node>) {
    |nodes'| == |kept| && forall i :: 0 <= i < |kept| ==> 0 <= kept[i] < |nodes| && nodes'[i] == nodes[kept[i]]
  }

  /** New edges are the surviving ones, with each endpoint at its node's new position. */
  ghost predicate EdgesTaken(edges: seq<Edge>, kept: seq<int>, source: seq<int>, edges': seq<Edge>) {
    && |edges'| == |source|
    && forall i :: 0 <= i < |source| ==>
         0 <= source[i] < |edges| && Relocated(kept, edges[source[i]], edges'[i])
  }

  ghost predicate Relocated(kept: seq<int>, before: Edge, after: Edge) {
    && after.kind == before.kind && InRange(after, |kept|)
    && kept[after.from] == before.from && kept[after.to] == before.to
  }

  ghost predicate Compacted(filter: NodeFilter, nodes: seq<Node>, edges: seq<Edge>, nodes': seq<Node>,
                            edges': seq<Edge>) {
    exists kept, source ::
      && KeptNodes(filter, nodes, |nodes|, kept) && NodesTaken(nodes, kept, nodes')
      && KeptEdges(edges, |nodes|, kept, |edges|, source) && EdgesTaken(edges, kept, source, edges')
  }

  lemma {:induction false} IncreasingBelow(s: seq<int>, n: int)
    requires 0 <= n && Increasing(s) && forall i :: 0 <= i < |s| ==> 0 <= s[i] < n
    ensures |s| <= n
    decreases |s|
  {
    if s != [] {
      var last := |s| - 1;
      IncreasingBelow(s[..last], s[last]);
    }
  }

  /** Compaction in place: two scratch buffers, then both copied back. */
  method CompactByNodeKind(g: GraphView)
    requires g.Valid()
    modifies g`nodeCount, g`edgeCount, g.nodes, g.edges
    ensures g.Valid()
    ensures Compacted(g.nodeFilter, old(g.Nodes()), old(g.Edges()), g.Nodes(), g.Edges())
  {
    hide KeptNodes, KeptEdges, EdgesTaken, NodesTaken, DistinctIds, Compacted;
    ghost var nodes, edges := g.Nodes(), g.Edges();
    ghost var kept, source;
    var keptNodes, oldToNew, keptNodeCount;
    keptNodes, oldToNew, keptNodeCount, kept := TakeNodes(g);
    ghost var newNodes := keptNodes[..keptNodeCount];
    var keptEdges, keptEdgeCount;
    keptEdges, keptEdgeCount, source := TakeEdges(g, oldToNew, kept);
    ghost var newEdges := keptEdges[..keptEdgeCount];
    for i := 0 to keptNodeCount
      invariant g.nodes[..i] == newNodes[..i]
      modifies g.nodes
    {
      assert keptNodes[..keptNodeCount] == newNodes;
      g.nodes[i] := keptNodes[i];
    }
    for i := 0 to keptEdgeCount
      invariant g.edges[..i] == newEdges[..i]
      modifies g.edges
    {
      assert keptEdges[..keptEdgeCount] == newEdges;
      g.edges[i] := keptEdges[i];
    }
    g.nodeCount := keptNodeCount;
    g.edgeCount := keptEdgeCount;
    assert g.Nodes() == newNodes && g.Edges() == newEdges;
    CompactedIntro(g.nodeFilter, nodes, edges, kept, source, newNodes, newEdges);
  }

  /** Where each old position went: -1 for a dropped node. */
  ghost predicate Renames(oldToNew: seq<int>, kept: seq<int>) {
    forall i :: 0 <= i < |oldToNew| ==>
      if i in kept then 0 <= oldToNew[i] < |kept| && kept[oldToNew[i]] == i else oldToNew[i] == -1
  }

  method TakeNodes(g: GraphView)
      returns (keptNodes: array<Node>, oldToNew: array<int>, count: int, ghost kept: seq<int>)
    requires g.Valid()
    ensures fresh(keptNodes) && fresh(oldToNew)
    ensures 0 <= count <= keptNodes.Length <= NODE_LIMIT && oldToNew.Length == g.nodeCount
    ensures KeptNodes(g.nodeFilter, g.Nodes(), g.nodeCount, kept) && NodesTaken(g.Nodes(), kept, keptNodes[..count])
    ensures Renames(oldToNew[..], kept)
  {
    hide KeptNodes, NodesTaken, Renames, DistinctIds;
    ghost var nodes := g.Nodes();
    keptNodes := new Node[g.nodeCount](_ => Node(0, 0, "", Detail("", "", false, false, "", ""), 0, 0, false));
    oldToNew := new int[g.nodeCount];
    count, kept := 0, [];
    NothingTaken(g.nodeFilter, nodes, keptNodes[..0], oldToNew[..0]);
    for i := 0 to g.nodeCount
      invariant 0 <= count <= i && |kept| == count
      invariant KeptNodes(g.nodeFilter, nodes, i, kept) && NodesTaken(nodes, kept, keptNodes[..count])
      invariant Renames(oldToNew[..i], kept)
      modifies keptNodes, oldToNew
    {
      ghost var before := oldToNew[..i];
      ghost var taken := keptNodes[..count];
      oldToNew[i] := -1;
      assert oldToNew[..i] == before && oldToNew[..i + 1] == before + [-1];
      assert nodes[i] == g.nodes[i];
      TakeNodeStep(g.nodeFilter, nodes, i, kept, taken, before);
      if !NodeKindEnabled(g.nodeFilter, g.nodes[i].kind) {
        continue;
      }
      if count >= NODE_LIMIT {
        assert false;
        continue;
      }
      keptNodes[count] := g.nodes[i];
      oldToNew[i] := count;
      assert keptNodes[..count + 1] == taken + [nodes[i]];
      assert oldToNew[..i + 1] == before + [count];
      count := count + 1;
      kept := kept + [i];
    }
    assert oldToNew[..] == oldToNew[..g.nodeCount];
  }

  lemma NothingTaken(filter: NodeFilter, nodes: seq<Node>, none: seq<Node>, renames: seq<int>)
    requires none == [] && renames == []
    ensures KeptNodes(filter, nodes, 0, []) && NodesTaken(nodes, [], none) && Renames(renames, [])
  {
  }

  lemma TakeNodeStep(filter: NodeFilter, nodes: seq<Node>, i: int, kept: seq<int>, taken: seq<Node>, renames: seq<int>)
    requires 0 <= i < |nodes| && |renames| == i
    requires KeptNodes(filter, nodes, i, kept) && NodesTaken(nodes, kept, taken) && Renames(renames, kept)
    ensures if NodeKindEnabled(filter, nodes[i].kind)
      then KeptNodes(filter, nodes, i + 1, kept + [i]) && NodesTaken(nodes, kept + [i], taken + [nodes[i]]) &&
          Renames(renames + [|kept|], kept + [i])
      else KeptNodes(filter, nodes, i + 1, kept) && Renames(renames + [-1], kept)
  {
    assert forall k :: 0 <= k < |kept| ==> kept[k] in kept;
  }

  method TakeEdges(g: GraphView, oldToNew: array<int>, ghost kept: seq<int>)
      returns (keptEdges: array<Edge>, count: int, ghost source: seq<int>)
    requires g.Valid() && oldToNew.Length == g.nodeCount && Renames(oldToNew[..], kept)
    ensures fresh(keptEdges) && 0 <= count <= keptEdges.Length <= EDGE_LIMIT
    ensures KeptEdges(g.Edges(), g.nodeCount, kept, g.edgeCount, source) &&
            EdgesTaken(g.Edges(), kept, source, keptEdges[..count])
  {
    hide KeptEdges, EdgesTaken, DistinctIds;
    ghost var edges := g.Edges();
    keptEdges := new Edge[g.edgeCount](_ => Edge(0, 0, ""));
    count, source := 0, [];
    NoEdgesTaken(edges, g.nodeCount, kept, keptEdges[..0]);
    for i := 0 to g.edgeCount
      invariant 0 <= count <= i && |source| == count
      invariant KeptEdges(edges, g.nodeCount, kept, i, source) && EdgesTaken(edges, kept, source, keptEdges[..count])
      modifies keptEdges
    {
      var oldFrom, oldTo := g.edges[i].from, g.edges[i].to;
      assert edges[i] == g.edges[i];
      ghost var taken := keptEdges[..count];
      if count >= EDGE_LIMIT {
        assert false;
        break;
      }
      if oldFrom < 0 || oldTo < 0 || oldFrom >= g.nodeCount || oldTo >= g.nodeCount {
        SkipEdgeStep(edges, g.nodeCount, kept, i, source);
        continue;
      }
      var newFrom, newTo := oldToNew[oldFrom], oldToNew[oldTo];
      assert newFrom == oldToNew[..][oldFrom] && newTo == oldToNew[..][oldTo];
      if newFrom < 0 || newTo < 0 {
        SkipEdgeStep(edges, g.nodeCount, kept, i, source);
        continue;
      }
      TakeEdgeStep(edges, g.nodeCount, kept, i, source, taken, newFrom, newTo);
      keptEdges[count] := g.edges[i].(from := newFrom, to := newTo);
      assert keptEdges[..count + 1] == taken + [edges[i].(from := newFrom, to := newTo)];
      count := count + 1;
      source := source + [i];
    }
  }

  lemma NoEdgesTaken(edges: seq<Edge>, n: int, kept: seq<int>, none: seq<Edge>)
    requires none == []
    ensures KeptEdges(edges, n, kept, 0, []) && EdgesTaken(edges, kept, [], none)
  {
  }

  lemma SkipEdgeStep(edges: seq<Edge>, n: int, kept: seq<int>, i: int, source: seq<int>)
    requires 0 <= i < |edges| && KeptEdges(edges, n, kept, i, source)
    requires !EdgeStays(edges, n, kept, i)
    ensures KeptEdges(edges, n, kept, i + 1, source)
  {
  }

  lemma TakeEdgeStep(edges: seq<Edge>, n: int, kept: seq<int>, i: int, source: seq<int>, taken: seq<Edge>, from: int,
                     to: int)
    requires 0 <= i < |edges| && KeptEdges(edges, n, kept, i, source) && EdgesTaken(edges, kept, source, taken)
    requires EdgeStays(edges, n, kept, i)
    requires 0 <= from < |kept| && 0 <= to < |kept| && kept[from] == edges[i].from && kept[to] == edges[i].to
    ensures KeptEdges(edges, n, kept, i + 1, source + [i])
    ensures EdgesTaken(edges, kept, source + [i], taken + [edges[i].(from := from, to := to)])
  {
    assert forall k :: 0 <= k < |source| ==> source[k] in source;
  }

  lemma CompactedIntro(filter: NodeFilter, nodes: seq<Node>, edges: seq<Edge>, kept: seq<int>, source: seq<int>,
                       nodes': seq<Node>, edges': seq<Edge>)
    requires DistinctIds(nodes)
    requires KeptNodes(filter, nodes, |nodes|, kept) && NodesTaken(nodes, kept, nodes')
    requires KeptEdges(edges, |nodes|, kept, |edges|, source) && EdgesTaken(edges, kept, source, edges')
    ensures DistinctIds(nodes') && Compacted(filter, nodes, edges, nodes', edges')
  {
  }
}
