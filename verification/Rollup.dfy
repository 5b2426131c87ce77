/** Marks nodes that summarize others and anchors each of them at its newest (highest-id) source. */
module Rollup {
  import opened Limits
  import opened GraphState

  const SUMMARIZES := "summarizes"

  /** A node as it is before any edge has been looked at. */
  function Bare(node: Node): Node {
    node.(anchorId := node.id, anchorCreatedNs := node.createdNs, isRollup := false)
  }

  ghost function BareNodes(nodes: seq<Node>): set<Node> {
    set i | 0 <= i < |nodes| :: Bare(nodes[i])
  }

  /** Ids of the items that item `id` summarizes. */
  ghost function Sources(links: set<Link>, id: int): set<int> {
    set l | l in links && l.kind == SUMMARIZES && l.fromId == id && l.toId > 0 :: l.toId
  }

  ghost predicate IsMax(m: int, s: set<int>) {
    m in s && forall x :: x in s ==> x <= m
  }

  /** `after` is the bare node `node` anchored at the largest id in `sources`, or unchanged if there is none. */
  ghost predicate AnchoredAt(bare: set<Node>, sources: set<int>, node: Node, after: Node) {
    if sources == {} then after == node
    else
      && IsMax(after.anchorId, sources)
      && (exists source :: source in bare && source.id == after.anchorId && source.createdNs == after.anchorCreatedNs)
      && after == node.(anchorId := after.anchorId, anchorCreatedNs := after.anchorCreatedNs, isRollup := true)
  }

  /** What annotation does to the node buffer: nothing but the anchor fields change, and they depend only on
      the items shown and the links between them. */
  ghost predicate Annotated(nodes: seq<Node>, edges: seq<Edge>, nodes': seq<Node>) {
    && |nodes'| == |nodes|
    && forall i :: 0 <= i < |nodes| ==>
         AnchoredAt(BareNodes(nodes), Sources(Links(nodes, edges), nodes[i].id), Bare(nodes[i]), nodes'[i])
  }

  ghost predicate Summary(nodes: seq<Node>, e: Edge, r: int) {
    e.kind == SUMMARIZES && InRange(e, |nodes|) && e.from == r && nodes[e.to].id > 0
  }

  /** Sources of position `r` among the first `hi` edges. */
  ghost function SourcesTo(nodes: seq<Node>, edges: seq<Edge>, r: int, hi: int): set<int>
    requires 0 <= hi <= |edges|
  {
    set e | 0 <= e < hi && Summary(nodes, edges[e], r) :: nodes[edges[e].to].id
  }

  lemma SourcesOfPosition(nodes: seq<Node>, edges: seq<Edge>, r: int)
    requires DistinctIds(nodes) && 0 <= r < |nodes|
    ensures SourcesTo(nodes, edges, r, |edges|) == Sources(Links(nodes, edges), nodes[r].id)
  {
    var here, all := SourcesTo(nodes, edges, r, |edges|), Sources(Links(nodes, edges), nodes[r].id);
    forall x | x in here
      ensures x in all
    {
      var e :| 0 <= e < |edges| && Summary(nodes, edges[e], r) && nodes[edges[e].to].id == x;
      assert LinkOf(nodes, edges[e]) in Links(nodes, edges);
    }
    forall x | x in all
      ensures x in here
    {
      var l :| l in Links(nodes, edges) && l.kind == SUMMARIZES && l.fromId == nodes[r].id && l.toId > 0 && l.toId == x;
      var e :| 0 <= e < |edges| && InRange(edges[e], |nodes|) && LinkOf(nodes, edges[e]) == l;
      assert Summary(nodes, edges[e], r);
    }
  }

  lemma SourcesStep(nodes: seq<Node>, edges: seq<Edge>, r: int, e: int)
    requires 0 <= e < |edges|
    ensures SourcesTo(nodes, edges, r, e + 1) ==
            SourcesTo(nodes, edges, r, e) + if Summary(nodes, edges[e], r) then {nodes[edges[e].to].id} else {}
  {
  }

  /** One more source: the first is taken as it is, a later one only if its id is larger. */
  function Reanchor(rollup: Node, source: Node): Node {
    if !rollup.isRollup then
      rollup.(isRollup := true, anchorId := source.id, anchorCreatedNs := source.createdNs)
    else if source.id > rollup.anchorId then
      rollup.(anchorId := source.id, anchorCreatedNs := source.createdNs)
    else rollup
  }

  lemma ReanchorKeeps(bare: set<Node>, sources: set<int>, node: Node, after: Node, source: Node)
    requires AnchoredAt(bare, sources, node, after)
    requires !node.isRollup && Bare(source) in bare
    ensures AnchoredAt(bare, sources + {source.id}, node, Reanchor(after, source))
  {
  }

  /** Resets every anchor, then raises it over the "summarizes" edges in buffer order. */
  method AnnotateRollupRenderAnchors(g: GraphView)
    requires g.Valid()
    modifies g.nodes
    ensures g.Valid()
    ensures Annotated(old(g.Nodes()), g.Edges(), g.Nodes())
  {
    hide AnchoredAt, SourcesTo, BareNodes, Reanchor, Links;
    ghost var nodes, edges := g.Nodes(), g.Edges();
    var n := g.nodeCount;
    for i := 0 to n
      invariant forall k :: 0 <= k < i ==> g.nodes[k] == Bare(nodes[k])
      invariant forall k :: i <= k < n ==> g.nodes[k] == nodes[k]
    {
      g.nodes[i] := g.nodes[i].(anchorId := g.nodes[i].id, anchorCreatedNs := g.nodes[i].createdNs, isRollup := false);
    }
    forall r | 0 <= r < n
      ensures AnchoredAt(BareNodes(nodes), SourcesTo(nodes, edges, r, 0), Bare(nodes[r]), g.nodes[r])
    {
      NoSourcesYet(nodes, edges, r);
    }
    for i := 0 to g.edgeCount
      invariant forall k :: 0 <= k < n ==> SameItem(nodes[k], g.nodes[k])
      invariant forall r :: 0 <= r < n ==>
        AnchoredAt(BareNodes(nodes), SourcesTo(nodes, edges, r, i), Bare(nodes[r]), g.nodes[r])
    {
      var fromIndex, toIndex := g.edges[i].from, g.edges[i].to;
      AnnotateStep(nodes, edges, i, g.Nodes());
      if g.edges[i].kind != SUMMARIZES {
        continue;
      }
      if fromIndex < 0 || toIndex < 0 || fromIndex >= n || toIndex >= n {
        continue;
      }
      var rollup, source := g.nodes[fromIndex], g.nodes[toIndex];
      if source.id <= 0 {
        continue;
      }
      ReanchorSameItem(nodes[fromIndex], rollup, source);
      g.nodes[fromIndex] := Reanchor(rollup, source);
    }
    AnnotationDone(nodes, edges, g.Nodes());
  }

  lemma ReanchorSameItem(node: Node, rollup: Node, source: Node)
    requires SameItem(node, rollup)
    ensures SameItem(node, Reanchor(rollup, source))
  {
  }

  lemma NoSourcesYet(nodes: seq<Node>, edges: seq<Edge>, r: int)
    requires 0 <= r < |nodes|
    ensures AnchoredAt(BareNodes(nodes), SourcesTo(nodes, edges, r, 0), Bare(nodes[r]), Bare(nodes[r]))
  {
  }

  lemma AnnotateStep(nodes: seq<Node>, edges: seq<Edge>, e: int, now: seq<Node>)
    requires |now| == |nodes| && 0 <= e < |edges|
    requires forall k :: 0 <= k < |nodes| ==> SameItem(nodes[k], now[k])
    requires forall r :: 0 <= r < |nodes| ==>
      AnchoredAt(BareNodes(nodes), SourcesTo(nodes, edges, r, e), Bare(nodes[r]), now[r])
    ensures forall r :: 0 <= r < |nodes| ==>
      AnchoredAt(BareNodes(nodes), SourcesTo(nodes, edges, r, e + 1), Bare(nodes[r]),
                 if Summary(nodes, edges[e], r) then Reanchor(now[r], now[edges[e].to]) else now[r])
  {
    hide AnchoredAt;
    forall r | 0 <= r < |nodes|
      ensures AnchoredAt(BareNodes(nodes), SourcesTo(nodes, edges, r, e + 1), Bare(nodes[r]),
                         if Summary(nodes, edges[e], r) then Reanchor(now[r], now[edges[e].to]) else now[r])
    {
      SourcesStep(nodes, edges, r, e);
      if Summary(nodes, edges[e], r) {
        var source := now[edges[e].to];
        assert Bare(source) == Bare(nodes[edges[e].to]);
        ReanchorKeeps(BareNodes(nodes), SourcesTo(nodes, edges, r, e), Bare(nodes[r]), now[r], source);
      } else {
        assert SourcesTo(nodes, edges, r, e + 1) == SourcesTo(nodes, edges, r, e);
      }
    }
  }

  lemma AnnotationDone(nodes: seq<Node>, edges: seq<Edge>, now: seq<Node>)
    requires DistinctIds(nodes) && |now| == |nodes|
    requires forall k :: 0 <= k < |nodes| ==> SameItem(nodes[k], now[k])
    requires forall r :: 0 <= r < |nodes| ==>
      AnchoredAt(BareNodes(nodes), SourcesTo(nodes, edges, r, |edges|), Bare(nodes[r]), now[r])
    ensures DistinctIds(now) && Annotated(nodes, edges, now)
  {
    hide AnchoredAt;
    forall i | 0 <= i < |nodes|
      ensures AnchoredAt(BareNodes(nodes), Sources(Links(nodes, edges), nodes[i].id), Bare(nodes[i]), now[i])
    {
      SourcesOfPosition(nodes, edges, i);
    }
  }
}
