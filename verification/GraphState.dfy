/** The graph part of the console state: two fixed buffers with their counts, and the settings the
    graph passes read. Every pass below works on this object in place. */
module GraphState {
  import opened Limits
  import opened Walks
  import opened KindFilters

  datatype Detail = Detail(title: string, bodyPreview: string, pinned: bool, canonical: bool,
                           projectKey: string, stableId: string)

  datatype Node = Node(id: int, createdNs: int, kind: string, detail: Detail,
                       anchorId: int, anchorCreatedNs: int, isRollup: bool)

  /** Endpoints are positions in the node buffer. */
  datatype Edge = Edge(from: int, to: int, kind: string)

  /** The same edge with item ids as endpoints: what renumbering must keep. */
  datatype Link = Link(fromId: int, toId: int, kind: string)

  datatype SortMode = RecentFirst | OldestFirst

  class GraphView {
    const nodes: array<Node>
    const edges: array<Edge>
    var nodeCount: int
    var edgeCount: int
    var selectedItemId: int
    var centerItemId: int
    var sortMode: SortMode
    var nodeFilter: NodeFilter
    var edgeFilter: EdgeFilter
    var projectKeys: seq<string>
    var projectCount: int
    var queryEdgeLimit: int
    var queryHops: int
    var fullScope: bool

    ghost predicate Valid()
      reads this, nodes
    {
      && nodes.Length == NODE_LIMIT && edges.Length == EDGE_LIMIT
      && 0 <= nodeCount <= NODE_LIMIT && 0 <= edgeCount <= EDGE_LIMIT
      && DistinctIds(nodes[..nodeCount])
    }

    ghost function Nodes(): seq<Node>
      reads this, nodes
      requires 0 <= nodeCount <= nodes.Length
    {
      nodes[..nodeCount]
    }

    ghost function Edges(): seq<Edge>
      reads this, edges
      requires 0 <= edgeCount <= edges.Length
    {
      edges[..edgeCount]
    }

    /** Position of the first node with this id; zero is never an id. */
    method FindNodeIndex(itemId: int) returns (index: int)
      requires 0 <= nodeCount <= nodes.Length
      ensures index == -1 || 0 <= index < nodeCount
      ensures index >= 0 ==> itemId != 0 && nodes[index].id == itemId
      ensures index == -1 ==> itemId == 0 || forall k :: 0 <= k < nodeCount ==> nodes[k].id != itemId
    {
      if itemId == 0 {
        return -1;
      }
      for i := 0 to nodeCount
        invariant forall k :: 0 <= k < i ==> nodes[k].id != itemId
      {
        if nodes[i].id == itemId {
          return i;
        }
      }
      return -1;
    }
  }

  predicate SameItem(a: Node, b: Node) {
    a.id == b.id && a.createdNs == b.createdNs && a.kind == b.kind && a.detail == b.detail
  }

  ghost predicate DistinctIds(nodes: seq<Node>) {
    && (forall i :: 0 <= i < |nodes| ==> nodes[i].id != 0)
    && (forall i, j :: 0 <= i < j < |nodes| ==> nodes[i].id != nodes[j].id)
  }

  predicate InRange(e: Edge, n: int) {
    0 <= e.from < n && 0 <= e.to < n
  }

  ghost predicate EdgesInRange(edges: seq<Edge>, n: int) {
    forall i :: 0 <= i < |edges| ==> InRange(edges[i], n)
  }

  ghost predicate Joins(e: Edge, u: int, v: int) {
    (e.from == u && e.to == v) || (e.to == u && e.from == v)
  }

  /** Neighbouring positions, in both directions; edges with an endpoint outside the buffer count for nothing. */
  ghost function IndexPairs(edges: seq<Edge>, n: int): Relation {
    (set i | 0 <= i < |edges| && InRange(edges[i], n) :: (edges[i].from, edges[i].to)) +
    (set i | 0 <= i < |edges| && InRange(edges[i], n) :: (edges[i].to, edges[i].from))
  }

  ghost function LinkOf(nodes: seq<Node>, e: Edge): Link
    requires InRange(e, |nodes|)
  {
    Link(nodes[e.from].id, nodes[e.to].id, e.kind)
  }

  /** The links drawn by the edges that stay inside the node buffer. */
  ghost function Links(nodes: seq<Node>, edges: seq<Edge>): set<Link> {
    set i | 0 <= i < |edges| && InRange(edges[i], |nodes|) :: LinkOf(nodes, edges[i])
  }

  ghost function LinkPairs(links: set<Link>): Relation {
    (set l | l in links :: (l.fromId, l.toId)) + (set l | l in links :: (l.toId, l.fromId))
  }

  ghost function NodeIds(nodes: seq<Node>): set<int> {
    set i | 0 <= i < |nodes| :: nodes[i].id
  }

  lemma IndexPairsMember(edges: seq<Edge>, n: int, u: int, v: int)
    ensures (u, v) in IndexPairs(edges, n) <==>
            exists i :: 0 <= i < |edges| && InRange(edges[i], n) && Joins(edges[i], u, v)
  {
  }

  ghost function NameOf(nodes: seq<Node>): map<int, int> {
    map i | 0 <= i < |nodes| :: nodes[i].id
  }

  ghost function PositionOf(nodes: seq<Node>): map<int, int>
    requires DistinctIds(nodes)
  {
    map id | id in NodeIds(nodes) :: (var i :| 0 <= i < |nodes| && nodes[i].id == id; i)
  }

  lemma PositionInverts(nodes: seq<Node>, i: int)
    requires DistinctIds(nodes) && 0 <= i < |nodes|
    ensures nodes[i].id in PositionOf(nodes) && PositionOf(nodes)[nodes[i].id] == i
  {
  }

  /** Distances between positions are distances between the items stored there. */
  lemma DistanceBetweenItems(nodes: seq<Node>, edges: seq<Edge>, s: int, v: int, d: int)
    requires DistinctIds(nodes)
    requires 0 <= v < |nodes| && (s == -1 || 0 <= s < |nodes|)
    requires ExactDistance(IndexPairs(edges, |nodes|), s, v, d)
    ensures ExactDistance(LinkPairs(Links(nodes, edges)), if s < 0 then 0 else nodes[s].id, nodes[v].id, d)
  {
    var rel := IndexPairs(edges, |nodes|);
    var renamed := LinkPairs(Links(nodes, edges));
    if s < 0 {
      UntouchedSource(rel, s, v);
      ExactDistanceUnique(rel, s, v, d, UNREACHABLE);
      UntouchedSource(renamed, 0, nodes[v].id);
    } else {
      PairsToItems(nodes, edges);
      PairsToPositions(nodes, edges);
      forall u | u in NameOf(nodes)
        ensures NameOf(nodes)[u] in PositionOf(nodes) && PositionOf(nodes)[NameOf(nodes)[u]] == u
      {
        PositionInverts(nodes, u);
      }
      ExactDistanceRename(rel, s, v, d, renamed, NameOf(nodes), PositionOf(nodes));
    }
  }

  lemma PairsToItems(nodes: seq<Node>, edges: seq<Edge>)
    ensures forall u, w :: (u, w) in IndexPairs(edges, |nodes|) ==>
      && u in NameOf(nodes) && w in NameOf(nodes)
      && (NameOf(nodes)[u], NameOf(nodes)[w]) in LinkPairs(Links(nodes, edges))
  {
    forall u, w | (u, w) in IndexPairs(edges, |nodes|)
      ensures u in NameOf(nodes) && w in NameOf(nodes)
      ensures (NameOf(nodes)[u], NameOf(nodes)[w]) in LinkPairs(Links(nodes, edges))
    {
      IndexPairsMember(edges, |nodes|, u, w);
      var i :| 0 <= i < |edges| && InRange(edges[i], |nodes|) && Joins(edges[i], u, w);
      assert LinkOf(nodes, edges[i]) in Links(nodes, edges);
    }
  }

  lemma PairsToPositions(nodes: seq<Node>, edges: seq<Edge>)
    requires DistinctIds(nodes)
    ensures forall a, b :: (a, b) in LinkPairs(Links(nodes, edges)) ==>
      && a in PositionOf(nodes) && b in PositionOf(nodes)
      && (PositionOf(nodes)[a], PositionOf(nodes)[b]) in IndexPairs(edges, |nodes|)
  {
    forall a, b | (a, b) in LinkPairs(Links(nodes, edges))
      ensures a in PositionOf(nodes) && b in PositionOf(nodes)
      ensures (PositionOf(nodes)[a], PositionOf(nodes)[b]) in IndexPairs(edges, |nodes|)
    {
      var l :| l in Links(nodes, edges) && ((l.fromId == a && l.toId == b) || (l.fromId == b && l.toId == a));
      var i :| 0 <= i < |edges| && InRange(edges[i], |nodes|) && LinkOf(nodes, edges[i]) == l;
      PositionInverts(nodes, edges[i].from);
      PositionInverts(nodes, edges[i].to);
      IndexPairsMember(edges, |nodes|, PositionOf(nodes)[a], PositionOf(nodes)[b]);
    }
  }
}
