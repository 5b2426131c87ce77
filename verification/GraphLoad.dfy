/** Fills the graph buffers from query rows, in focus mode (a neighbourhood of the centre) or over the full scope. */
module GraphLoad {
  import opened Limits
  import opened Walks
  import opened AsciiText
  import opened KindFilters
  import opened GraphState
  import opened Database
  import opened GraphPipeline

  datatype EnsureResult = Found(index: int) | InvalidId | LimitReached | Missing

  datatype LoadResult = Done | Failed(cause: EnsureResult)

  /** Every node is what the item table says, and its item is active. */
  ghost predicate FromTable(db: Tables, nodes: seq<Node>) {
    forall k :: 0 <= k < |nodes| ==> Active(db, nodes[k].id) && nodes[k] == NodeOf(nodes[k].id, db.items[nodes[k].id])
  }

  /** Position of an item's node, loading it if it is not there yet. */
  method EnsureGraphNode(g: GraphView, db: Tables, itemId: int) returns (r: EnsureResult)
    requires g.Valid() && FromTable(db, g.Nodes())
    modifies g`nodeCount, g.nodes
    ensures g.Valid() && FromTable(db, g.Nodes())
    ensures r.Found? <==>
      itemId != 0 && (itemId in NodeIds(old(g.Nodes())) || (old(g.nodeCount) < NODE_LIMIT && Active(db, itemId)))
    ensures r.Found? ==> 0 <= r.index < g.nodeCount && g.nodes[r.index].id == itemId
    ensures !r.Found? ==>
      r == if itemId == 0 then InvalidId else if old(g.nodeCount) >= NODE_LIMIT then LimitReached else Missing
    ensures g.Nodes() == old(g.Nodes()) +
      if r.Found? && itemId !in NodeIds(old(g.Nodes())) then [NodeOf(itemId, db.items[itemId])] else []
  {
    if itemId == 0 {
      return InvalidId;
    }
    var existing := g.FindNodeIndex(itemId);
    if existing >= 0 {
      return Found(existing);
    }
    if g.nodeCount >= NODE_LIMIT {
      return LimitReached;
    }
    if !Active(db, itemId) {
      return Missing;
    }
    ghost var nodes := g.Nodes();
    g.nodes[g.nodeCount] := NodeOf(itemId, db.items[itemId]);
    g.nodeCount := g.nodeCount + 1;
    assert g.Nodes() == nodes + [NodeOf(itemId, db.items[itemId])];
    r := Found(g.nodeCount - 1);
  }

  /** The edge `e` shows the link row `row`: an open link of an enabled kind between the items at its ends. */
  ghost predicate EdgeBacked(db: Tables, s: Scope, f: EdgeFilter, normalized: bool, nodes: seq<Node>, e: Edge,
                             row: LinkRow) {
    && row in db.links && LinkOpen(db, s, f.text, row)
    && InRange(e, |nodes|) && nodes[e.from].id == row.fromId && nodes[e.to].id == row.toId
    && EdgeKindEnabled(f, Loaded(row.kind, 32))
    && e.kind == if normalized then Loaded(row.kind, 32) else Truncated(row.kind, 32)
  }

  /** No two edges show the same row. */
  ghost predicate Backed(db: Tables, s: Scope, f: EdgeFilter, normalized: bool, nodes: seq<Node>, edges: seq<Edge>,
                         origin: seq<LinkRow>) {
    && |origin| == |edges| && KeysDistinct(origin)
    && forall i :: 0 <= i < |edges| ==> EdgeBacked(db, s, f, normalized, nodes, edges[i], origin[i])
  }

  ghost predicate Near(rel: Relation, root: int, hops: nat, nodes: seq<Node>) {
    forall k :: 0 <= k < |nodes| ==> Within(rel, root, hops, nodes[k].id)
  }

  lemma BackedGrows(db: Tables, s: Scope, f: EdgeFilter, normalized: bool, nodes: seq<Node>, more: seq<Node>,
                    edges: seq<Edge>, origin: seq<LinkRow>)
    requires Backed(db, s, f, normalized, nodes, edges, origin) && nodes <= more
    ensures Backed(db, s, f, normalized, more, edges, origin)
  {
  }

  ghost predicate EnabledItem(db: Tables, filter: NodeFilter, id: int) {
    Active(db, id) && NodeKindEnabled(filter, Loaded(db.items[id].kind, 32))
  }

  ghost predicate KindOk(f: EdgeFilter, l: LinkRow) {
    EdgeKindEnabled(f, Loaded(l.kind, 32))
  }

  ghost predicate EndsIn(nodes: seq<Node>, l: LinkRow) {
    l.fromId in NodeIds(nodes) && l.toId in NodeIds(nodes)
  }

  /** A row that becomes an edge: link kind and both end kinds enabled, both ends in the buffer. */
  ghost predicate Fits(db: Tables, f: EdgeFilter, filter: NodeFilter, nodes: seq<Node>, l: LinkRow) {
    KindOk(f, l) && EnabledItem(db, filter, l.fromId) && EnabledItem(db, filter, l.toId) && EndsIn(nodes, l)
  }

  ghost function FittingRows(db: Tables, f: EdgeFilter, filter: NodeFilter, nodes: seq<Node>,
                             rows: seq<LinkRow>): seq<LinkRow> {
    Where(rows, (l: LinkRow) => Fits(db, f, filter, nodes, l))
  }

  /** Unless the buffer is full, it has both ends of every row of an enabled kind. */
  ghost predicate EndsLoaded(f: EdgeFilter, nodes: seq<Node>, rows: seq<LinkRow>) {
    |nodes| < NODE_LIMIT ==> forall l :: l in rows && KindOk(f, l) ==> EndsIn(nodes, l)
  }

  /** Nodes beyond the first `n` are ends of rows of an enabled kind. */
  ghost predicate NodesFromRows(f: EdgeFilter, nodes: seq<Node>, n: int, rows: seq<LinkRow>) {
    forall k :: n <= k < |nodes| && 0 <= k ==> IsEnd(f, rows, nodes[k].id)
  }

  ghost predicate IsEnd(f: EdgeFilter, rows: seq<LinkRow>, id: int) {
    exists l :: l in rows && KindOk(f, l) && (l.fromId == id || l.toId == id)
  }

  /** One more row is skipped: the rows that fit so far are the same. */
  lemma FittingSkips(db: Tables, f: EdgeFilter, filter: NodeFilter, nodes: seq<Node>, more: seq<Node>,
                     rows: seq<LinkRow>, i: int)
    requires 0 <= i < |rows| && nodes <= more
    requires EndsLoaded(f, nodes, rows[..i]) && (|nodes| >= NODE_LIMIT ==> more == nodes)
    ensures FittingRows(db, f, filter, more, rows[..i + 1]) ==
            FittingRows(db, f, filter, nodes, rows[..i]) + if Fits(db, f, filter, more, rows[i]) then [rows[i]] else []
  {
    hide EnabledItem, KindOk, NodeIds;
    var p := (l: LinkRow) => Fits(db, f, filter, more, l);
    assert rows[..i + 1] == rows[..i] + [rows[i]];
    WhereAppend(rows[..i], rows[i], p);
    forall l | l in rows[..i]
      ensures p(l) <==> Fits(db, f, filter, nodes, l)
    {
      if l.fromId in NodeIds(nodes) { StillThere(nodes, more, l.fromId); }
      if l.toId in NodeIds(nodes) { StillThere(nodes, more, l.toId); }
    }
    WhereAgrees(rows[..i], p, (l: LinkRow) => Fits(db, f, filter, nodes, l));
  }

  lemma StillThere(nodes: seq<Node>, more: seq<Node>, id: int)
    requires nodes <= more && id in NodeIds(nodes)
    ensures id in NodeIds(more)
  {
  }

  /** The nodes added after `nodes` show ends of the row. */
  ghost predicate OnlyEndsAdded(nodes: seq<Node>, more: seq<Node>, row: LinkRow) {
    forall k :: |nodes| <= k < |more| ==> more[k].id == row.fromId || more[k].id == row.toId
  }

  lemma NoneAdded(nodes: seq<Node>, row: LinkRow)
    ensures OnlyEndsAdded(nodes, nodes, row)
  {
  }

  lemma EndsStep(f: EdgeFilter, nodes: seq<Node>, more: seq<Node>, n: int, rows: seq<LinkRow>, i: int)
    requires 0 <= i < |rows| && nodes <= more
    requires EndsLoaded(f, nodes, rows[..i]) && NodesFromRows(f, nodes, n, rows[..i])
    requires KindOk(f, rows[i]) && |more| < NODE_LIMIT ==> EndsIn(more, rows[i])
    requires more == nodes || KindOk(f, rows[i])
    requires OnlyEndsAdded(nodes, more, rows[i])
    ensures EndsLoaded(f, more, rows[..i + 1]) && NodesFromRows(f, more, n, rows[..i + 1])
  {
  }

  lemma BackedAppend(db: Tables, s: Scope, f: EdgeFilter, normalized: bool, nodes: seq<Node>, edges: seq<Edge>,
                     origin: seq<LinkRow>, rows: seq<LinkRow>, i: int, e: Edge)
    requires Backed(db, s, f, normalized, nodes, edges, origin)
    requires KeysDistinct(rows) && 0 <= i < |rows| && (forall l :: l in origin ==> l in rows[..i])
    requires EdgeBacked(db, s, f, normalized, nodes, e, rows[i])
    ensures Backed(db, s, f, normalized, nodes, edges + [e], origin + [rows[i]])
    ensures forall l :: l in origin + [rows[i]] ==> l in rows[..i + 1]
  {
    hide EdgeBacked;
    assert forall k :: 0 <= k < |origin| ==> origin[k] in rows[..i];
    assert rows[..i + 1] == rows[..i] + [rows[i]];
  }

  /** Where the loop over the focus rows stands after `i` of them. */
  ghost predicate FocusProgress(db: Tables, s: Scope, f: EdgeFilter, filter: NodeFilter, n: int, nodes: seq<Node>,
                                edges: seq<Edge>,
                                rows: seq<LinkRow>, i: int, origin: seq<LinkRow>)
  {
    && 0 <= i <= |rows|
    && Backed(db, s, f, false, nodes, edges, origin)
    && origin == FittingRows(db, f, filter, nodes, rows[..i])
    && EndsLoaded(f, nodes, rows[..i]) && NodesFromRows(f, nodes, n, rows[..i])
  }

  lemma FocusStarts(db: Tables, s: Scope, f: EdgeFilter, filter: NodeFilter, nodes: seq<Node>, edges: seq<Edge>,
                    rows: seq<LinkRow>)
    requires edges == []
    ensures FocusProgress(db, s, f, filter, |nodes|, nodes, edges, rows, 0, [])
  {
  }

  lemma FocusSkips(db: Tables, s: Scope, f: EdgeFilter, filter: NodeFilter, n: int, nodes: seq<Node>, more: seq<Node>,
                   edges: seq<Edge>,
                   rows: seq<LinkRow>, i: int, origin: seq<LinkRow>)
    requires FocusProgress(db, s, f, filter, n, nodes, edges, rows, i, origin) && i < |rows|
    requires nodes <= more && (|nodes| >= NODE_LIMIT ==> more == nodes)
    requires Backed(db, s, f, false, more, edges, origin)
    requires !Fits(db, f, filter, more, rows[i])
    requires KindOk(f, rows[i]) && |more| < NODE_LIMIT ==> EndsIn(more, rows[i])
    requires more == nodes || KindOk(f, rows[i])
    requires OnlyEndsAdded(nodes, more, rows[i])
    ensures FocusProgress(db, s, f, filter, n, more, edges, rows, i + 1, origin)
  {
    hide Fits, EndsLoaded, NodesFromRows, Backed, FittingRows, KindOk, EndsIn;
    FittingSkips(db, f, filter, nodes, more, rows, i);
    EndsStep(f, nodes, more, n, rows, i);
  }

  lemma FocusTakes(db: Tables, s: Scope, f: EdgeFilter, filter: NodeFilter, n: int, nodes: seq<Node>, more: seq<Node>,
                   edges: seq<Edge>,
                   rows: seq<LinkRow>, i: int, origin: seq<LinkRow>, e: Edge)
    requires FocusProgress(db, s, f, filter, n, nodes, edges, rows, i, origin) && i < |rows|
    requires nodes <= more && (|nodes| >= NODE_LIMIT ==> more == nodes)
    requires Backed(db, s, f, false, more, edges, origin)
    requires Fits(db, f, filter, more, rows[i])
    requires OnlyEndsAdded(nodes, more, rows[i])
    requires KeysDistinct(rows) && EdgeBacked(db, s, f, false, more, e, rows[i])
    ensures FocusProgress(db, s, f, filter, n, more, edges + [e], rows, i + 1, origin + [rows[i]])
  {
    hide EndsLoaded, NodesFromRows, Backed, KindOk, EndsIn, EdgeBacked, EnabledItem;
    FittingSkips(db, f, filter, nodes, more, rows, i);
    EndsStep(f, nodes, more, n, rows, i);
    WhereKeeps(rows[..i], (l: LinkRow) => Fits(db, f, filter, nodes, l));
    BackedAppend(db, s, f, false, more, edges, origin, rows, i, e);
  }

  /** Appends an edge for every row whose link kind and end kinds are enabled, loading the ends as needed. With the
      buffer full, exactly the rows whose ends made it in become edges. */
  method LoadFocusRows(g: GraphView, db: Tables, rows: seq<LinkRow>, ghost s: Scope, ghost rel: Relation,
                       ghost root: int, ghost hops: nat)
      returns (r: LoadResult, ghost origin: seq<LinkRow>)
    requires g.Valid() && FromTable(db, g.Nodes()) && Near(rel, root, hops, g.Nodes()) && g.edgeCount == 0
    requires KeysDistinct(rows) && |rows| <= EDGE_LIMIT
    requires forall l :: l in rows ==> l in db.links && LinkOpen(db, s, g.edgeFilter.text, l)
    requires forall l :: l in rows ==> Within(rel, root, hops, l.fromId) && Within(rel, root, hops, l.toId)
    modifies g`nodeCount, g`edgeCount, g.nodes, g.edges
    ensures g.Valid() && FromTable(db, g.Nodes()) && Near(rel, root, hops, g.Nodes()) && old(g.Nodes()) <= g.Nodes()
    ensures r.Done? ==> FocusProgress(db, s, g.edgeFilter, g.nodeFilter, old(g.nodeCount), g.Nodes(), g.Edges(), rows,
                                      |rows|, origin)
    ensures r.Failed? ==> 0 in db.items
  {
    hide DistinctIds, FromTable, Near, Backed, EdgeBacked, LinkOpen, KeysDistinct, Within, Loaded, Truncated, NodeOf,
         EdgeKindEnabled,
         NodeKindEnabled, NodeIds, FocusProgress, Fits, EndsIn, KindOk, OnlyEndsAdded;
    origin := [];
    FocusStarts(db, s, g.edgeFilter, g.nodeFilter, g.Nodes(), g.Edges(), rows);
    for i := 0 to |rows|
      invariant g.Valid() && FromTable(db, g.Nodes()) && Near(rel, root, hops, g.Nodes()) && g.edgeCount <= i
      invariant old(g.Nodes()) <= g.Nodes()
      invariant FocusProgress(db, s, g.edgeFilter, g.nodeFilter, old(g.nodeCount), g.Nodes(), g.Edges(), rows, i,
                              origin)
    {
      var row := rows[i];
      assert row in rows;
      ghost var nodes, edges := g.Nodes(), g.Edges();
      ProgressIsBacked(db, s, g.edgeFilter, g.nodeFilter, old(g.nodeCount), nodes, edges, rows, i, origin);
      if g.edgeCount >= EDGE_LIMIT {
        assert false;
        break;
      }
      if !EdgeKindEnabled(g.edgeFilter, Loaded(row.kind, 32)) {
        KindRejects(db, g.edgeFilter, g.nodeFilter, nodes, row);
        NoneAdded(nodes, row);
        FocusSkips(db, s, g.edgeFilter, g.nodeFilter, old(g.nodeCount), nodes, nodes, edges, rows, i, origin);
        continue;
      }
      KindAccepts(g.edgeFilter, row);
      var outcome, fromIndex, toIndex := LoadEnds(g, db, row, s, rel, root, hops, false, origin);
      ghost var more := g.Nodes();
      if outcome == LimitReached {
        EndMissing(db, g.edgeFilter, g.nodeFilter, more, row);
        FocusSkips(db, s, g.edgeFilter, g.nodeFilter, old(g.nodeCount), nodes, more, edges, rows, i, origin);
        continue;
      }
      if !outcome.Found? {
        return Failed(outcome), origin;
      }
      EndKinds(db, g.edgeFilter, g.nodeFilter, more, row, fromIndex, toIndex);
      assert g.nodes[fromIndex] == more[fromIndex] && g.nodes[toIndex] == more[toIndex];
      if !NodeKindEnabled(g.nodeFilter, g.nodes[fromIndex].kind) ||
          !NodeKindEnabled(g.nodeFilter, g.nodes[toIndex].kind) {
        FocusSkips(db, s, g.edgeFilter, g.nodeFilter, old(g.nodeCount), nodes, more, edges, rows, i, origin);
        continue;
      }
      var e := Edge(fromIndex, toIndex, Truncated(row.kind, 32));
      EdgeBackedIntro(db, s, g.edgeFilter, more, e, row);
      FocusTakes(db, s, g.edgeFilter, g.nodeFilter, old(g.nodeCount), nodes, more, edges, rows, i, origin, e);
      g.edges[g.edgeCount] := e;
      g.edgeCount := g.edgeCount + 1;
      assert g.Edges() == edges + [e];
      origin := origin + [row];
    }
    r := Done;
  }

  lemma ProgressIsBacked(db: Tables, s: Scope, f: EdgeFilter, filter: NodeFilter, n: int, nodes: seq<Node>,
                         edges: seq<Edge>,
                         rows: seq<LinkRow>, i: int, origin: seq<LinkRow>)
    requires FocusProgress(db, s, f, filter, n, nodes, edges, rows, i, origin)
    ensures Backed(db, s, f, false, nodes, edges, origin)
  {
  }

  lemma KindRejects(db: Tables, f: EdgeFilter, filter: NodeFilter, nodes: seq<Node>, row: LinkRow)
    requires !EdgeKindEnabled(f, Loaded(row.kind, 32))
    ensures !KindOk(f, row) && !Fits(db, f, filter, nodes, row)
  {
  }

  lemma KindAccepts(f: EdgeFilter, row: LinkRow)
    requires EdgeKindEnabled(f, Loaded(row.kind, 32))
    ensures KindOk(f, row)
  {
  }

  lemma EndMissing(db: Tables, f: EdgeFilter, filter: NodeFilter, nodes: seq<Node>, row: LinkRow)
    requires !EndsIn(nodes, row)
    ensures !Fits(db, f, filter, nodes, row)
  {
  }

  lemma EndKinds(db: Tables, f: EdgeFilter, filter: NodeFilter, nodes: seq<Node>, row: LinkRow, from: int, to: int)
    requires FromTable(db, nodes) && KindOk(f, row) && EndsIn(nodes, row)
    requires 0 <= from < |nodes| && nodes[from].id == row.fromId
    requires 0 <= to < |nodes| && nodes[to].id == row.toId
    ensures Fits(db, f, filter, nodes, row) <==>
            NodeKindEnabled(filter, nodes[from].kind) && NodeKindEnabled(filter, nodes[to].kind)
  {
  }

  /** Both ends of a row. Found means both are there; the second may reach the limit after the first was loaded. */
  method LoadEnds(g: GraphView, db: Tables, row: LinkRow, ghost s: Scope, ghost rel: Relation, ghost root: int,
                  ghost hops: nat,
                  ghost normalized: bool, ghost origin: seq<LinkRow>)
      returns (outcome: EnsureResult, fromIndex: int, toIndex: int)
    requires g.Valid() && FromTable(db, g.Nodes()) && Near(rel, root, hops, g.Nodes())
    requires Backed(db, s, g.edgeFilter, normalized, g.Nodes(), g.Edges(), origin)
    requires LinkOpen(db, s, g.edgeFilter.text, row)
    requires Within(rel, root, hops, row.fromId) && Within(rel, root, hops, row.toId)
    modifies g`nodeCount, g.nodes
    ensures g.Valid() && FromTable(db, g.Nodes()) && Near(rel, root, hops, g.Nodes())
    ensures Backed(db, s, g.edgeFilter, normalized, g.Nodes(), g.Edges(), origin)
    ensures old(g.Nodes()) <= g.Nodes() && (old(g.nodeCount) >= NODE_LIMIT ==> g.Nodes() == old(g.Nodes()))
    ensures OnlyEndsAdded(old(g.Nodes()), g.Nodes(), row)
    ensures outcome.Found? ==> 0 <= fromIndex < g.nodeCount && g.nodes[fromIndex].id == row.fromId
    ensures outcome.Found? ==> 0 <= toIndex < g.nodeCount && g.nodes[toIndex].id == row.toId
    ensures outcome.Found? ==> EndsIn(g.Nodes(), row)
    ensures outcome == LimitReached ==> g.nodeCount == NODE_LIMIT && !EndsIn(g.Nodes(), row)
    ensures !outcome.Found? && outcome != LimitReached ==> 0 in db.items
  {
    hide Backed, DistinctIds, Within, FromTable, NodeOf;
    fromIndex, toIndex := -1, -1;
    ghost var nodes := g.Nodes();
    outcome := EnsureGraphNode(g, db, row.fromId);
    LoadedKindOf(row.fromId, db.items[row.fromId]);
    BackedGrows(db, s, g.edgeFilter, normalized, nodes, g.Nodes(), g.Edges(), origin);
    if !outcome.Found? {
      return;
    }
    fromIndex := outcome.index;
    ghost var middle := g.Nodes();
    outcome := EnsureGraphNode(g, db, row.toId);
    LoadedKindOf(row.toId, db.items[row.toId]);
    BackedGrows(db, s, g.edgeFilter, normalized, middle, g.Nodes(), g.Edges(), origin);
    if outcome.Found? {
      toIndex := outcome.index;
      assert g.nodes[fromIndex] == middle[fromIndex];
      assert g.Nodes()[fromIndex].id == row.fromId && g.Nodes()[toIndex].id == row.toId;
    }
  }

  lemma NothingBacked(db: Tables, s: Scope, f: EdgeFilter, normalized: bool, nodes: seq<Node>, edges: seq<Edge>)
    requires edges == []
    ensures Backed(db, s, f, normalized, nodes, edges, [])
  {
  }

  lemma EdgeBackedIntro(db: Tables, s: Scope, f: EdgeFilter, nodes: seq<Node>, e: Edge, row: LinkRow)
    requires row in db.links && LinkOpen(db, s, f.text, row) && EdgeKindEnabled(f, Loaded(row.kind, 32))
    requires InRange(e, |nodes|) && nodes[e.from].id == row.fromId && nodes[e.to].id == row.toId
    requires e.kind == Truncated(row.kind, 32)
    ensures EdgeBacked(db, s, f, false, nodes, e, row)
  {
  }

  /** A node that shows an active item of an enabled kind as the table has it; only the anchors are computed. */
  ghost predicate Shows(db: Tables, filter: NodeFilter, node: Node) {
    && Active(db, node.id) && SameItem(NodeOf(node.id, db.items[node.id]), node)
    && NodeKindEnabled(filter, node.kind)
  }

  /** The finished view: distinct shown items, at most `limit` edges, each showing its own link row. */
  ghost predicate SoundGraph(db: Tables, s: Scope, f: EdgeFilter, filter: NodeFilter, normalized: bool, limit: int,
                             nodes: seq<Node>, edges: seq<Edge>)
  {
    && DistinctIds(nodes) && |edges| <= limit
    && (forall k :: 0 <= k < |nodes| ==> Shows(db, filter, nodes[k]))
    && exists origin :: Backed(db, s, f, normalized, nodes, edges, origin)
  }

  lemma ArrangingKeepsSound(db: Tables, s: Scope, f: EdgeFilter, filter: NodeFilter, normalized: bool, limit: int,
                            nodes: seq<Node>, edges: seq<Edge>, origin: seq<LinkRow>, nodes': seq<Node>,
                                edges': seq<Edge>)
    requires FromTable(db, nodes) && Backed(db, s, f, normalized, nodes, edges, origin)
    requires SoundView(filter, limit, nodes, edges, nodes', edges')
    ensures SoundGraph(db, s, f, filter, normalized, limit, nodes', edges')
  {
    hide NodeKindEnabled, NodeOf, LinkOpen, EdgeKindEnabled, Loaded, Truncated;
    var source :| Subgraph(nodes, edges, nodes', edges', source);
    var none := LinkRow(0, 0, 0, "");
    var from := seq(|source|, i requires 0 <= i < |source| =>
      if 0 <= source[i] < |origin| then origin[source[i]] else none);
    forall i | 0 <= i < |edges'|
      ensures 0 <= source[i] < |origin| && EdgeBacked(db, s, f, normalized, nodes', edges'[i], from[i])
    {
      assert SameLink(nodes, edges, nodes', edges'[i], source[i]);
      assert EdgeBacked(db, s, f, normalized, nodes, edges[source[i]], origin[source[i]]);
    }
    assert Backed(db, s, f, normalized, nodes', edges', from);
    forall k | 0 <= k < |nodes'|
      ensures Shows(db, filter, nodes'[k])
    {
      assert ItemOf(nodes, nodes'[k]);
    }
  }

  lemma ArrangingKeepsNear(rel: Relation, root: int, hops: nat, filter: NodeFilter, limit: int,
                           nodes: seq<Node>, edges: seq<Edge>, nodes': seq<Node>, edges': seq<Edge>)
    requires Near(rel, root, hops, nodes) && SoundView(filter, limit, nodes, edges, nodes', edges')
    ensures Near(rel, root, hops, nodes')
  {
  }

  function CenterValue(id: int): int {
    if id > 0 then id else 0
  }

  /** Clamps the query settings and empties the buffers; returns how many link rows to ask for. */
  method PrepareLoad(g: GraphView) returns (edgeLimit: int, queryLimit: int, hops: int)
    requires g.Valid()
    modifies g`queryEdgeLimit, g`queryHops, g`nodeCount, g`edgeCount
    ensures g.Valid() && g.nodeCount == 0 && g.edgeCount == 0
    ensures edgeLimit == g.queryEdgeLimit == ClampEdgeLimit(old(g.queryEdgeLimit))
    ensures queryLimit == QueryLimit(edgeLimit) && edgeLimit <= queryLimit <= EDGE_LIMIT
    ensures hops == g.queryHops == ClampHops(old(g.queryHops))
  {
    edgeLimit := ClampEdgeLimit(g.queryEdgeLimit);
    g.queryEdgeLimit := edgeLimit;
    queryLimit := edgeLimit * 3;
    if queryLimit < edgeLimit {
      queryLimit := edgeLimit;
    }
    if queryLimit > EDGE_LIMIT {
      queryLimit := EDGE_LIMIT;
    }
    hops := ClampHops(g.queryHops);
    g.queryHops := hops;
    g.nodeCount := 0;
    g.edgeCount := 0;
  }

  function QueryLimit(edgeLimit: int): (r: int)
    ensures r <= 3 * edgeLimit && r <= EDGE_LIMIT && (r == 3 * edgeLimit || r == EDGE_LIMIT)
  {
    if edgeLimit * 3 > EDGE_LIMIT then EDGE_LIMIT else edgeLimit * 3
  }

  /** The item the neighbourhood is grown from: the centre, else the selection; a centre that cannot be loaded gives way
      to the selection. Zero when there is nothing to show. */
  function FocusRoot(db: Tables, center: int, selected: int): int {
    var wanted := if center != 0 then center else selected;
    if wanted == 0 then 0
    else if Active(db, wanted) then wanted
    else if selected != 0 && selected != wanted && Active(db, selected) then selected
    else 0
  }

  method ChooseRoot(g: GraphView, db: Tables) returns (root: int)
    requires g.Valid() && g.nodeCount == 0
    modifies g`nodeCount, g`centerItemId, g.nodes
    ensures g.Valid() && FromTable(db, g.Nodes())
    ensures root == FocusRoot(db, old(g.centerItemId), g.selectedItemId)
    ensures old(g.centerItemId) != 0 && Active(db, old(g.centerItemId)) ==> root == old(g.centerItemId)
    ensures (old(g.centerItemId) == 0 || !Active(db, old(g.centerItemId))) ==>
            root == if g.selectedItemId != 0 && Active(db, g.selectedItemId) then g.selectedItemId else 0
    ensures g.centerItemId == if root > 0 then root else 0
    ensures root != 0 ==> Active(db, root)
    ensures g.Nodes() == if root == 0 then [] else [NodeOf(root, db.items[root])]
    ensures g.centerItemId == CenterValue(root) || (root == 0 &&
            g.centerItemId == old(g.centerItemId) == g.selectedItemId == 0)
  {
    root := g.centerItemId;
    if root == 0 {
      root := g.selectedItemId;
    }
    if root == 0 {
      return;
    }
    var outcome := EnsureGraphNode(g, db, root);
    if !outcome.Found? && g.selectedItemId != 0 && g.selectedItemId != root {
      root := g.selectedItemId;
      outcome := EnsureGraphNode(g, db, root);
    }
    if !outcome.Found? {
      g.centerItemId := CenterValue(0);
      return 0;
    }
    g.centerItemId := CenterValue(root);
  }

  ghost predicate AnswersFocus(rowsFrom: int -> seq<LinkRow>, db: Tables, s: Scope, text: string, hops: nat,
                               oldestFirst: bool, limit: nat)
  {
    forall root :: rowsFrom(root) == FocusRows(db, s, text, root, hops, oldestFirst, limit)
  }

  /** Loads the neighbourhood of the centre and arranges it. `rowsFrom` stands for the database's answer to the focus
      query when it is asked with a given root. */
  method LoadFocusGraph(g: GraphView, db: Tables, rowsFrom: int -> seq<LinkRow>)
      returns (r: LoadResult, ghost root: int, ghost loaded: seq<Node>, ghost edges: seq<Edge>,
               ghost origin: seq<LinkRow>)
    requires g.Valid() && KeysIncrease(db.links)
    requires AnswersFocus(rowsFrom, db, ScopeOf(g.projectCount, g.projectKeys), g.edgeFilter.text,
                          ClampHops(g.queryHops),
                          g.sortMode == OldestFirst, QueryLimit(ClampEdgeLimit(g.queryEdgeLimit)))
    modifies g`queryEdgeLimit, g`queryHops, g`nodeCount, g`edgeCount, g`centerItemId, g.nodes, g.edges
    ensures g.Valid()
    ensures root == FocusRoot(db, old(g.centerItemId), g.selectedItemId) && g.centerItemId == CenterValue(root)
    ensures old(g.centerItemId) != 0 && Active(db, old(g.centerItemId)) ==> root == old(g.centerItemId)
    ensures (old(g.centerItemId) == 0 || !Active(db, old(g.centerItemId))) ==>
            root == if g.selectedItemId != 0 && Active(db, g.selectedItemId) then g.selectedItemId else 0
    ensures g.centerItemId == if root > 0 then root else 0
    ensures r.Failed? ==> 0 in db.items
    ensures root == 0 ==> r == Done && g.Nodes() == [] && g.Edges() == []
    ensures r.Done? ==> SoundGraph(db, ScopeOf(g.projectCount, g.projectKeys), g.edgeFilter, g.nodeFilter, false,
                                   ClampEdgeLimit(old(g.queryEdgeLimit)), g.Nodes(), g.Edges())
    ensures r.Done? ==> Near(WalkPairs(db, ScopeOf(g.projectCount, g.projectKeys), g.edgeFilter.text), root,
                             ClampHops(old(g.queryHops)), g.Nodes())
    ensures r.Done? && root != 0 ==> loaded != [] && loaded[0] == NodeOf(root, db.items[root])
    ensures r.Done? && root != 0 ==> FocusProgress(db, ScopeOf(g.projectCount, g.projectKeys), g.edgeFilter,
                                                   g.nodeFilter, 1,
                                                   loaded, edges, rowsFrom(root), |rowsFrom(root)|, origin)
    ensures r.Done? && root != 0 ==> PassesRun(g.nodeFilter, g.selectedItemId, g.centerItemId, g.sortMode,
                                               ClampEdgeLimit(old(g.queryEdgeLimit)), loaded, edges, g.Nodes(),
                                                   g.Edges())
  {
    hide DistinctIds, FromTable, Near, Backed, LinkOpen, KeysDistinct, SoundGraph, Within, NodeOf, WalkPairs, FocusRoot,
         SoundView,
         PassesRun, ScopeOf, FocusProgress;
    loaded, edges, origin := [], [], [];
    ghost var s := ScopeOf(g.projectCount, g.projectKeys);
    ghost var rel := WalkPairs(db, s, g.edgeFilter.text);
    var edgeLimit, queryLimit, hops := PrepareLoad(g);
    var start := ChooseRoot(g, db);
    root := start;
    if start == 0 {
      EmptyIsSound(db, s, g.edgeFilter, g.nodeFilter, false, edgeLimit, rel, root, hops, g.Nodes(), g.Edges());
      r := Done;
      return;
    }
    RootIsNear(db, rel, root, hops, g.Nodes());
    var rows := rowsFrom(start);
    FocusRowFacts(db, s, g.edgeFilter.text, root, hops, g.sortMode == OldestFirst, queryLimit);
    r, origin := LoadFocusRows(g, db, rows, s, rel, root, hops);
    if r.Failed? {
      return;
    }
    loaded, edges := g.Nodes(), g.Edges();
    ProgressIsBacked(db, s, g.edgeFilter, g.nodeFilter, 1, loaded, edges, rows, |rows|, origin);
    ArrangeGraph(g, edgeLimit);
    ArrangingKeepsSound(db, s, g.edgeFilter, g.nodeFilter, false, edgeLimit, loaded, edges, origin, g.Nodes(),
                        g.Edges());
    ArrangingKeepsNear(rel, root, hops, g.nodeFilter, edgeLimit, loaded, edges, g.Nodes(), g.Edges());
  }

  lemma EmptyIsSound(db: Tables, s: Scope, f: EdgeFilter, filter: NodeFilter, normalized: bool, limit: int,
                     rel: Relation, root: int, hops: nat, nodes: seq<Node>, edges: seq<Edge>)
    requires nodes == [] && edges == [] && limit >= 0
    ensures SoundGraph(db, s, f, filter, normalized, limit, nodes, edges) && Near(rel, root, hops, nodes)
  {
    assert Backed(db, s, f, normalized, nodes, edges, []);
  }

  lemma RootIsNear(db: Tables, rel: Relation, root: int, hops: nat, nodes: seq<Node>)
    requires root in db.items && nodes == [NodeOf(root, db.items[root])]
    ensures Near(rel, root, hops, nodes)
  {
    assert Walk(rel, root, 0, root);
  }

  lemma FocusRowFacts(db: Tables, s: Scope, text: string, root: int, hops: nat, oldestFirst: bool, limit: nat)
    requires KeysIncrease(db.links)
    ensures var rows := FocusRows(db, s, text, root, hops, oldestFirst, limit);
      && |rows| <= limit && KeysDistinct(rows)
      && (forall l :: l in rows ==> l in db.links && LinkOpen(db, s, text, l))
      && (forall l :: l in rows ==>
            Within(WalkPairs(db, s, text), root, hops, l.fromId) && Within(WalkPairs(db, s, text), root, hops, l.toId))
  {
    hide LinkOpen, Within;
    ListedRows(db, oldestFirst, (l: LinkRow) => LinkOpen(db, s, text, l)
      && Within(WalkPairs(db, s, text), root, hops, l.fromId) &&
         Within(WalkPairs(db, s, text), root, hops, l.toId), limit);
  }

  ghost predicate AllListed(db: Tables, filter: NodeFilter, nodes: seq<Node>, ids: seq<int>) {
    forall id :: id in ids && EnabledItem(db, filter, id) ==> id in NodeIds(nodes)
  }

  /** The nodes beyond the first `n` show enabled items of the list. */
  ghost predicate OnlyListed(db: Tables, filter: NodeFilter, n: int, nodes: seq<Node>, ids: seq<int>) {
    forall k :: 0 <= n <= k < |nodes| ==> nodes[k].id in ids && EnabledItem(db, filter, nodes[k].id)
  }

  lemma NothingListed(db: Tables, filter: NodeFilter, nodes: seq<Node>, ids: seq<int>)
    requires ids == []
    ensures AllListed(db, filter, nodes, ids) && OnlyListed(db, filter, |nodes|, nodes, ids)
  {
  }

  lemma EnabledIs(db: Tables, filter: NodeFilter, id: int)
    requires Active(db, id)
    ensures EnabledItem(db, filter, id) <==> NodeKindEnabled(filter, Loaded(db.items[id].kind, 32))
  {
  }

  lemma ListStep(db: Tables, filter: NodeFilter, n: int, nodes: seq<Node>, more: seq<Node>, ids: seq<int>, i: int)
    requires 0 <= i < |ids| && 0 <= n <= |nodes| && nodes <= more
    requires AllListed(db, filter, nodes, ids[..i]) && OnlyListed(db, filter, n, nodes, ids[..i])
    requires forall id :: id in NodeIds(nodes) ==> id in NodeIds(more)
    requires EnabledItem(db, filter, ids[i]) ==> ids[i] in NodeIds(more)
    requires forall k :: |nodes| <= k < |more| ==> more[k].id == ids[i] && EnabledItem(db, filter, ids[i])
    ensures AllListed(db, filter, more, ids[..i + 1]) && OnlyListed(db, filter, n, more, ids[..i + 1])
  {
  }

  /** Adds the listed items whose kind is enabled, in list order, until the buffer is full: `cut` is how far it got. */
  method LoadListedNodes(g: GraphView, db: Tables, ids: seq<int>) returns (r: LoadResult, ghost cut: int)
    requires g.Valid() && FromTable(db, g.Nodes())
    requires forall id :: id in ids ==> Active(db, id)
    modifies g`nodeCount, g.nodes
    ensures g.Valid() && FromTable(db, g.Nodes()) && old(g.Nodes()) <= g.Nodes()
    ensures r.Failed? ==> 0 in ids
    ensures 0 <= cut <= |ids|
    ensures r.Done? ==> AllListed(db, g.nodeFilter, g.Nodes(), ids[..cut])
    ensures OnlyListed(db, g.nodeFilter, old(g.nodeCount), g.Nodes(), ids[..cut])
    ensures r.Done? && g.nodeCount < NODE_LIMIT ==> cut == |ids|
  {
    hide DistinctIds, FromTable, Loaded, NodeKindEnabled, NodeIds, NodeOf, AllListed, OnlyListed, EnabledItem;
    cut := 0;
    NothingListed(db, g.nodeFilter, g.Nodes(), ids[..0]);
    for i := 0 to |ids|
      invariant cut == i
      invariant g.Valid() && FromTable(db, g.Nodes()) && old(g.Nodes()) <= g.Nodes()
      invariant AllListed(db, g.nodeFilter, g.Nodes(), ids[..i])
      invariant OnlyListed(db, g.nodeFilter, old(g.nodeCount), g.Nodes(), ids[..i])
    {
      if g.nodeCount >= NODE_LIMIT {
        return Done, i;
      }
      assert ids[i] in ids && Active(db, ids[i]);
      ghost var nodes := g.Nodes();
      EnabledIs(db, g.nodeFilter, ids[i]);
      if !NodeKindEnabled(g.nodeFilter, Loaded(db.items[ids[i]].kind, 32)) {
        ListStep(db, g.nodeFilter, old(g.nodeCount), nodes, nodes, ids, i);
        cut := i + 1;
        continue;
      }
      var outcome := EnsureGraphNode(g, db, ids[i]);
      if outcome == LimitReached {
        return Done, i;
      }
      if !outcome.Found? {
        assert g.Nodes() == nodes;
        return Failed(outcome), i;
      }
      cut := i + 1;
      IdsGrow(nodes, g.Nodes(), ids[i], outcome.index);
      LoadedKindOf(ids[i], db.items[ids[i]]);
      ListStep(db, g.nodeFilter, old(g.nodeCount), nodes, g.Nodes(), ids, i);
    }
    r := Done;
  }

  lemma LoadedKindOf(id: int, item: Item)
    ensures NodeOf(id, item).id == id
  {
  }

  lemma IdsGrow(nodes: seq<Node>, more: seq<Node>, id: int, index: int)
    requires nodes <= more && 0 <= index < |more| && more[index].id == id
    ensures forall x :: x in NodeIds(nodes) || x == id ==> x in NodeIds(more)
  {
  }

  /** Every enabled item within `hops` of the root is among `nodes`. */
  ghost predicate Reserved(db: Tables, filter: NodeFilter, rel: Relation, root: int, hops: nat, nodes: seq<Node>) {
    forall id :: EnabledItem(db, filter, id) && Within(rel, root, hops, id) ==> id in NodeIds(nodes)
  }

  /** `a` is at least as near to the root as `b`. */
  ghost predicate AsNear(rel: Relation, root: int, a: int, b: int) {
    forall k: nat :: Within(rel, root, k, b) ==> Within(rel, root, k, a)
  }

  /** The database's answer to the reservation query: the active items within `hops` of the root, nearest first. */
  ghost predicate AnswersPriority(ids: seq<int>, db: Tables, rel: Relation, root: int, hops: nat) {
    && (forall id :: id in ids <==> Active(db, id) && Within(rel, root, hops, id))
    && (forall i, j :: 0 <= i <= j < |ids| ==> AsNear(rel, root, ids[i], ids[j]))
  }

  /** Even when the buffer filled up, an enabled item was left out only for items at least as near. */
  ghost predicate NearestFirst(db: Tables, filter: NodeFilter, rel: Relation, root: int, hops: nat, nodes: seq<Node>) {
    forall id, k :: EnabledItem(db, filter, id) && Within(rel, root, hops, id) && id !in NodeIds(nodes) &&
           0 <= k < |nodes|
      ==> AsNear(rel, root, nodes[k].id, id)
  }

  /** Gives the root and the items around it the first places. */
  method LoadPriorityNodes(g: GraphView, db: Tables, root: int, reserveHops: int, ids: seq<int>, ghost rel: Relation)
      returns (r: LoadResult)
    requires g.Valid() && FromTable(db, g.Nodes()) && g.nodeCount == 0 && reserveHops > 0
    requires AnswersPriority(ids, db, rel, root, reserveHops)
    modifies g`nodeCount, g.nodes
    ensures g.Valid() && FromTable(db, g.Nodes())
    ensures root == 0 ==> r == Done && g.Nodes() == []
    ensures r.Done? && root != 0 ==> root in NodeIds(g.Nodes())
    ensures r.Done? && root != 0 ==> NearestFirst(db, g.nodeFilter, rel, root, reserveHops, g.Nodes())
    ensures r.Done? && root != 0 && g.nodeCount < NODE_LIMIT ==>
            Reserved(db, g.nodeFilter, rel, root, reserveHops, g.Nodes())
    ensures r.Failed? ==> 0 in db.items || !Active(db, root)
    ensures root != 0 && !Active(db, root) ==> r.Failed?
  {
    hide DistinctIds, FromTable, Within, Reserved, NearestFirst, Loaded, NodeKindEnabled, AnswersPriority, NodeOf,
         AllListed, OnlyListed;
    PriorityIdsActive(ids, db, rel, root, reserveHops);
    if root == 0 || reserveHops <= 0 {
      return Done;
    }
    if g.nodeCount < NODE_LIMIT {
      var outcome := EnsureGraphNode(g, db, root);
      if !outcome.Found? && outcome != LimitReached {
        return Failed(outcome);
      }
      assert g.nodes[outcome.index].id == root;
    }
    ghost var nodes := g.Nodes();
    assert root in NodeIds(nodes);
    ghost var cut;
    r, cut := LoadListedNodes(g, db, ids);
    ghost var k :| 0 <= k < |nodes| && nodes[k].id == root;
    IdsGrow(nodes, g.Nodes(), root, k);
    if r.Done? {
      ListedAreReserved(db, g.nodeFilter, rel, root, reserveHops, ids, cut, nodes, g.Nodes());
    }
  }

  lemma PriorityIdsActive(ids: seq<int>, db: Tables, rel: Relation, root: int, hops: nat)
    requires AnswersPriority(ids, db, rel, root, hops)
    ensures forall id :: id in ids ==> Active(db, id)
  {
  }

  lemma ListedAreReserved(db: Tables, filter: NodeFilter, rel: Relation, root: int, hops: nat, ids: seq<int>, cut: int,
                          before: seq<Node>, nodes: seq<Node>)
    requires AnswersPriority(ids, db, rel, root, hops) && 0 <= cut <= |ids|
    requires before <= nodes && forall k :: 0 <= k < |before| ==> before[k].id == root
    requires AllListed(db, filter, nodes, ids[..cut]) && OnlyListed(db, filter, |before|, nodes, ids[..cut])
    ensures NearestFirst(db, filter, rel, root, hops, nodes)
    ensures cut == |ids| ==> Reserved(db, filter, rel, root, hops, nodes)
  {
    hide Within, NodeIds;
    assert cut == |ids| ==> ids[..cut] == ids;
    forall id, k | EnabledItem(db, filter, id) && Within(rel, root, hops, id) && id !in NodeIds(nodes) &&
           0 <= k < |nodes|
      ensures AsNear(rel, root, nodes[k].id, id)
    {
      var j :| 0 <= j < |ids| && ids[j] == id;
      if k < |before| {
        RootIsNearest(rel, root, id);
      } else {
        if j < cut {
          PrefixMember(ids, cut, j);
          assert false;
        }
        var i :| 0 <= i < cut && ids[..cut][i] == nodes[k].id;
        assert AsNear(rel, root, ids[i], ids[j]);
      }
    }
  }

  lemma PrefixMember(ids: seq<int>, cut: int, j: int)
    requires 0 <= j < cut <= |ids|
    ensures ids[j] in ids[..cut]
  {
  }

  lemma RootIsNearest(rel: Relation, root: int, id: int)
    ensures AsNear(rel, root, root, id)
  {
    assert Walk(rel, root, 0, root);
  }

  ghost function ScopeFitting(f: EdgeFilter, nodes: seq<Node>, rows: seq<LinkRow>): seq<LinkRow> {
    Where(rows, (l: LinkRow) => KindOk(f, l) && EndsIn(nodes, l))
  }

  lemma ScopeFittingStep(f: EdgeFilter, nodes: seq<Node>, rows: seq<LinkRow>, i: int)
    requires 0 <= i < |rows|
    ensures ScopeFitting(f, nodes, rows[..i + 1]) ==
            ScopeFitting(f, nodes, rows[..i]) + if KindOk(f, rows[i]) && EndsIn(nodes, rows[i]) then [rows[i]] else []
  {
    hide KindOk, EndsIn;
    assert rows[..i + 1] == rows[..i] + [rows[i]];
    WhereAppend(rows[..i], rows[i], (l: LinkRow) => KindOk(f, l) && EndsIn(nodes, l));
  }

  /** Appends an edge for exactly the rows of an enabled kind whose ends are both already loaded. */
  method LoadScopeEdges(g: GraphView, db: Tables, rows: seq<LinkRow>, ghost s: Scope)
      returns (ghost origin: seq<LinkRow>)
    requires g.Valid() && g.edgeCount == 0 && |rows| <= EDGE_LIMIT && KeysDistinct(rows)
    requires forall l :: l in rows ==> l in db.links && LinkOpen(db, s, g.edgeFilter.text, l)
    modifies g`edgeCount, g.edges
    ensures g.Valid()
    ensures Backed(db, s, g.edgeFilter, true, g.Nodes(), g.Edges(), origin)
    ensures origin == ScopeFitting(g.edgeFilter, g.Nodes(), rows)
  {
    hide DistinctIds, Backed, EdgeBacked, LinkOpen, KeysDistinct, Loaded, EdgeKindEnabled, ScopeFitting, KindOk, EndsIn;
    origin := [];
    NothingBacked(db, s, g.edgeFilter, true, g.Nodes(), g.Edges());
    NothingFits(g.edgeFilter, g.Nodes(), rows[..0]);
    for i := 0 to |rows|
      invariant g.Valid() && g.edgeCount <= i
      invariant Backed(db, s, g.edgeFilter, true, g.Nodes(), g.Edges(), origin)
      invariant origin == ScopeFitting(g.edgeFilter, g.Nodes(), rows[..i])
      invariant forall l :: l in origin ==> l in rows[..i]
    {
      ScopeFittingStep(g.edgeFilter, g.Nodes(), rows, i);
      if g.edgeCount >= EDGE_LIMIT {
        assert false;
        break;
      }
      var row := rows[i];
      assert row in rows;
      assert forall l :: l in rows[..i] ==> l in rows[..i + 1];
      var fromIndex := g.FindNodeIndex(row.fromId);
      var toIndex := g.FindNodeIndex(row.toId);
      OpenEnds(db, s, g.edgeFilter, g.Nodes(), row, fromIndex, toIndex);
      if fromIndex < 0 || toIndex < 0 {
        continue;
      }
      var edgeKind := Loaded(row.kind, 32);
      if !EdgeKindEnabled(g.edgeFilter, edgeKind) {
        KindRejects(db, g.edgeFilter, g.nodeFilter, g.Nodes(), row);
        continue;
      }
      KindAccepts(g.edgeFilter, row);
      ghost var nodes, edges := g.Nodes(), g.Edges();
      var e := Edge(fromIndex, toIndex, edgeKind);
      ScopeEdgeBacked(db, s, g.edgeFilter, nodes, e, row);
      g.edges[g.edgeCount] := e;
      g.edgeCount := g.edgeCount + 1;
      assert g.Edges() == edges + [e] && g.Nodes() == nodes;
      BackedAppend(db, s, g.edgeFilter, true, nodes, edges, origin, rows, i, e);
      origin := origin + [row];
    }
    assert rows[..|rows|] == rows;
  }

  lemma NothingFits(f: EdgeFilter, nodes: seq<Node>, rows: seq<LinkRow>)
    requires rows == []
    ensures ScopeFitting(f, nodes, rows) == []
  {
  }

  lemma OpenEnds(db: Tables, s: Scope, f: EdgeFilter, nodes: seq<Node>, row: LinkRow, from: int, to: int)
    requires LinkOpen(db, s, f.text, row) && DistinctIds(nodes)
    requires from == -1 || (0 <= from < |nodes| && nodes[from].id == row.fromId)
    requires from == -1 ==> row.fromId == 0 || forall k :: 0 <= k < |nodes| ==> nodes[k].id != row.fromId
    requires to == -1 || (0 <= to < |nodes| && nodes[to].id == row.toId)
    requires to == -1 ==> row.toId == 0 || forall k :: 0 <= k < |nodes| ==> nodes[k].id != row.toId
    ensures EndsIn(nodes, row) <==> from >= 0 && to >= 0
  {
  }

  lemma ScopeEdgeBacked(db: Tables, s: Scope, f: EdgeFilter, nodes: seq<Node>, e: Edge, row: LinkRow)
    requires row in db.links && LinkOpen(db, s, f.text, row) && EdgeKindEnabled(f, Loaded(row.kind, 32))
    requires InRange(e, |nodes|) && nodes[e.from].id == row.fromId && nodes[e.to].id == row.toId
    requires e.kind == Loaded(row.kind, 32)
    ensures EdgeBacked(db, s, f, true, nodes, e, row)
  {
  }

  /** The centre after a full-scope load: kept while shown, else the selection, else the first node. */
  ghost function ShownCenter(nodes: seq<Node>, center: int, selected: int): int {
    if center != 0 && center in NodeIds(nodes) then center
    else if selected != 0 && selected in NodeIds(nodes) then CenterValue(selected)
    else if nodes != [] then CenterValue(nodes[0].id)
    else 0
  }

  method KeepCenterShown(g: GraphView)
    requires g.Valid()
    modifies g`centerItemId
    ensures g.centerItemId == ShownCenter(g.Nodes(), old(g.centerItemId), g.selectedItemId)
    ensures old(g.centerItemId) > 0 && old(g.centerItemId) in NodeIds(g.Nodes()) ==>
              g.centerItemId == old(g.centerItemId)
    ensures old(g.centerItemId) !in NodeIds(g.Nodes()) && g.selectedItemId > 0 &&
            g.selectedItemId in NodeIds(g.Nodes()) ==>
            g.centerItemId == g.selectedItemId
    ensures g.nodeCount == 0 ==> g.centerItemId == 0
    ensures old(g.centerItemId) !in NodeIds(g.Nodes()) && g.selectedItemId !in NodeIds(g.Nodes()) && g.nodeCount > 0 ==>
            g.centerItemId == if g.nodes[0].id > 0 then g.nodes[0].id else 0
  {
    var index := g.FindNodeIndex(g.centerItemId);
    if g.centerItemId != 0 && index >= 0 {
      return;
    }
    index := g.FindNodeIndex(g.selectedItemId);
    if g.selectedItemId != 0 && index >= 0 {
      g.centerItemId := CenterValue(g.selectedItemId);
    } else if g.nodeCount > 0 {
      g.centerItemId := CenterValue(g.nodes[0].id);
    } else {
      g.centerItemId := CenterValue(0);
    }
  }

  /** Nothing farther than two hops is reserved. */
  function ReserveHops(hops: int): (r: int)
    ensures r <= 2 && r <= hops && (r == 2 || r == hops)
  {
    if hops > 2 then 2 else hops
  }

  /** The scope pass in full: it adds enabled items in scope only, and all of them unless the buffer is full. */
  ghost predicate ScopeLoaded(db: Tables, s: Scope, filter: NodeFilter, reserved: seq<Node>, loaded: seq<Node>) {
    && reserved <= loaded
    && (forall k :: |reserved| <= k < |loaded| ==> Open(db, s, loaded[k].id) && EnabledItem(db, filter, loaded[k].id))
    && (|loaded| < NODE_LIMIT ==> forall id :: Open(db, s, id) && EnabledItem(db, filter, id) ==> id in NodeIds(loaded))
  }

  /** What the reservation promises: the root is there, the places went to the nearest items, and a later pass found
      room only if every enabled item near the root had already got in. */
  ghost predicate ReservationKept(db: Tables, filter: NodeFilter, rel: Relation, root: int, hops: nat,
                                  reserved: seq<Node>, loaded: seq<Node>)
  {
    root != 0 ==>
      && root in NodeIds(reserved)
      && NearestFirst(db, filter, rel, root, hops, reserved)
      && (|loaded| > |reserved| ==> Reserved(db, filter, rel, root, hops, reserved))
  }

  /** The two node passes. */
  method LoadFullScopeNodes(g: GraphView, db: Tables, root: int, hops: int, near: seq<int>, all: seq<int>,
                            ghost s: Scope, ghost rel: Relation)
      returns (r: LoadResult, ghost reserved: seq<Node>)
    requires g.Valid() && g.nodeCount == 0 && hops > 0
    requires AnswersPriority(near, db, rel, root, hops)
    requires forall id :: id in all <==> Open(db, s, id)
    modifies g`nodeCount, g.nodes
    ensures g.Valid() && FromTable(db, g.Nodes())
    ensures r.Failed? ==> 0 in db.items || (root != 0 && !Active(db, root))
    ensures root != 0 && !Active(db, root) ==> r.Failed?
    ensures r.Done? ==> ScopeLoaded(db, s, g.nodeFilter, reserved, g.Nodes())
    ensures r.Done? ==> ReservationKept(db, g.nodeFilter, rel, root, hops, reserved, g.Nodes())
  {
    hide DistinctIds, FromTable, NodeOf, EnabledItem, Reserved, NearestFirst, AnswersPriority, NodeIds, InScope;
    NoNodesFromTable(db, g.Nodes());
    reserved := [];
    r := LoadPriorityNodes(g, db, root, hops, near, rel);
    if r.Failed? {
      return;
    }
    reserved := g.Nodes();
    ghost var cut;
    r, cut := LoadListedNodes(g, db, all);
    if r.Failed? {
      return;
    }
    PrefixMembers(all, cut);
  }

  lemma PrefixMembers(ids: seq<int>, cut: int)
    requires 0 <= cut <= |ids|
    ensures forall id :: id in ids[..cut] ==> id in ids
    ensures cut == |ids| ==> ids[..cut] == ids
  {
  }

  /** Loads everything in scope and arranges it. `near`, `all` and `rows` are the database's answers; `reserved` and
      `loaded` are the node buffer after the reservation and after the scope pass. */
  method LoadFullScopeGraph(g: GraphView, db: Tables, near: seq<int>, all: seq<int>, rows: seq<LinkRow>)
      returns (r: LoadResult, ghost reserved: seq<Node>, ghost loaded: seq<Node>, ghost edges: seq<Edge>,
               ghost origin: seq<LinkRow>)
    requires g.Valid() && KeysIncrease(db.links)
    requires AnswersPriority(near, db, WalkPairs(db, ScopeOf(g.projectCount, g.projectKeys), g.edgeFilter.text),
                             PriorityRoot(g.centerItemId, g.selectedItemId), ReserveHops(ClampHops(g.queryHops)))
    requires forall id :: id in all <==> Open(db, ScopeOf(g.projectCount, g.projectKeys), id)
    requires rows == ScopeRows(db, ScopeOf(g.projectCount, g.projectKeys), g.edgeFilter.text, g.sortMode == OldestFirst,
                               QueryLimit(ClampEdgeLimit(g.queryEdgeLimit)))
    modifies g`queryEdgeLimit, g`queryHops, g`nodeCount, g`edgeCount, g`centerItemId, g.nodes, g.edges
    ensures g.Valid()
    ensures 0 !in db.items ==> (r.Failed? <==> FullScopeFails(db, old(g.centerItemId), g.selectedItemId))
    ensures r.Done? && old(g.centerItemId) != 0 ==>
            Active(db, old(g.centerItemId)) && old(g.centerItemId) in NodeIds(reserved)
    ensures r.Done? && old(g.centerItemId) == 0 && g.selectedItemId != 0 ==>
            Active(db, g.selectedItemId) && g.selectedItemId in NodeIds(reserved)
    ensures r.Done? && old(g.centerItemId) > 0 && old(g.centerItemId) in NodeIds(g.Nodes()) ==>
            g.centerItemId == old(g.centerItemId)
    ensures r.Done? ==> ScopeLoaded(db, ScopeOf(g.projectCount, g.projectKeys), g.nodeFilter, reserved, loaded)
    ensures r.Done? ==> ReservationKept(db, g.nodeFilter, WalkPairs(db, ScopeOf(g.projectCount, g.projectKeys),
                                                                    g.edgeFilter.text),
                                        PriorityRoot(old(g.centerItemId), g.selectedItemId),
                                        ReserveHops(ClampHops(old(g.queryHops))), reserved, loaded)
    ensures r.Done? ==> Backed(db, ScopeOf(g.projectCount, g.projectKeys), g.edgeFilter, true, loaded, edges, origin)
    ensures r.Done? ==> origin == ScopeFitting(g.edgeFilter, loaded, rows)
    ensures r.Done? ==> PassesRun(g.nodeFilter, g.selectedItemId, old(g.centerItemId), g.sortMode,
                                  ClampEdgeLimit(old(g.queryEdgeLimit)), loaded, edges, g.Nodes(), g.Edges())
    ensures r.Done? ==> SoundGraph(db, ScopeOf(g.projectCount, g.projectKeys), g.edgeFilter, g.nodeFilter, true,
                                   ClampEdgeLimit(old(g.queryEdgeLimit)), g.Nodes(), g.Edges())
    ensures r.Done? ==> g.centerItemId == ShownCenter(g.Nodes(), old(g.centerItemId), g.selectedItemId)
  {
    hide DistinctIds, FromTable, Backed, LinkOpen, KeysDistinct, SoundGraph, WalkPairs, SoundView, PassesRun, ScopeOf,
         ScopeFitting,
         ScopeLoaded, ReservationKept, AnswersPriority, ShownCenter, ScopeRows, Open;
    ghost var s := ScopeOf(g.projectCount, g.projectKeys);
    ghost var rel := WalkPairs(db, s, g.edgeFilter.text);
    loaded, edges, origin := [], [], [];
    var root := PriorityRoot(g.centerItemId, g.selectedItemId);
    var edgeLimit, queryLimit, hops := PrepareLoad(g);
    r, reserved := LoadFullScopeNodes(g, db, root, ReserveHops(hops), near, all, s, rel);
    if r.Failed? {
      return;
    }
    RootReserved(db, g.nodeFilter, rel, root, ReserveHops(hops), reserved, g.Nodes());
    loaded := g.Nodes();
    ScopeRowFacts(db, s, g.edgeFilter.text, g.sortMode == OldestFirst, queryLimit);
    origin := LoadScopeEdges(g, db, rows, s);
    edges := g.Edges();
    assert g.Nodes() == loaded;
    ArrangeGraph(g, edgeLimit);
    ArrangingKeepsSound(db, s, g.edgeFilter, g.nodeFilter, true, edgeLimit, loaded, edges, origin, g.Nodes(),
                        g.Edges());
    KeepCenterShown(g);
  }

  lemma RootReserved(db: Tables, filter: NodeFilter, rel: Relation, root: int, hops: nat, reserved: seq<Node>,
                     loaded: seq<Node>)
    requires ReservationKept(db, filter, rel, root, hops, reserved, loaded)
    ensures root != 0 ==> root in NodeIds(reserved)
  {
  }

  function PriorityRoot(center: int, selected: int): int {
    if center != 0 then center else selected
  }

  /** The root of a full-scope load is wanted but is no active item. */
  predicate FullScopeFails(db: Tables, center: int, selected: int) {
    var root := PriorityRoot(center, selected);
    root != 0 && !Active(db, root)
  }

  /** Full scope fails where focus mode has something to show exactly when the centre is no active item and the
      selection is one. */
  lemma OnlyFullScopeFailsIff(db: Tables, center: int, selected: int)
    ensures FullScopeFails(db, center, selected) && FocusRoot(db, center, selected) != 0 <==>
            center != 0 && !Active(db, center) && selected != 0 && Active(db, selected)
  {
  }

  /** With item 5 in the centre archived and item 6 selected, full scope fails and focus mode shows item 6. */
  lemma ArchivedCenterSplitsTheModes(archived: Item, shown: Item)
    requires archived.archived && !shown.archived
    ensures var db := Tables(map[5 := archived, 6 := shown], []);
            FullScopeFails(db, 5, 6) && FocusRoot(db, 5, 6) == 6
  {
  }

  lemma NoNodesFromTable(db: Tables, nodes: seq<Node>)
    requires nodes == []
    ensures FromTable(db, nodes)
  {
  }

  lemma ScopeRowFacts(db: Tables, s: Scope, text: string, oldestFirst: bool, limit: nat)
    requires KeysIncrease(db.links)
    ensures var rows := ScopeRows(db, s, text, oldestFirst, limit);
      && |rows| <= limit && KeysDistinct(rows)
      && (forall l :: l in rows ==> l in db.links && LinkOpen(db, s, text, l))
  {
    hide LinkOpen;
    ListedRows(db, oldestFirst, (l: LinkRow) => LinkOpen(db, s, text, l), limit);
  }
}
