/** The order the sort and the cut promise, told by items, links and creation times alone. */
module ViewOrder {
  import opened Limits
  import opened Walks
  import opened GraphState
  import opened KeyOrder
  import opened Rollup
  import opened NodeSort
  import opened EdgePriority
  import opened Compaction
  import opened GraphPipeline
  import opened KindFilters
  import opened CanonicalOrder

  // ----- nodes

  /** Item `id` has a link that says it summarizes item `x`. */
  ghost predicate Summarized(links: set<Link>, id: int, x: int) {
    x > 0 && Link(id, x, "summarizes") in links
  }

  /** The item a node is placed by: the newest one it summarizes, by id, or itself if it summarizes none. */
  ghost predicate IsAnchor(nodes: seq<Node>, links: set<Link>, id: int, a: Node) {
    && a in nodes
    && (if exists x :: Summarized(links, id, x)
        then Summarized(links, id, a.id) && forall x :: Summarized(links, id, x) ==> x <= a.id
        else a.id == id)
  }

  /** A node's time is that of its anchor, or its own if the anchor has none. */
  function TimeOf(a: Node, node: Node): int {
    if a.createdNs > 0 then a.createdNs else node.createdNs
  }

  /** The items distances are measured from: the selection if it is shown, else the centre if that is shown; and the
      centre if it is shown and is not the first one. Zero stands for none. */
  ghost predicate AreSeeds(nodes: seq<Node>, selected: int, center: int, first: int, second: int) {
    var selectedShown := selected != 0 && exists k :: 0 <= k < |nodes| && nodes[k].id == selected;
    var centerShown := center != 0 && exists k :: 0 <= k < |nodes| && nodes[k].id == center;
    && first == (if selectedShown then selected else if centerShown then center else 0)
    && second == (if centerShown && center != first then center else 0)
  }

  /** The node comes before the other: newer anchor first or older anchor first, then anchor id, then item id. */
  ghost predicate AnchoredBefore(mode: SortMode, x: Node, a: Node, y: Node, b: Node) {
    match mode
    case RecentFirst =>
      || TimeOf(a, x) > TimeOf(b, y)
      || (TimeOf(a, x) == TimeOf(b, y) && (a.id > b.id || (a.id == b.id && x.id > y.id)))
    case OldestFirst =>
      || TimeOf(a, x) < TimeOf(b, y)
      || (TimeOf(a, x) == TimeOf(b, y) && (a.id < b.id || (a.id == b.id && x.id < y.id)))
  }

  lemma SeedsAre(nodes: seq<Node>, selected: int, center: int, first: int, second: int)
    requires AreSeeds(nodes, selected, center, first, second)
    ensures first == PrimarySeed(NodeIds(nodes), selected, center)
    ensures second == SecondarySeed(NodeIds(nodes), selected, center)
  {
  }

  /** What annotation leaves in a node, in terms of its anchor. */
  lemma AnchorIs(nodes: seq<Node>, edges: seq<Edge>, annotated: seq<Node>, i: int, a: Node)
    requires DistinctIds(nodes) && Annotated(nodes, edges, annotated) && 0 <= i < |nodes|
    requires IsAnchor(nodes, Links(nodes, edges), nodes[i].id, a)
    ensures annotated[i].anchorId == a.id && annotated[i].anchorCreatedNs == a.createdNs
    ensures annotated[i].id == nodes[i].id && annotated[i].createdNs == nodes[i].createdNs
  {
    var links, id := Links(nodes, edges), nodes[i].id;
    var sources := Sources(links, id);
    hide Links;
    SourcesAre(links, id);
    assert AnchoredAt(BareNodes(nodes), sources, Bare(nodes[i]), annotated[i]);
    if sources != {} {
      assert a.id in sources;
      assert a.id == annotated[i].anchorId;
      var source :| source in BareNodes(nodes) && source.id == annotated[i].anchorId
                    && source.createdNs == annotated[i].anchorCreatedNs;
      SameIdSameTime(nodes, a, source);
    } else {
      assert forall x :: !Summarized(links, id, x);
      SameIdSameTime(nodes, a, Bare(nodes[i]));
    }
  }

  lemma SourcesAre(links: set<Link>, id: int)
    ensures forall x :: x in Sources(links, id) <==> Summarized(links, id, x)
  {
    forall x | x in Sources(links, id)
      ensures Summarized(links, id, x)
    {
      var l :| l in links && l.kind == "summarizes" && l.fromId == id && l.toId > 0 && l.toId == x;
      assert l == Link(id, x, "summarizes");
    }
    forall x | Summarized(links, id, x)
      ensures x in Sources(links, id)
    {
      var l := Link(id, x, "summarizes");
      assert l in links && l.kind == SUMMARIZES;
    }
  }

  lemma SameIdSameTime(nodes: seq<Node>, a: Node, bare: Node)
    requires DistinctIds(nodes) && a in nodes && bare in BareNodes(nodes) && a.id == bare.id
    ensures a.createdNs == bare.createdNs
  {
  }

  /** The order of the node buffer after annotation and sort: nearer to the first seed, then nearer to the second,
      then by the anchors. */
  lemma NodesInOrder(nodes: seq<Node>, edges: seq<Edge>, selected: int, center: int, mode: SortMode,
                     nodes': seq<Node>, edges': seq<Edge>, first: int, second: int, i: int, j: int,
                     a: Node, b: Node, near: (int, int), far: (int, int))
    requires DistinctIds(nodes) && Arranged(nodes, edges, selected, center, mode, nodes', edges')
    requires AreSeeds(nodes, selected, center, first, second) && 0 <= i < j < |nodes'|
    requires var rel := LinkPairs(Links(nodes, edges));
      && ExactDistance(rel, first, nodes'[i].id, near.0) && ExactDistance(rel, second, nodes'[i].id, near.1)
      && ExactDistance(rel, first, nodes'[j].id, far.0) && ExactDistance(rel, second, nodes'[j].id, far.1)
    requires IsAnchor(nodes, Links(nodes, edges), nodes'[i].id, a)
    requires IsAnchor(nodes, Links(nodes, edges), nodes'[j].id, b)
    ensures near.0 <= far.0 && (near.0 == far.0 ==> near.1 <= far.1)
    ensures near == far ==> AnchoredBefore(mode, nodes'[i], a, nodes'[j], b)
  {
    hide Annotated, Links, ExactDistance, IsAnchor, DistinctIds, AreSeeds, Distance;
    var annotated :| Annotated(nodes, edges, annotated) && DistinctIds(annotated)
      && NodesSorted(SettingOf(annotated, edges, selected, center, mode), annotated, edges, nodes', edges');
    AnnotationKeepsLinks(nodes, edges, annotated);
    SeedsAre(nodes, selected, center, first, second);
    SortedOnce(SettingOf(annotated, edges, selected, center, mode), annotated, edges, nodes', edges');
    var x, y := nodes'[i], nodes'[j];
    assert x in Elements(annotated) && y in Elements(annotated);
    AnchoredNode(nodes, edges, annotated, x, a);
    AnchoredNode(nodes, edges, annotated, y, b);
    var rel := LinkPairs(Links(nodes, edges));
    DistanceIs(rel, first, x.id, near.0);
    DistanceIs(rel, second, x.id, near.1);
    DistanceIs(rel, first, y.id, far.0);
    DistanceIs(rel, second, y.id, far.1);
    AnchorFields(nodes, Links(nodes, edges), x, a);
    AnchorFields(nodes, Links(nodes, edges), y, b);
    assert KeyLess(NodeKey(SettingOf(annotated, edges, selected, center, mode), x),
                   NodeKey(SettingOf(annotated, edges, selected, center, mode), y));
  }

  lemma AnchoredNode(nodes: seq<Node>, edges: seq<Edge>, annotated: seq<Node>, x: Node, a: Node)
    requires DistinctIds(nodes) && Annotated(nodes, edges, annotated) && x in annotated
    requires IsAnchor(nodes, Links(nodes, edges), x.id, a)
    ensures x.anchorId == a.id && x.anchorCreatedNs == a.createdNs
  {
    hide IsAnchor, Links, DistinctIds;
    var i :| 0 <= i < |annotated| && annotated[i] == x;
    AnnotationKeepsLinks(nodes, edges, annotated);
    AnchorIs(nodes, edges, annotated, i, a);
  }

  /** An anchor id is positive unless it is the node's own. */
  lemma AnchorFields(nodes: seq<Node>, links: set<Link>, x: Node, a: Node)
    requires IsAnchor(nodes, links, x.id, a)
    ensures a.id > 0 || a.id == x.id
  {
  }

  /** The view the four passes end with is arranged after the disabled items are gone, so these orders hold in it. */
  lemma ViewIsArranged(filter: NodeFilter, selected: int, center: int, mode: SortMode, limit: int,
                       nodes: seq<Node>, edges: seq<Edge>, nodes': seq<Node>, edges': seq<Edge>)
      returns (kept: seq<Node>, keptEdges: seq<Edge>, sorted: seq<Edge>)
    requires PassesRun(filter, selected, center, mode, limit, nodes, edges, nodes', edges')
    ensures Compacted(filter, nodes, edges, kept, keptEdges) && DistinctIds(kept)
    ensures Arranged(kept, keptEdges, selected, center, mode, nodes', sorted)
    ensures EdgesPrioritized(nodes', sorted, selected, center, limit, edges')
  {
    hide Compacted, Annotated, NodesSorted, EdgesPrioritized, DistinctIds;
    var n1, e1, n2, e3 :|
      && Compacted(filter, nodes, edges, n1, e1) && Annotated(n1, e1, n2) && DistinctIds(n1) && DistinctIds(n2)
      && NodesSorted(SettingOf(n2, e1, selected, center, mode), n2, e1, nodes', e3)
      && EdgesPrioritized(nodes', e3, selected, center, limit, edges');
    kept, keptEdges, sorted := n1, e1, e3;
  }

  /** Every anchor in the view is a node of the view, with that node's time. */
  lemma AnchorsAreShown(nodes: seq<Node>, edges: seq<Edge>, selected: int, center: int, mode: SortMode,
                        nodes': seq<Node>, edges': seq<Edge>, i: int)
    requires DistinctIds(nodes) && Arranged(nodes, edges, selected, center, mode, nodes', edges')
    requires 0 <= i < |nodes'|
    ensures exists j :: 0 <= j < |nodes'| && nodes'[j].id == nodes'[i].anchorId
                        && nodes'[j].createdNs == nodes'[i].anchorCreatedNs
    ensures nodes'[i].isRollup <==> exists x :: Summarized(Links(nodes, edges), nodes'[i].id, x)
  {
    hide Links, DistinctIds;
    var annotated :| Annotated(nodes, edges, annotated) && DistinctIds(annotated)
      && NodesSorted(SettingOf(annotated, edges, selected, center, mode), annotated, edges, nodes', edges');
    SortedOnce(SettingOf(annotated, edges, selected, center, mode), annotated, edges, nodes', edges');
    AnnotationKeepsLinks(nodes, edges, annotated);
    assert nodes'[i] in Elements(annotated);
    var k :| 0 <= k < |annotated| && annotated[k] == nodes'[i];
    var m := AnchorAmong(nodes, edges, annotated, k);
    assert annotated[m] in Elements(nodes');
  }

  lemma AnchorAmong(nodes: seq<Node>, edges: seq<Edge>, annotated: seq<Node>, k: int) returns (m: int)
    requires Annotated(nodes, edges, annotated) && 0 <= k < |annotated|
    ensures 0 <= m < |annotated| && annotated[m].id == annotated[k].anchorId
    ensures annotated[m].createdNs == annotated[k].anchorCreatedNs
    ensures annotated[k].isRollup <==> exists x :: Summarized(Links(nodes, edges), annotated[k].id, x)
  {
    var links := Links(nodes, edges);
    hide Links;
    AnnotationKeepsLinks(nodes, edges, annotated);
    SourcesAre(links, nodes[k].id);
    assert AnchoredAt(BareNodes(nodes), Sources(links, nodes[k].id), Bare(nodes[k]), annotated[k]);
    if Sources(links, nodes[k].id) == {} {
      m := k;
    } else {
      var source :| source in BareNodes(nodes) && source.id == annotated[k].anchorId
                    && source.createdNs == annotated[k].anchorCreatedNs;
      m :| 0 <= m < |nodes| && Bare(nodes[m]) == source;
      assert SameItem(nodes[m], annotated[m]);
    }
  }

  // ----- edges

  /** How far the two ends of an edge are from the two seeds. */
  datatype Depths = Depths(fromFirst: int, toFirst: int, fromSecond: int, toSecond: int)

  ghost predicate DepthsOf(nodes: seq<Node>, edges: seq<Edge>, first: int, second: int, e: Edge, d: Depths)
    requires InRange(e, |nodes|)
  {
    var rel := LinkPairs(Links(nodes, edges));
    && ExactDistance(rel, first, nodes[e.from].id, d.fromFirst) && ExactDistance(rel, first, nodes[e.to].id, d.toFirst)
    && ExactDistance(rel, second, nodes[e.from].id, d.fromSecond)
    && ExactDistance(rel, second, nodes[e.to].id, d.toSecond)
  }

  function Lesser(a: int, b: int): (r: int)
    ensures r <= a && r <= b && (r == a || r == b)
  {
    if a <= b then a else b
  }

  function Greater(a: int, b: int): (r: int)
    ensures r >= a && r >= b && (r == a || r == b)
  {
    if a <= b then b else a
  }

  /** The criteria in order: nearer end to the first seed, nearer end to the second, farther end to the first, then the
      positions of the ends and of the edge itself. */
  ghost predicate ComesFirst(e: Edge, d: Depths, i: int, f: Edge, c: Depths, j: int) {
    Earlier([Lesser(d.fromFirst, d.toFirst), Lesser(d.fromSecond, d.toSecond), Greater(d.fromFirst, d.toFirst),
             Lesser(e.from, e.to), Greater(e.from, e.to), i],
            [Lesser(c.fromFirst, c.toFirst), Lesser(c.fromSecond, c.toSecond), Greater(c.fromFirst, c.toFirst),
             Lesser(f.from, f.to), Greater(f.from, f.to), j])
  }

  /** The first criterion that differs decides. */
  ghost predicate Earlier(a: seq<int>, b: seq<int>)
    requires |a| == |b|
  {
    exists k :: 0 <= k < |a| && a[k] < b[k] && forall m :: 0 <= m < k ==> a[m] == b[m]
  }

  lemma {:induction false} EarlierSteps(a: seq<int>, b: seq<int>)
    requires |a| == |b|
    ensures Earlier(a, b) <==> a != [] && (a[0] < b[0] || (a[0] == b[0] && Earlier(a[1..], b[1..])))
  {
    if a != [] && a[0] == b[0] {
      if k :| 0 <= k < |a| && a[k] < b[k] && forall m :: 0 <= m < k ==> a[m] == b[m] {
        assert a[1..][k - 1] == a[k] && b[1..][k - 1] == b[k];
        assert forall m :: 0 <= m < k - 1 ==> a[1..][m] == a[m + 1] && b[1..][m] == b[m + 1];
        assert Earlier(a[1..], b[1..]);
      }
      if k :| 0 <= k < |a| - 1 && a[1..][k] < b[1..][k] && forall m :: 0 <= m < k ==> a[1..][m] == b[1..][m] {
        assert a[k + 1] == a[1..][k] && b[k + 1] == b[1..][k];
        assert forall m :: 0 < m < k + 1 ==> a[m] == a[1..][m - 1] && b[m] == b[1..][m - 1];
        assert Earlier(a, b);
      }
    }
  }

  lemma KeyLessIsEarlier(x: Key, y: Key)
    ensures KeyLess(x, y) <==> Earlier([x.k0, x.k1, x.k2, x.k3, x.k4, x.k5], [y.k0, y.k1, y.k2, y.k3, y.k4, y.k5])
  {
    hide Earlier;
    var a, b := [x.k0, x.k1, x.k2, x.k3, x.k4, x.k5], [y.k0, y.k1, y.k2, y.k3, y.k4, y.k5];
    EarlierFrom(a, b, 0);
    EarlierFrom(a, b, 1);
    EarlierFrom(a, b, 2);
    EarlierFrom(a, b, 3);
    EarlierFrom(a, b, 4);
    EarlierFrom(a, b, 5);
    EarlierSteps(a[6..], b[6..]);
  }

  lemma EarlierFrom(a: seq<int>, b: seq<int>, k: nat)
    requires |a| == |b| && k < |a|
    ensures Earlier(a[k..], b[k..]) <==> a[k] < b[k] || (a[k] == b[k] && Earlier(a[k + 1..], b[k + 1..]))
    ensures a[0..] == a && b[0..] == b
  {
    hide Earlier;
    EarlierSteps(a[k..], b[k..]);
    assert a[k..][1..] == a[k + 1..] && b[k..][1..] == b[k + 1..];
  }

  /** An edge outranks another exactly if it comes first by these criteria. */
  lemma OutranksIffFirst(nodes: seq<Node>, edges: seq<Edge>, selected: int, center: int, first: int, second: int,
                         i: int, j: int, d: Depths, c: Depths)
    requires DistinctIds(nodes) && EdgesInRange(edges, |nodes|) && 0 <= i < |edges| && 0 <= j < |edges|
    requires AreSeeds(nodes, selected, center, first, second)
    requires InRange(edges[i], |nodes|) && InRange(edges[j], |nodes|)
    requires DepthsOf(nodes, edges, first, second, edges[i], d) && DepthsOf(nodes, edges, first, second, edges[j], c)
    ensures Outranks(nodes, edges, selected, center, i, j) <==> ComesFirst(edges[i], d, i, edges[j], c, j)
  {
    hide Earlier, DepthsOf, AreSeeds, Distance, IndexPairs, KeyLess;
    KeyOfDepths(nodes, edges, selected, center, first, second, i, d);
    KeyOfDepths(nodes, edges, selected, center, first, second, j, c);
    KeyLessIsEarlier(PriorityKey(nodes, edges, selected, center, i), PriorityKey(nodes, edges, selected, center, j));
  }

  lemma KeyOfDepths(nodes: seq<Node>, edges: seq<Edge>, selected: int, center: int, first: int, second: int, i: int,
                    d: Depths)
    requires DistinctIds(nodes) && 0 <= i < |edges| && InRange(edges[i], |nodes|)
    requires AreSeeds(nodes, selected, center, first, second)
    requires DepthsOf(nodes, edges, first, second, edges[i], d)
    ensures PriorityKey(nodes, edges, selected, center, i) ==
            Key(Lesser(d.fromFirst, d.toFirst), Lesser(d.fromSecond, d.toSecond), Greater(d.fromFirst, d.toFirst),
                Lesser(edges[i].from, edges[i].to), Greater(edges[i].from, edges[i].to), i)
  {
    var e, rel := edges[i], IndexPairs(edges, |nodes|);
    var p := SelectedIndex(nodes, selected, center);
    var q := SecondaryIndex(p, IndexOf(nodes, center));
    SeedPositions(nodes, selected, center, first, second);
    hide SelectedIndex, SecondaryIndex, IndexOf, AreSeeds, IndexPairs, DistinctIds, Links;
    PositionDistance(nodes, edges, p, first, e.from, d.fromFirst);
    PositionDistance(nodes, edges, p, first, e.to, d.toFirst);
    PositionDistance(nodes, edges, q, second, e.from, d.fromSecond);
    PositionDistance(nodes, edges, q, second, e.to, d.toSecond);
  }

  /** The seeds by position: where the seed items are shown, or -1. */
  lemma SeedPositions(nodes: seq<Node>, selected: int, center: int, first: int, second: int)
    requires DistinctIds(nodes) && AreSeeds(nodes, selected, center, first, second)
    ensures var p := SelectedIndex(nodes, selected, center);
            var q := SecondaryIndex(p, IndexOf(nodes, center));
      && SeedAt(nodes, p, first) && SeedAt(nodes, q, second)
  {
  }

  ghost predicate SeedAt(nodes: seq<Node>, p: int, id: int) {
    (p == -1 && id == 0) || (0 <= p < |nodes| && nodes[p].id == id)
  }

  /** Distances between items are those between their positions. */
  lemma PositionDistance(nodes: seq<Node>, edges: seq<Edge>, p: int, id: int, v: int, d: int)
    requires DistinctIds(nodes) && SeedAt(nodes, p, id) && 0 <= v < |nodes|
    requires ExactDistance(LinkPairs(Links(nodes, edges)), id, nodes[v].id, d)
    ensures Distance(IndexPairs(edges, |nodes|), p, v) == d
  {
    hide ExactDistance;
    var rel, renamed := LinkPairs(Links(nodes, edges)), IndexPairs(edges, |nodes|);
    if p < 0 {
      NoSeed(nodes, edges, v);
      ExactDistanceUnique(rel, 0, nodes[v].id, d, UNREACHABLE);
    } else {
      PairsToItems(nodes, edges);
      PairsToPositions(nodes, edges);
      forall u | u in PositionOf(nodes)
        ensures PositionOf(nodes)[u] in NameOf(nodes) && NameOf(nodes)[PositionOf(nodes)[u]] == u
      {
        assert u in NodeIds(nodes);
      }
      PositionInverts(nodes, p);
      PositionInverts(nodes, v);
      ExactDistanceRename(rel, id, nodes[v].id, d, renamed, PositionOf(nodes), NameOf(nodes));
    }
    DistanceIs(renamed, p, v, d);
  }

  lemma NoSeed(nodes: seq<Node>, edges: seq<Edge>, v: int)
    requires DistinctIds(nodes) && 0 <= v < |nodes|
    ensures ExactDistance(LinkPairs(Links(nodes, edges)), 0, nodes[v].id, UNREACHABLE)
    ensures ExactDistance(IndexPairs(edges, |nodes|), -1, v, UNREACHABLE)
  {
    hide ExactDistance;
    UntouchedSource(IndexPairs(edges, |nodes|), -1, v);
    UntouchedSource(LinkPairs(Links(nodes, edges)), 0, nodes[v].id);
  }
}
