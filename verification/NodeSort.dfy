/** Reorders the node buffer by distance, anchor age and id, and rewrites the edge endpoints to match. */
module NodeSort {
  import opened Limits
  import opened Walks
  import opened GraphState
  import opened KeyOrder
  import opened Distances

  function AnchorCreated(node: Node): int {
    if node.anchorCreatedNs > 0 then node.anchorCreatedNs else node.createdNs
  }

  function AnchorItem(node: Node): int {
    if node.anchorId > 0 then node.anchorId else node.id
  }

  /** Whether the insertion sort moves `left` behind `right`. */
  predicate ShouldSwap(mode: SortMode, left: Node, right: Node,
                       leftPrimary: int, rightPrimary: int, leftSecondary: int, rightSecondary: int)
  {
    if leftPrimary > rightPrimary then true
    else if leftPrimary < rightPrimary then false
    else if leftSecondary > rightSecondary then true
    else if leftSecondary < rightSecondary then false
    else if mode == OldestFirst then
      if AnchorCreated(left) > AnchorCreated(right) then true
      else if AnchorCreated(left) < AnchorCreated(right) then false
      else if AnchorItem(left) > AnchorItem(right) then true
      else if AnchorItem(left) < AnchorItem(right) then false
      else left.id > right.id
    else
      if AnchorCreated(left) < AnchorCreated(right) then true
      else if AnchorCreated(left) > AnchorCreated(right) then false
      else if AnchorItem(left) < AnchorItem(right) then true
      else if AnchorItem(left) > AnchorItem(right) then false
      else left.id < right.id
  }

  function RankKey(mode: SortMode, node: Node, primary: int, secondary: int): Key {
    if mode == OldestFirst
    then Key(primary, secondary, AnchorCreated(node), AnchorItem(node), node.id, 0)
    else Key(primary, secondary, -AnchorCreated(node), -AnchorItem(node), -node.id, 0)
  }

  lemma ShouldSwapIsKeyOrder(mode: SortMode, left: Node, right: Node, lp: int, rp: int, ls: int, rs: int)
    ensures ShouldSwap(mode, left, right, lp, rp, ls, rs) <==>
            KeyLess(RankKey(mode, right, rp, rs), RankKey(mode, left, lp, ls))
  {
  }

  /** Item id the primary distances are measured from: the selection if it is shown, else the centre if it is
      shown, else 0, which is no item. */
  ghost function PrimarySeed(ids: set<int>, selected: int, center: int): int {
    if selected != 0 && selected in ids then selected else if center != 0 && center in ids then center else 0
  }

  /** The centre, unless it is not shown or already the primary seed. */
  ghost function SecondarySeed(ids: set<int>, selected: int, center: int): int {
    if center != 0 && center in ids && center != PrimarySeed(ids, selected, center) then center else 0
  }

  ghost function Distance(rel: Relation, source: int, v: int): int {
    if exists d :: ExactDistance(rel, source, v, d)
    then var d :| ExactDistance(rel, source, v, d); d
    else UNREACHABLE
  }

  lemma DistanceIs(rel: Relation, source: int, v: int, d: int)
    requires ExactDistance(rel, source, v, d)
    ensures Distance(rel, source, v) == d
  {
  }

  /** What the pass may look at besides the node itself. Nothing here depends on positions or edge order. */
  datatype Setting = Setting(ids: set<int>, links: set<Link>, selected: int, center: int, mode: SortMode)

  ghost function SettingOf(nodes: seq<Node>, edges: seq<Edge>, selected: int, center: int, mode: SortMode): Setting {
    Setting(NodeIds(nodes), Links(nodes, edges), selected, center, mode)
  }

  ghost function NodeKey(s: Setting, node: Node): Key {
    var rel := LinkPairs(s.links);
    RankKey(s.mode, node,
            Distance(rel, PrimarySeed(s.ids, s.selected, s.center), node.id),
            Distance(rel, SecondarySeed(s.ids, s.selected, s.center), node.id))
  }

  /** `order` says which old node each position now holds; every edge follows its endpoints. */
  ghost predicate RenumberedBy(order: seq<int>, nodes: seq<Node>, edges: seq<Edge>, nodes': seq<Node>,
                               edges': seq<Edge>) {
    && IsPermutation(order, |nodes|)
    && |nodes'| == |nodes| && |edges'| == |edges|
    && (forall i :: 0 <= i < |nodes| ==> nodes'[i] == nodes[order[i]])
    && (forall e :: 0 <= e < |edges| ==>
          && edges'[e].kind == edges[e].kind
          && Moved(order, edges[e].from, edges'[e].from)
          && Moved(order, edges[e].to, edges'[e].to))
  }

  ghost predicate Moved(order: seq<int>, before: int, after: int) {
    if 0 <= before < |order| then 0 <= after < |order| && order[after] == before else after == before
  }

  /** What one node sort does to the buffers. */
  ghost predicate NodesSorted(s: Setting, nodes: seq<Node>, edges: seq<Edge>, nodes': seq<Node>, edges': seq<Edge>) {
    && (exists order :: RenumberedBy(order, nodes, edges, nodes', edges'))
    && StrictlySorted(nodes', (node: Node) => NodeKey(s, node))
  }

  /** Renumbering keeps every edge's item ids and kind, and neither loses nor repeats a node. */
  lemma RenumberingIsIsomorphism(order: seq<int>, nodes: seq<Node>, edges: seq<Edge>, nodes': seq<Node>,
                                 edges': seq<Edge>)
    requires RenumberedBy(order, nodes, edges, nodes', edges')
    requires DistinctIds(nodes)
    ensures DistinctIds(nodes') && Elements(nodes') == Elements(nodes) && NodeIds(nodes') == NodeIds(nodes)
    ensures forall e :: 0 <= e < |edges| ==> (InRange(edges'[e], |nodes'|) <==> InRange(edges[e], |nodes|))
    ensures forall e :: 0 <= e < |edges| && InRange(edges[e], |nodes|) ==>
            LinkOf(nodes', edges'[e]) == LinkOf(nodes, edges[e])
    ensures Links(nodes', edges') == Links(nodes, edges)
  {
    forall v | 0 <= v < |nodes|
      ensures nodes[v] in nodes'
    {
      assert v in order;
      var k :| 0 <= k < |order| && order[k] == v;
      assert nodes'[k] == nodes[v];
    }
    assert Elements(nodes') == Elements(nodes);
    assert NodeIds(nodes') == (set x | x in Elements(nodes') :: x.id);
    assert NodeIds(nodes) == (set x | x in Elements(nodes) :: x.id);
    SameLinks(nodes, edges, nodes', edges');
  }

  lemma SameLinks(nodes: seq<Node>, edges: seq<Edge>, nodes': seq<Node>, edges': seq<Edge>)
    requires |edges| == |edges'|
    requires forall e :: 0 <= e < |edges| ==> (InRange(edges'[e], |nodes'|) <==> InRange(edges[e], |nodes|))
    requires forall e :: 0 <= e < |edges| && InRange(edges[e], |nodes|) ==>
             LinkOf(nodes', edges'[e]) == LinkOf(nodes, edges[e])
    ensures Links(nodes', edges') == Links(nodes, edges)
  {
  }

  /** The insertion sort over `order`, comparing nodes in place. */
  method SortOrder(g: GraphView, primary: array<int>, secondary: array<int>, order: array<int>, ghost keys: seq<Key>)
    requires order != primary && order != secondary
    requires order.Length == primary.Length == secondary.Length == |keys| <= g.nodes.Length
    requires IsPermutation(order[..], |keys|) && DistinctKeys(keys)
    requires forall i :: 0 <= i < |keys| ==> keys[i] == RankKey(g.sortMode, g.nodes[i], primary[i], secondary[i])
    requires |keys| > 0
    modifies order
    ensures IsPermutation(order[..], |keys|) && OrderedTo(keys, order[..], |keys|)
  {
    hide IsPermutation, OrderedTo, DistinctKeys, RankKey;
    OneIsOrdered(keys, order[..]);
    for i := 1 to order.Length
      invariant IsPermutation(order[..], |keys|) && OrderedTo(keys, order[..], i)
    {
      InsertNext(g, primary, secondary, order, i, keys);
    }
  }

  /** One round of the sort: the node at `i` moves down to its place. */
  method InsertNext(g: GraphView, primary: array<int>, secondary: array<int>, order: array<int>, i: int,
                    ghost keys: seq<Key>)
    requires order != primary && order != secondary
    requires order.Length == primary.Length == secondary.Length == |keys| <= g.nodes.Length
    requires IsPermutation(order[..], |keys|) && DistinctKeys(keys)
    requires forall i :: 0 <= i < |keys| ==> keys[i] == RankKey(g.sortMode, g.nodes[i], primary[i], secondary[i])
    requires 0 < i < order.Length && OrderedTo(keys, order[..], i)
    modifies order
    ensures IsPermutation(order[..], |keys|) && OrderedTo(keys, order[..], i + 1)
  {
    hide IsPermutation, OrderedTo, DistinctKeys, KeyLess, ShouldSwap, RankKey, Shifting;
    ghost var was := order[..];
    PermutationInRange(was, |keys|);
    var key := order[i];
    var j := i - 1;
    ShiftingStarts(keys, was, i);
    while j >= 0
      invariant -1 <= j < i && Shifting(keys, was, order[..], i, j)
    {
      ghost var now := order[..];
      ShiftOne(keys, was, now, i, j);
      ShouldSwapIsKeyOrder(g.sortMode, g.nodes[order[j]], g.nodes[key], primary[order[j]], primary[key],
                           secondary[order[j]], secondary[key]);
      if !ShouldSwap(g.sortMode, g.nodes[order[j]], g.nodes[key], primary[order[j]], primary[key],
                     secondary[order[j]], secondary[key]) {
        break;
      }
      order[j + 1] := order[j];
      assert order[..] == now[j + 1 := now[j]];
      j := j - 1;
    }
    ghost var now := order[..];
    ShiftingEnds(keys, was, now, i, j);
    order[j + 1] := key;
    assert order[..] == now[j + 1 := key];
  }

  lemma PermutationInRange(order: seq<int>, n: int)
    requires IsPermutation(order, n)
    ensures |order| == n && forall i :: 0 <= i < n ==> 0 <= order[i] < n
  {
  }

  lemma OneIsOrdered(keys: seq<Key>, order: seq<int>)
    requires IsPermutation(order, |keys|) && |keys| > 0
    ensures OrderedTo(keys, order, 1)
  {
  }

  /** Moves the nodes to their places; `oldToNew` is where each went. */
  method MoveNodes(g: GraphView, order: array<int>) returns (oldToNew: array<int>)
    requires 0 < g.nodeCount <= g.nodes.Length
    requires order.Length == g.nodeCount && IsPermutation(order[..], g.nodeCount)
    modifies g.nodes
    ensures forall k :: 0 <= k < g.nodeCount ==> 0 <= order[k] < g.nodeCount && g.nodes[k] == old(g.Nodes())[order[k]]
    ensures fresh(oldToNew) && oldToNew.Length == g.nodeCount
    ensures forall k :: 0 <= k < g.nodeCount ==> 0 <= oldToNew[k] < g.nodeCount && order[oldToNew[k]] == k
  {
    hide IsPermutation;
    var n := g.nodeCount;
    ghost var perm, nodes := order[..], g.Nodes();
    PermutationInRange(perm, n);
    var first := g.nodes[0];
    var sorted := new Node[n](_ => first);
    oldToNew := new int[n];
    for i := 0 to n
      invariant forall k :: 0 <= k < i ==> sorted[k] == nodes[perm[k]]
      invariant forall k :: 0 <= k < i ==> oldToNew[perm[k]] == k
      modifies sorted, oldToNew
    {
      assert order[i] == perm[i];
      PermutationInjective(perm, n, i);
      sorted[i] := g.nodes[order[i]];
      oldToNew[order[i]] := i;
    }
    InverseIsTotal(perm, n, oldToNew[..]);
    for i := 0 to n
      invariant forall k :: 0 <= k < i ==> g.nodes[k] == sorted[k]
      modifies g.nodes
    {
      g.nodes[i] := sorted[i];
    }
  }

  /** Sends every endpoint that lies in the node buffer to its new position. */
  method RewriteEdges(g: GraphView, oldToNew: array<int>, ghost order: seq<int>)
    requires 0 <= g.edgeCount <= g.edges.Length
    requires oldToNew.Length == |order|
    requires forall k :: 0 <= k < |order| ==> 0 <= oldToNew[k] < |order| && order[oldToNew[k]] == k
    modifies g.edges
    ensures forall e :: 0 <= e < g.edgeCount ==>
      && g.edges[e].kind == old(g.edges[e].kind)
      && Moved(order, old(g.edges[e].from), g.edges[e].from)
      && Moved(order, old(g.edges[e].to), g.edges[e].to)
  {
    for i := 0 to g.edgeCount
      invariant forall e :: i <= e < g.edgeCount ==> g.edges[e] == old(g.edges[e])
      invariant forall e :: 0 <= e < i ==>
        && g.edges[e].kind == old(g.edges[e].kind)
        && Moved(order, old(g.edges[e].from), g.edges[e].from)
        && Moved(order, old(g.edges[e].to), g.edges[e].to)
    {
      var fromIndex, toIndex := g.edges[i].from, g.edges[i].to;
      if 0 <= fromIndex < oldToNew.Length {
        g.edges[i] := g.edges[i].(from := oldToNew[fromIndex]);
      }
      if 0 <= toIndex < oldToNew.Length {
        g.edges[i] := g.edges[i].(to := oldToNew[toIndex]);
      }
    }
  }

  /** Puts the buffers in the given order through the inverse permutation. */
  method Renumber(g: GraphView, order: array<int>)
    requires 0 < g.nodeCount <= g.nodes.Length && 0 <= g.edgeCount <= g.edges.Length
    requires order.Length == g.nodeCount && IsPermutation(order[..], g.nodeCount)
    modifies g.nodes, g.edges
    ensures RenumberedBy(order[..], old(g.Nodes()), old(g.Edges()), g.Nodes(), g.Edges())
  {
    hide IsPermutation, RenumberedBy, Moved;
    ghost var nodes, edges := g.Nodes(), g.Edges();
    var oldToNew := MoveNodes(g, order);
    assert g.Edges() == edges;
    RewriteEdges(g, oldToNew, order[..]);
    RenumberedIntro(order[..], nodes, edges, g.Nodes(), g.Edges());
  }

  lemma PermutationInjective(order: seq<int>, n: int, i: int)
    requires IsPermutation(order, n) && 0 <= i < n
    ensures forall k :: 0 <= k < i ==> order[k] != order[i]
  {
  }

  lemma InverseIsTotal(order: seq<int>, n: int, inverse: seq<int>)
    requires IsPermutation(order, n) && |inverse| == n
    requires forall k :: 0 <= k < n ==> 0 <= order[k] < n && inverse[order[k]] == k
    ensures forall v :: 0 <= v < n ==> 0 <= inverse[v] < n && order[inverse[v]] == v
  {
    forall v | 0 <= v < n
      ensures 0 <= inverse[v] < n && order[inverse[v]] == v
    {
      assert v in order;
      var k :| 0 <= k < n && order[k] == v;
    }
  }

  lemma RenumberedIntro(order: seq<int>, nodes: seq<Node>, edges: seq<Edge>, nodes': seq<Node>, edges': seq<Edge>)
    requires IsPermutation(order, |nodes|) && |nodes'| == |nodes| && |edges'| == |edges|
    requires forall i :: 0 <= i < |nodes| ==> 0 <= order[i] < |nodes| && nodes'[i] == nodes[order[i]]
    requires forall e :: 0 <= e < |edges| ==> edges'[e].kind == edges[e].kind
    requires forall e :: 0 <= e < |edges| ==>
      Moved(order, edges[e].from, edges'[e].from) && Moved(order, edges[e].to, edges'[e].to)
    ensures RenumberedBy(order, nodes, edges, nodes', edges')
  {
  }

  /** Where the two searches start, or -1. */
  method FindSeeds(g: GraphView) returns (primarySeed: int, secondarySeed: int)
    requires g.Valid()
    ensures SeedsFound(g.Nodes(), SettingOf(g.Nodes(), g.Edges(), g.selectedItemId, g.centerItemId, g.sortMode),
                       primarySeed, secondarySeed)
  {
    primarySeed := g.FindNodeIndex(g.selectedItemId);
    if primarySeed < 0 {
      primarySeed := g.FindNodeIndex(g.centerItemId);
    }
    secondarySeed := g.FindNodeIndex(g.centerItemId);
    if secondarySeed == primarySeed {
      secondarySeed := -1;
    }
    SeedsAreItems(g.Nodes(), g.Edges(), g.selectedItemId, g.centerItemId, g.sortMode, primarySeed, secondarySeed);
  }

  /** The order the nodes belong in. */
  method RankNodes(g: GraphView, ghost setting: Setting) returns (order: array<int>, ghost keys: seq<Key>)
    requires g.Valid() && g.nodeCount > 0
    requires setting == SettingOf(g.Nodes(), g.Edges(), g.selectedItemId, g.centerItemId, g.sortMode)
    ensures fresh(order) && order.Length == g.nodeCount == |keys|
    ensures forall i :: 0 <= i < g.nodeCount ==> keys[i] == NodeKey(setting, g.nodes[i])
    ensures IsPermutation(order[..], g.nodeCount) && OrderedTo(keys, order[..], g.nodeCount)
  {
    hide IsPermutation, OrderedTo, DistinctKeys, ExactDistance, NodeKey, PrimarySeed, SecondarySeed, RankKey, Links,
         NodeIds, SeedsFound;
    var n := g.nodeCount;
    ghost var nodes, edges := g.Nodes(), g.Edges();
    var primarySeed, secondarySeed := FindSeeds(g);
    order := new int[n];
    var primary := new int[n];
    var secondary := new int[n];
    ComputeNodeDistances(g, n, g.edgeCount, primarySeed, primary);
    ComputeNodeDistances(g, n, g.edgeCount, secondarySeed, secondary);
    for i := 0 to n
      invariant forall k :: 0 <= k < i ==> order[k] == k
      modifies order
    {
      order[i] := i;
    }
    IdentityIsPermutation(order[..], n);
    keys := seq(n, i requires 0 <= i < n => NodeKey(setting, nodes[i]));
    forall i | 0 <= i < n
      ensures keys[i] == RankKey(g.sortMode, g.nodes[i], primary[i], secondary[i])
    {
      KeyOfPosition(nodes, edges, setting, g.sortMode, primarySeed, secondarySeed, i, primary[i], secondary[i]);
    }
    KeysAreDistinct(setting, nodes, keys);
    SortOrder(g, primary, secondary, order, keys);
  }

  /** Sorting the nodes. Needs only distinct ids; edges may point anywhere. */
  method ApplyNodeSort(g: GraphView)
    requires g.Valid()
    modifies g.nodes, g.edges
    ensures g.Valid()
    ensures NodesSorted(old(SettingOf(g.Nodes(), g.Edges(), g.selectedItemId, g.centerItemId, g.sortMode)),
                        old(g.Nodes()), old(g.Edges()), g.Nodes(), g.Edges())
  {
    hide IsPermutation, OrderedTo, RenumberedBy, NodeKey, SettingOf, NodesSorted;
    var n := g.nodeCount;
    ghost var nodes, edges := g.Nodes(), g.Edges();
    ghost var setting := SettingOf(nodes, edges, g.selectedItemId, g.centerItemId, g.sortMode);
    if n <= 1 {
      FewNodesSorted(setting, nodes, edges);
      return;
    }
    ghost var keys;
    var order;
    order, keys := RankNodes(g, setting);
    var changed := false;
    for i := 0 to n
      invariant !changed ==> forall k :: 0 <= k < i ==> order[k] == k
      modifies {}
    {
      if order[i] != i {
        changed := true;
        break;
      }
    }
    if !changed {
      IdentityRenumbers(order[..], nodes, edges);
    } else {
      Renumber(g, order);
    }
    SortedByOrder(setting, order[..], keys, nodes, edges, g.Nodes(), g.Edges());
  }

  lemma FewNodesSorted(s: Setting, nodes: seq<Node>, edges: seq<Edge>)
    requires |nodes| <= 1
    ensures NodesSorted(s, nodes, edges, nodes, edges)
  {
    IdentityRenumbers(if nodes == [] then [] else [0], nodes, edges);
  }

  ghost predicate SeedsFound(nodes: seq<Node>, s: Setting, primarySeed: int, secondarySeed: int) {
    && -1 <= primarySeed < |nodes| && -1 <= secondarySeed < |nodes|
    && (if primarySeed < 0 then 0 else nodes[primarySeed].id) == PrimarySeed(s.ids, s.selected, s.center)
    && (if secondarySeed < 0 then 0 else nodes[secondarySeed].id) == SecondarySeed(s.ids, s.selected, s.center)
  }

  lemma SeedsAreItems(nodes: seq<Node>, edges: seq<Edge>, selected: int, center: int, mode: SortMode, p: int, q: int)
    requires DistinctIds(nodes)
    requires -1 <= p < |nodes| && -1 <= q < |nodes|
    requires p >= 0 && nodes[p].id != selected ==>
      nodes[p].id == center && (selected == 0 || forall k :: 0 <= k < |nodes| ==> nodes[k].id != selected)
    requires p < 0 ==> (selected == 0 || forall k :: 0 <= k < |nodes| ==> nodes[k].id != selected)
    requires p < 0 ==> (center == 0 || forall k :: 0 <= k < |nodes| ==> nodes[k].id != center)
    requires q >= 0 ==> nodes[q].id == center && p != q
    requires q < 0 ==>
      center == 0 || (forall k :: 0 <= k < |nodes| ==> nodes[k].id != center) || (p >= 0 && nodes[p].id == center)
    ensures SeedsFound(nodes, SettingOf(nodes, edges, selected, center, mode), p, q)
  {
  }

  lemma KeyOfPosition(nodes: seq<Node>, edges: seq<Edge>, s: Setting, mode: SortMode, p: int, q: int, i: int, d: int,
                      e: int)
    requires DistinctIds(nodes) && 0 <= i < |nodes|
    requires s == SettingOf(nodes, edges, s.selected, s.center, mode) && SeedsFound(nodes, s, p, q)
    requires ExactDistance(IndexPairs(edges, |nodes|), p, i, d)
    requires ExactDistance(IndexPairs(edges, |nodes|), q, i, e)
    ensures NodeKey(s, nodes[i]) == RankKey(mode, nodes[i], d, e)
  {
    DistanceBetweenItems(nodes, edges, p, i, d);
    DistanceBetweenItems(nodes, edges, q, i, e);
    DistanceIs(LinkPairs(s.links), if p < 0 then 0 else nodes[p].id, nodes[i].id, d);
    DistanceIs(LinkPairs(s.links), if q < 0 then 0 else nodes[q].id, nodes[i].id, e);
  }

  lemma KeysAreDistinct(s: Setting, nodes: seq<Node>, keys: seq<Key>)
    requires DistinctIds(nodes) && |keys| == |nodes|
    requires forall i :: 0 <= i < |nodes| ==> keys[i] == NodeKey(s, nodes[i])
    ensures DistinctKeys(keys)
  {
  }

  lemma IdentityIsPermutation(order: seq<int>, n: int)
    requires |order| == n && forall k :: 0 <= k < n ==> order[k] == k
    ensures IsPermutation(order, n)
  {
    forall v | 0 <= v < n
      ensures v in order
    {
      assert order[v] == v;
    }
  }

  lemma IdentityRenumbers(order: seq<int>, nodes: seq<Node>, edges: seq<Edge>)
    requires |order| == |nodes| && forall k :: 0 <= k < |nodes| ==> order[k] == k
    ensures RenumberedBy(order, nodes, edges, nodes, edges)
  {
    IdentityIsPermutation(order, |nodes|);
  }

  lemma SortedByOrder(s: Setting, order: seq<int>, keys: seq<Key>, nodes: seq<Node>, edges: seq<Edge>,
                      nodes': seq<Node>, edges': seq<Edge>)
    requires DistinctIds(nodes) && |keys| == |nodes| && forall i :: 0 <= i < |nodes| ==> keys[i] == NodeKey(s, nodes[i])
    requires OrderedTo(keys, order, |keys|) && RenumberedBy(order, nodes, edges, nodes', edges')
    ensures DistinctIds(nodes') && NodesSorted(s, nodes, edges, nodes', edges')
  {
  }
}
