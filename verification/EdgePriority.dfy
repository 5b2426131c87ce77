/** Cuts the edge buffer down to a limit, keeping the edges nearest to the selection and the centre. */
module EdgePriority {
  import opened Limits
  import opened Walks
  import opened GraphState
  import opened KeyOrder
  import opened Distances
  import opened NodeSort

  function Min(a: int, b: int): int { if a < b then a else b }

  function Max(a: int, b: int): int { if a > b then a else b }

  function Depth(dist: seq<int>, index: int): int {
    if 0 <= index < |dist| then dist[index] else UNREACHABLE
  }

  /** What the sort compares about one edge. */
  datatype Priority = Priority(touchesSelected: bool, touchesCenter: bool, primaryMin: int, primaryMax: int,
                               secondaryMin: int, low: int, high: int)

  function PriorityOf(e: Edge, n: int, selected: int, center: int, primary: seq<int>, secondary: seq<int>): Priority {
    if InRange(e, n) then
      Priority(selected >= 0 && (e.from == selected || e.to == selected),
               center >= 0 && (e.from == center || e.to == center),
               Min(Depth(primary, e.from), Depth(primary, e.to)),
               Max(Depth(primary, e.from), Depth(primary, e.to)),
               Min(Depth(secondary, e.from), Depth(secondary, e.to)),
               Min(e.from, e.to), Max(e.from, e.to))
    else
      Priority(false, false, UNREACHABLE, UNREACHABLE, UNREACHABLE, NODE_LIMIT + 1, NODE_LIMIT + 1)
  }

  /** The eight-level comparison: whether `probe` is shifted behind `key`. */
  predicate ShouldShift(probe: Priority, probeIndex: int, key: Priority, keyIndex: int) {
    if probe.touchesSelected != key.touchesSelected then key.touchesSelected
    else if probe.primaryMin != key.primaryMin then probe.primaryMin > key.primaryMin
    else if probe.touchesCenter != key.touchesCenter then key.touchesCenter
    else if probe.secondaryMin != key.secondaryMin then probe.secondaryMin > key.secondaryMin
    else if probe.primaryMax != key.primaryMax then probe.primaryMax > key.primaryMax
    else if probe.low != key.low then probe.low > key.low
    else if probe.high != key.high then probe.high > key.high
    else probeIndex > keyIndex
  }

  function EdgeKey(p: Priority, index: int): Key {
    Key(p.primaryMin, p.secondaryMin, p.primaryMax, p.low, p.high, index)
  }

  /** The positions the two searches start from, given where the selection (or the centre in its place) and the
      centre are. */
  function SecondaryIndex(selected: int, center: int): int {
    if center == selected then -1 else center
  }

  ghost predicate DepthsFrom(edges: seq<Edge>, n: int, selected: int, center: int, primary: seq<int>,
                             secondary: seq<int>) {
    && |primary| == n && |secondary| == n
    && -1 <= selected < n && -1 <= center < n && (selected < 0 ==> center < 0)
    && (forall v :: 0 <= v < n ==> ExactDistance(IndexPairs(edges, n), selected, v, primary[v]))
    && (forall v :: 0 <= v < n ==> ExactDistance(IndexPairs(edges, n), SecondaryIndex(selected, center), v,
                                                 secondary[v]))
  }

  /** Touching the selection is being at depth zero, and touching the centre is as much settled by the depths. */
  lemma TouchesAreDepths(edges: seq<Edge>, n: int, selected: int, center: int, primary: seq<int>, secondary: seq<int>,
                         e: Edge)
    requires DepthsFrom(edges, n, selected, center, primary, secondary)
    ensures var p := PriorityOf(e, n, selected, center, primary, secondary);
            && (p.touchesSelected <==> p.primaryMin == 0)
            && (p.touchesCenter <==> if center == selected then p.touchesSelected else p.secondaryMin == 0)
            && p.primaryMin >= 0 && p.secondaryMin >= 0
  {
    hide ExactDistance;
    if InRange(e, n) {
      var rel := IndexPairs(edges, n);
      DepthFacts(rel, selected, e.from, primary[e.from]);
      DepthFacts(rel, selected, e.to, primary[e.to]);
      DepthFacts(rel, SecondaryIndex(selected, center), e.from, secondary[e.from]);
      DepthFacts(rel, SecondaryIndex(selected, center), e.to, secondary[e.to]);
    }
  }

  lemma DepthFacts(rel: Relation, source: int, v: int, d: int)
    requires ExactDistance(rel, source, v, d)
    ensures d >= 0 && (d == 0 <==> v == source)
  {
    DistanceZero(rel, source, v, d);
  }

  /** So the eight levels are one lexicographic order on six numbers, whatever is selected, centred or absent. */
  lemma EightLevelsAreLexicographic(edges: seq<Edge>, n: int, selected: int, center: int,
                                    primary: seq<int>, secondary: seq<int>, probe: Edge, i: int, key: Edge, j: int)
    requires DepthsFrom(edges, n, selected, center, primary, secondary)
    ensures var p := PriorityOf(probe, n, selected, center, primary, secondary);
            var k := PriorityOf(key, n, selected, center, primary, secondary);
            ShouldShift(p, i, k, j) <==> KeyLess(EdgeKey(k, j), EdgeKey(p, i))
  {
    TouchesAreDepths(edges, n, selected, center, primary, secondary, probe);
    TouchesAreDepths(edges, n, selected, center, primary, secondary, key);
  }

  lemma ShiftIsPrecedence(edges: seq<Edge>, n: int, selected: int, center: int,
                          primary: seq<int>, secondary: seq<int>, keys: seq<Key>, probe: int, key: int)
    requires KeysMeasured(edges, n, selected, center, primary, secondary, keys)
    requires 0 <= probe < |edges| && 0 <= key < |edges|
    ensures ShouldShift(PriorityOf(edges[probe], n, selected, center, primary, secondary), probe,
                        PriorityOf(edges[key], n, selected, center, primary, secondary), key)
            <==> Precedes(keys, key, probe)
  {
    EightLevelsAreLexicographic(edges, n, selected, center, primary, secondary, edges[probe], probe, edges[key], key);
  }

  /** Position of an item, or -1. */
  ghost function IndexOf(nodes: seq<Node>, id: int): int {
    if id != 0 && exists i :: 0 <= i < |nodes| && nodes[i].id == id
    then var i :| 0 <= i < |nodes| && nodes[i].id == id; i
    else -1
  }

  ghost function SelectedIndex(nodes: seq<Node>, selected: int, center: int): int {
    if IndexOf(nodes, selected) < 0 then IndexOf(nodes, center) else IndexOf(nodes, selected)
  }

  /** Rank of edge `i`: depths from the selection, then from the centre, then the endpoints, then the position. */
  ghost function PriorityKey(nodes: seq<Node>, edges: seq<Edge>, selected: int, center: int, i: int): Key
    requires 0 <= i < |edges|
  {
    var rel := IndexPairs(edges, |nodes|);
    var p := SelectedIndex(nodes, selected, center);
    var q := SecondaryIndex(p, IndexOf(nodes, center));
    var e := edges[i];
    if InRange(e, |nodes|) then
      Key(Min(Distance(rel, p, e.from), Distance(rel, p, e.to)),
          Min(Distance(rel, q, e.from), Distance(rel, q, e.to)),
          Max(Distance(rel, p, e.from), Distance(rel, p, e.to)),
          Min(e.from, e.to), Max(e.from, e.to), i)
    else
      Key(UNREACHABLE, UNREACHABLE, UNREACHABLE, NODE_LIMIT + 1, NODE_LIMIT + 1, i)
  }

  ghost predicate Outranks(nodes: seq<Node>, edges: seq<Edge>, selected: int, center: int, i: int, j: int) {
    && 0 <= i < |edges| && 0 <= j < |edges|
    && KeyLess(PriorityKey(nodes, edges, selected, center, i), PriorityKey(nodes, edges, selected, center, j))
  }

  /** `kept` lists the `limit` best-ranked positions in rank order. */
  ghost predicate TopPositions(nodes: seq<Node>, edges: seq<Edge>, selected: int, center: int, limit: int,
                               kept: seq<int>) {
    && |kept| == limit
    && (forall i :: 0 <= i < limit ==> 0 <= kept[i] < |edges|)
    && (forall i, j :: 0 <= i < j < limit ==> Outranks(nodes, edges, selected, center, kept[i], kept[j]))
    && (forall i, d :: 0 <= i < limit && 0 <= d < |edges| && d !in kept ==>
       Outranks(nodes, edges, selected, center, kept[i], d))
  }

  ghost predicate Picked(edges: seq<Edge>, kept: seq<int>, edges': seq<Edge>) {
    |edges'| == |kept| && forall i :: 0 <= i < |kept| ==> 0 <= kept[i] < |edges| && edges'[i] == edges[kept[i]]
  }

  ghost predicate EdgesPrioritized(nodes: seq<Node>, edges: seq<Edge>, selected: int, center: int, limit: int,
                                   edges': seq<Edge>) {
    if |edges| <= limit then edges' == edges
    else exists kept :: TopPositions(nodes, edges, selected, center, limit, kept) && Picked(edges, kept, edges')
  }

  /** The cut is determined: there is only one list of best-ranked positions. */
  lemma TopPositionsUnique(nodes: seq<Node>, edges: seq<Edge>, selected: int, center: int, limit: int, a: seq<int>,
                           b: seq<int>)
    requires TopPositions(nodes, edges, selected, center, limit, a)
    requires TopPositions(nodes, edges, selected, center, limit, b)
    ensures a == b
  {
    hide PriorityKey;
    TopWithin(nodes, edges, selected, center, limit, a, b);
    TopWithin(nodes, edges, selected, center, limit, b, a);
    var key := (i: int) =>
      if 0 <= i < |edges| then PriorityKey(nodes, edges, selected, center, i) else Key(0, 0, 0, 0, 0, i);
    assert forall i, j :: 0 <= i < j < limit ==> Outranks(nodes, edges, selected, center, a[i], a[j]);
    assert forall i, j :: 0 <= i < j < limit ==> Outranks(nodes, edges, selected, center, b[i], b[j]);
    SortedListingUnique(a, b, key);
  }

  lemma OutranksOneWay(nodes: seq<Node>, edges: seq<Edge>, selected: int, center: int, i: int, j: int)
    ensures !(Outranks(nodes, edges, selected, center, i, j) && Outranks(nodes, edges, selected, center, j, i))
  {
  }

  lemma TopWithin(nodes: seq<Node>, edges: seq<Edge>, selected: int, center: int, limit: int, a: seq<int>, b: seq<int>)
    requires TopPositions(nodes, edges, selected, center, limit, a)
    requires TopPositions(nodes, edges, selected, center, limit, b)
    ensures Elements(a) <= Elements(b)
  {
    hide PriorityKey;
    forall x | x in a
      ensures x in b
    {
      if x !in b {
        assert forall i, j :: 0 <= i < j < limit ==> Outranks(nodes, edges, selected, center, a[i], a[j]);
        assert forall i, j :: 0 <= i < j < limit ==> Outranks(nodes, edges, selected, center, b[i], b[j]);
        var y := MemberMissing(a, b, x);
        OutranksOneWay(nodes, edges, selected, center, x, y);
        assert false;
      }
    }
  }

  /** Of two equally long lists without repetition, if one has something the other lacks, so has the other. */
  lemma MemberMissing<T>(a: seq<T>, b: seq<T>, x: T) returns (y: T)
    requires |a| == |b| && x in a && x !in b
    requires forall i, j :: 0 <= i < j < |a| ==> a[i] != a[j]
    requires forall i, j :: 0 <= i < j < |b| ==> b[i] != b[j]
    ensures y in b && y !in a
  {
    DistinctCount(a);
    DistinctCount(b);
    if Elements(b) <= Elements(a) {
      SubsetCount(Elements(b), Elements(a) - {x});
      assert false;
    }
    y :| y in Elements(b) && y !in Elements(a);
  }

  lemma {:induction false} SubsetCount<T>(a: set<T>, b: set<T>)
    requires a <= b
    ensures |a| <= |b|
  {
    if a != {} {
      var x :| x in a;
      SubsetCount(a - {x}, b - {x});
    }
  }

  lemma {:induction false} DistinctCount<T>(s: seq<T>)
    requires forall i, j :: 0 <= i < j < |s| ==> s[i] != s[j]
    ensures |Elements(s)| == |s|
  {
    if s == [] {
      assert Elements(s) == {};
    } else {
      DistinctCount(s[1..]);
      assert Elements(s) == {s[0]} + Elements(s[1..]);
    }
  }

  /** The insertion sort over `order`, ranking edges in place. */
  method SortEdgeOrder(g: GraphView, n: int, selected: int, center: int, primary: array<int>, secondary: array<int>,
                       order: array<int>, ghost edges: seq<Edge>, ghost keys: seq<Key>)
    requires order != primary && order != secondary
    requires 0 < order.Length == |keys| == |edges| <= g.edges.Length && g.edges[..order.Length] == edges
    requires IsPermutation(order[..], |keys|) && DistinctKeys(keys)
    requires KeysMeasured(edges, n, selected, center, primary[..], secondary[..], keys)
    modifies order
    ensures IsPermutation(order[..], |keys|) && OrderedTo(keys, order[..], |keys|)
  {
    hide IsPermutation, OrderedTo, DistinctKeys, KeysMeasured;
    OneIsOrdered(keys, order[..]);
    for i := 1 to order.Length
      invariant IsPermutation(order[..], |keys|) && OrderedTo(keys, order[..], i)
    {
      InsertNext(g, n, selected, center, primary, secondary, order, i, edges, keys);
    }
  }

  /** One round of the sort: the edge at `i` moves down to its place. */
  method InsertNext(g: GraphView, n: int, selected: int, center: int, primary: array<int>, secondary: array<int>,
                    order: array<int>, i: int, ghost edges: seq<Edge>, ghost keys: seq<Key>)
    requires order != primary && order != secondary
    requires 0 < order.Length == |keys| == |edges| <= g.edges.Length && g.edges[..order.Length] == edges
    requires IsPermutation(order[..], |keys|) && DistinctKeys(keys)
    requires KeysMeasured(edges, n, selected, center, primary[..], secondary[..], keys)
    requires 0 < i < order.Length && OrderedTo(keys, order[..], i)
    modifies order
    ensures IsPermutation(order[..], |keys|) && OrderedTo(keys, order[..], i + 1)
  {
    hide IsPermutation, OrderedTo, DistinctKeys, KeyLess, ShouldShift, EdgeKey, PriorityOf, KeysMeasured, Shifting;
    ghost var first, second, was := primary[..], secondary[..], order[..];
    PermutationInRange(was, |keys|);
    var key := order[i];
    assert g.edges[key] == edges[key];
    var keyPriority := PriorityOf(g.edges[key], n, selected, center, primary[..], secondary[..]);
    var j := i - 1;
    ShiftingStarts(keys, was, i);
    while j >= 0
      invariant -1 <= j < i && Shifting(keys, was, order[..], i, j)
    {
      ghost var now := order[..];
      ShiftOne(keys, was, now, i, j);
      var probe := order[j];
      assert g.edges[probe] == edges[probe];
      var probePriority := PriorityOf(g.edges[probe], n, selected, center, primary[..], secondary[..]);
      ShiftIsPrecedence(edges, n, selected, center, first, second, keys, probe, key);
      if !ShouldShift(probePriority, probe, keyPriority, key) {
        break;
      }
      order[j + 1] := probe;
      assert order[..] == now[j + 1 := now[j]];
      j := j - 1;
    }
    ghost var now := order[..];
    ShiftingEnds(keys, was, now, i, j);
    order[j + 1] := key;
    assert order[..] == now[j + 1 := key];
  }

  ghost predicate KeysMeasured(edges: seq<Edge>, n: int, selected: int, center: int,
                               primary: seq<int>, secondary: seq<int>, keys: seq<Key>)
  {
    && |keys| == |edges|
    && DepthsFrom(edges, n, selected, center, primary, secondary)
    && forall i :: 0 <= i < |edges| ==>
         keys[i] == EdgeKey(PriorityOf(edges[i], n, selected, center, primary, secondary), i)
  }

  /** Keeps the best `edgeLimit` edges, best first; within the limit nothing moves. */
  method ApplyEdgePriority(g: GraphView, edgeLimit: int)
    requires g.Valid()
    modifies g`edgeCount, g.edges
    ensures g.Valid()
    ensures EdgesPrioritized(g.Nodes(), old(g.Edges()), g.selectedItemId, g.centerItemId, ClampEdgeLimit(edgeLimit),
                             g.Edges())
  {
    hide IsPermutation, OrderedTo, EdgesPrioritized, KeysMeasured, PriorityKey;
    var limit := ClampEdgeLimit(edgeLimit);
    var n := g.nodeCount;
    ghost var nodes, edges := g.Nodes(), g.Edges();
    if g.edgeCount <= limit {
      WithinLimit(nodes, edges, g.selectedItemId, g.centerItemId, limit);
      return;
    }
    ghost var keys;
    var order;
    order, keys := RankEdges(g, nodes, edges);
    PermutationInRange(order[..], |edges|);
    ghost var perm := order[..];

    var kept := new Edge[limit](_ => Edge(0, 0, ""));
    for i := 0 to limit
      invariant forall k :: 0 <= k < i ==> kept[k] == edges[perm[k]]
      modifies kept
    {
      assert order[i] == perm[i];
      kept[i] := g.edges[order[i]];
    }
    for i := 0 to limit
      invariant forall k :: 0 <= k < i ==> g.edges[k] == kept[k]
      modifies g.edges
    {
      g.edges[i] := kept[i];
    }
    g.edgeCount := limit;
    TopByOrder(nodes, edges, g.selectedItemId, g.centerItemId, limit, perm, keys, g.Edges());
  }

  /** The order the edges rank in. */
  method RankEdges(g: GraphView, ghost nodes: seq<Node>, ghost edges: seq<Edge>)
      returns (order: array<int>, ghost keys: seq<Key>)
    requires g.Valid() && nodes == g.Nodes() && edges == g.Edges() && |edges| > 0
    ensures fresh(order) && order.Length == |keys| == |edges|
    ensures forall i :: 0 <= i < |edges| ==> keys[i] == PriorityKey(nodes, edges, g.selectedItemId, g.centerItemId, i)
    ensures IsPermutation(order[..], |edges|) && OrderedTo(keys, order[..], |edges|)
  {
    hide IsPermutation, OrderedTo, DistinctKeys, PriorityKey, PriorityOf, EdgeKey, DepthsFrom, KeysMeasured,
         SelectedIndex,
         ExactDistance;
    var n := g.nodeCount;
    var center := g.FindNodeIndex(g.centerItemId);
    var selected := g.FindNodeIndex(g.selectedItemId);
    FoundIsIndex(nodes, g.centerItemId, center);
    FoundIsIndex(nodes, g.selectedItemId, selected);
    if selected < 0 {
      selected := center;
    }
    SelectedFound(nodes, g.selectedItemId, g.centerItemId, selected);
    order := new int[g.edgeCount];
    var primary := new int[n];
    var secondary := new int[n];
    var primarySeed := if selected >= 0 then selected else center;
    var secondarySeed := center;
    if secondarySeed == primarySeed {
      secondarySeed := -1;
    }
    ComputeNodeDistances(g, n, g.edgeCount, primarySeed, primary);
    ComputeNodeDistances(g, n, g.edgeCount, secondarySeed, secondary);
    for i := 0 to g.edgeCount
      invariant forall k :: 0 <= k < i ==> order[k] == k
      modifies order
    {
      order[i] := i;
    }
    IdentityIsPermutation(order[..], g.edgeCount);
    DepthsMeasured(edges, n, selected, center, primary[..], secondary[..]);
    ghost var first, second := primary[..], secondary[..];
    keys := seq(|edges|, i requires 0 <= i < |edges| =>
      EdgeKey(PriorityOf(edges[i], n, selected, center, first, second), i));
    KeysByPosition(keys, edges, n, selected, center, first, second);
    forall i | 0 <= i < |edges|
      ensures keys[i] == PriorityKey(nodes, edges, g.selectedItemId, g.centerItemId, i)
    {
      KeyOfEdge(nodes, edges, g.selectedItemId, g.centerItemId, selected, center, first, second, i);
    }
    SortEdgeOrder(g, n, selected, center, primary, secondary, order, edges, keys);
  }

  lemma WithinLimit(nodes: seq<Node>, edges: seq<Edge>, selected: int, center: int, limit: int)
    requires |edges| <= limit
    ensures EdgesPrioritized(nodes, edges, selected, center, limit, edges)
  {
  }

  lemma FoundIsIndex(nodes: seq<Node>, id: int, index: int)
    requires DistinctIds(nodes)
    requires index == -1 || (0 <= index < |nodes| && id != 0 && nodes[index].id == id)
    requires index == -1 ==> id == 0 || forall k :: 0 <= k < |nodes| ==> nodes[k].id != id
    ensures index == IndexOf(nodes, id)
  {
  }

  lemma SelectedFound(nodes: seq<Node>, selected: int, center: int, found: int)
    requires found == if IndexOf(nodes, selected) < 0 then IndexOf(nodes, center) else IndexOf(nodes, selected)
    ensures found == SelectedIndex(nodes, selected, center)
    ensures found < 0 ==> IndexOf(nodes, center) < 0
  {
  }

  lemma DepthsMeasured(edges: seq<Edge>, n: int, selected: int, center: int, primary: seq<int>, secondary: seq<int>)
    requires |primary| == n && |secondary| == n
    requires -1 <= selected < n && -1 <= center < n && (selected < 0 ==> center < 0)
    requires forall v :: 0 <= v < n ==> ExactDistance(IndexPairs(edges, n), selected, v, primary[v])
    requires forall v :: 0 <= v < n ==>
      ExactDistance(IndexPairs(edges, n), if center == selected then -1 else center, v, secondary[v])
    ensures DepthsFrom(edges, n, selected, center, primary, secondary)
  {
  }

  lemma KeysByPosition(keys: seq<Key>, edges: seq<Edge>, n: int, selected: int, center: int, primary: seq<int>,
                       secondary: seq<int>)
    requires |keys| == |edges| && DepthsFrom(edges, n, selected, center, primary, secondary)
    requires forall i :: 0 <= i < |edges| ==>
      keys[i] == EdgeKey(PriorityOf(edges[i], n, selected, center, primary, secondary), i)
    ensures DistinctKeys(keys) && KeysMeasured(edges, n, selected, center, primary, secondary, keys)
  {
  }

  lemma KeyOfEdge(nodes: seq<Node>, edges: seq<Edge>, selectedId: int, centerId: int, selected: int, center: int,
                  primary: seq<int>, secondary: seq<int>, i: int)
    requires selected == SelectedIndex(nodes, selectedId, centerId) && center == IndexOf(nodes, centerId)
    requires DepthsFrom(edges, |nodes|, selected, center, primary, secondary) && 0 <= i < |edges|
    ensures EdgeKey(PriorityOf(edges[i], |nodes|, selected, center, primary, secondary), i) ==
            PriorityKey(nodes, edges, selectedId, centerId, i)
  {
    hide ExactDistance;
    var e, rel := edges[i], IndexPairs(edges, |nodes|);
    if InRange(e, |nodes|) {
      DistanceIs(rel, selected, e.from, primary[e.from]);
      DistanceIs(rel, selected, e.to, primary[e.to]);
      DistanceIs(rel, SecondaryIndex(selected, center), e.from, secondary[e.from]);
      DistanceIs(rel, SecondaryIndex(selected, center), e.to, secondary[e.to]);
    }
  }

  lemma PlaceBeyond(order: seq<int>, limit: int, d: int) returns (k: int)
    requires 0 <= limit <= |order| && d in order && d !in order[..limit]
    ensures limit <= k < |order| && order[k] == d
  {
    assert order == order[..limit] + order[limit..];
    k :| 0 <= k < |order[limit..]| && order[limit..][k] == d;
    k := limit + k;
  }

  lemma TopByOrder(nodes: seq<Node>, edges: seq<Edge>, selected: int, center: int, limit: int,
                   order: seq<int>, keys: seq<Key>, edges': seq<Edge>)
    requires 0 < limit < |edges| && |keys| == |edges| && |edges'| == limit
    requires forall i :: 0 <= i < |edges| ==> keys[i] == PriorityKey(nodes, edges, selected, center, i)
    requires IsPermutation(order, |edges|) && OrderedTo(keys, order, |edges|)
    requires forall i :: 0 <= i < limit ==> edges'[i] == edges[order[i]]
    ensures EdgesPrioritized(nodes, edges, selected, center, limit, edges')
  {
    hide PriorityKey;
    var kept := order[..limit];
    forall i, d | 0 <= i < limit && 0 <= d < |edges| && d !in kept
      ensures Outranks(nodes, edges, selected, center, kept[i], d)
    {
      assert d in order;
      var k := PlaceBeyond(order, limit, d);
      assert Precedes(keys, order[i], order[k]);
    }
    forall i, j | 0 <= i < j < limit
      ensures Outranks(nodes, edges, selected, center, kept[i], kept[j])
    {
      assert Precedes(keys, order[i], order[j]);
    }
    assert TopPositions(nodes, edges, selected, center, limit, kept) && Picked(edges, kept, edges');
  }
}
