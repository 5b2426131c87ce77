/** What the pipeline does with several links between the same items, when two loads hold each link equally often. */
module RepeatedLinks {
  import opened Limits
  import opened Walks
  import opened KindFilters
  import opened GraphState
  import opened KeyOrder
  import opened NodeSort
  import opened Rollup
  import opened EdgePriority
  import opened Compaction
  import opened GraphPipeline
  import opened CanonicalOrder
  import opened CanonicalEdges

  /** How many edges inside the buffer draw the link. */
  ghost function Drawn(nodes: seq<Node>, edges: seq<Edge>, l: Link): nat {
    if edges == [] then 0
    else
      var last := |edges| - 1;
      Drawn(nodes, edges[..last], l) + if Draws(nodes, edges[last], l) then 1 else 0
  }

  ghost predicate Draws(nodes: seq<Node>, e: Edge, l: Link) {
    InRange(e, |nodes|) && LinkOf(nodes, e) == l
  }

  /** The same items, and each link drawn equally often. */
  ghost predicate SameMultigraph(nodesA: seq<Node>, edgesA: seq<Edge>, nodesB: seq<Node>, edgesB: seq<Edge>) {
    BareNodes(nodesA) == BareNodes(nodesB) && forall l :: Drawn(nodesA, edgesA, l) == Drawn(nodesB, edgesB, l)
  }

  lemma {:induction false} DrawnIfLink(nodes: seq<Node>, edges: seq<Edge>, l: Link)
    ensures l in Links(nodes, edges) <==> Drawn(nodes, edges, l) > 0
  {
    if edges != [] {
      var last := |edges| - 1;
      DrawnIfLink(nodes, edges[..last], l);
      hide LinkOf;
      if l in Links(nodes, edges) {
        var i :| 0 <= i < |edges| && InRange(edges[i], |nodes|) && LinkOf(nodes, edges[i]) == l;
        assert i < last ==> edges[..last][i] == edges[i];
      }
      if l in Links(nodes, edges[..last]) {
        var i :| 0 <= i < last && InRange(edges[..last][i], |nodes|) && LinkOf(nodes, edges[..last][i]) == l;
        assert edges[i] == edges[..last][i];
      }
    }
  }

  lemma MultigraphIsGraph(nodesA: seq<Node>, edgesA: seq<Edge>, nodesB: seq<Node>, edgesB: seq<Edge>)
    requires SameMultigraph(nodesA, edgesA, nodesB, edgesB)
    ensures SameGraph(nodesA, edgesA, nodesB, edgesB)
  {
    hide BareNodes, Links, Drawn;
    forall l: Link
      ensures l in Links(nodesA, edgesA) <==> l in Links(nodesB, edgesB)
    {
      DrawnIfLink(nodesA, edgesA, l);
      DrawnIfLink(nodesB, edgesB, l);
    }
  }

  // ----- the passes before the cut

  /** Edge for edge the same links. */
  lemma {:induction false} SameLinksDrawn(nodes: seq<Node>, edges: seq<Edge>, nodes': seq<Node>, edges': seq<Edge>,
                                          l: Link)
    requires |edges| == |edges'|
    requires forall i :: 0 <= i < |edges| ==> (Draws(nodes, edges[i], l) <==> Draws(nodes', edges'[i], l))
    ensures Drawn(nodes', edges', l) == Drawn(nodes, edges, l)
    decreases |edges|
  {
    hide Draws;
    if edges != [] {
      var last := |edges| - 1;
      assert edges[..last] == edges[..last];
      SameLinksDrawn(nodes, edges[..last], nodes', edges'[..last], l);
    }
  }

  /** Compaction draws a link as often as before if both its items are enabled, and not at all otherwise. */
  lemma {:induction false} CompactionDraws(filter: NodeFilter, nodes: seq<Node>, edges: seq<Edge>, nodes': seq<Node>,
                                           kept: seq<int>, hi: int, source: seq<int>, edges': seq<Edge>, l: Link)
    requires 0 <= hi <= |edges| && DistinctIds(nodes)
    requires KeptNodes(filter, nodes, |nodes|, kept) && NodesTaken(nodes, kept, nodes')
    requires KeptEdges(edges, |nodes|, kept, hi, source) && EdgesTaken(edges, kept, source, edges')
    ensures Drawn(nodes', edges', l) ==
            if EnabledItem(filter, BareNodes(nodes), l.fromId) && EnabledItem(filter, BareNodes(nodes), l.toId)
            then Drawn(nodes, edges[..hi], l) else 0
    decreases hi
  {
    hide EdgeStays, KeptNodes, NodesTaken, KeptEdges, EdgesTaken, Relocated, EnabledItem, BareNodes, Draws, DistinctIds;
    if hi == 0 {
      NoneKept(edges, |nodes|, kept, source, edges');
    } else {
      var e := hi - 1;
      assert edges[..hi][..e] == edges[..e] && edges[..hi][e] == edges[e];
      if EdgeStays(edges, |nodes|, kept, e) {
        var last := |source| - 1;
        LastKept(edges, |nodes|, kept, hi, source, edges');
        CompactionDraws(filter, nodes, edges, nodes', kept, e, source[..last], edges'[..last], l);
        StayingDraws(filter, nodes, edges, nodes', kept, e, edges'[last], l);
      } else {
        DropLast(edges, |nodes|, kept, hi, source);
        CompactionDraws(filter, nodes, edges, nodes', kept, e, source, edges', l);
        if Draws(nodes, edges[e], l) {
          LeavingDraws(filter, nodes, edges, kept, e, l);
        }
      }
    }
  }

  lemma NoneKept(edges: seq<Edge>, n: int, kept: seq<int>, source: seq<int>, edges': seq<Edge>)
    requires KeptEdges(edges, n, kept, 0, source) && EdgesTaken(edges, kept, source, edges')
    ensures edges' == []
  {
    assert Elements(source) == {};
    NoElements(source);
  }

  lemma LastKept(edges: seq<Edge>, n: int, kept: seq<int>, hi: int, source: seq<int>, edges': seq<Edge>)
    requires 0 < hi <= |edges| && KeptEdges(edges, n, kept, hi, source) && EdgesTaken(edges, kept, source, edges')
    requires EdgeStays(edges, n, kept, hi - 1)
    ensures source != [] && |edges'| == |source| && source[|source| - 1] == hi - 1
    ensures KeptEdges(edges, n, kept, hi - 1, source[..|source| - 1])
    ensures EdgesTaken(edges, kept, source[..|source| - 1], edges'[..|source| - 1])
    ensures Relocated(kept, edges[hi - 1], edges'[|source| - 1])
  {
    hide EdgeStays, Relocated;
    assert hi - 1 in source;
    var last := |source| - 1;
    var i :| 0 <= i < |source| && source[i] == hi - 1;
    assert source[last] in source;
    assert i == last;
    forall e | e in source && e < hi - 1
      ensures e in source[..last]
    {
      var j :| 0 <= j < |source| && source[j] == e;
      assert source[..last][j] == e;
    }
    assert forall e :: e in source[..last] ==> e in source;
  }

  lemma DropLast(edges: seq<Edge>, n: int, kept: seq<int>, hi: int, source: seq<int>)
    requires 0 < hi <= |edges| && KeptEdges(edges, n, kept, hi, source) && !EdgeStays(edges, n, kept, hi - 1)
    ensures KeptEdges(edges, n, kept, hi - 1, source)
  {
    hide EdgeStays;
  }

  lemma StayingDraws(filter: NodeFilter, nodes: seq<Node>, edges: seq<Edge>, nodes': seq<Node>, kept: seq<int>, e: int,
                     after: Edge, l: Link)
    requires 0 <= e < |edges| && DistinctIds(nodes)
    requires KeptNodes(filter, nodes, |nodes|, kept) && NodesTaken(nodes, kept, nodes')
    requires EdgeStays(edges, |nodes|, kept, e) && Relocated(kept, edges[e], after)
    ensures Draws(nodes', after, l) <==> Draws(nodes, edges[e], l)
    ensures Draws(nodes, edges[e], l) ==>
            EnabledItem(filter, BareNodes(nodes), l.fromId) && EnabledItem(filter, BareNodes(nodes), l.toId)
  {
    hide NodeKindEnabled, EnabledItem, BareNodes;
    KeptAreEnabled(filter, nodes, kept);
  }

  lemma LeavingDraws(filter: NodeFilter, nodes: seq<Node>, edges: seq<Edge>, kept: seq<int>, e: int, l: Link)
    requires 0 <= e < |edges| && DistinctIds(nodes) && KeptNodes(filter, nodes, |nodes|, kept)
    requires !EdgeStays(edges, |nodes|, kept, e) && Draws(nodes, edges[e], l)
    ensures !(EnabledItem(filter, BareNodes(nodes), l.fromId) && EnabledItem(filter, BareNodes(nodes), l.toId))
  {
    hide NodeKindEnabled, EnabledItem, BareNodes, KeptNodes;
    KeptAreEnabled(filter, nodes, kept);
  }

  /** How many edges have two enabled items for ends. */
  ghost function Staying(filter: NodeFilter, nodes: seq<Node>, edges: seq<Edge>): nat {
    |set i | 0 <= i < |edges| && InRange(edges[i], |nodes|) && NodeKindEnabled(filter, nodes[edges[i].from].kind)
             && NodeKindEnabled(filter, nodes[edges[i].to].kind)|
  }

  lemma CompactionCounts(filter: NodeFilter, nodes: seq<Node>, edges: seq<Edge>, kept: seq<int>, source: seq<int>)
    requires KeptNodes(filter, nodes, |nodes|, kept) && KeptEdges(edges, |nodes|, kept, |edges|, source)
    ensures |source| == Staying(filter, nodes, edges)
  {
    hide NodeKindEnabled;
    DistinctCount(source);
    assert Elements(source) ==
           set i | 0 <= i < |edges| && InRange(edges[i], |nodes|) && NodeKindEnabled(filter, nodes[edges[i].from].kind)
                   && NodeKindEnabled(filter, nodes[edges[i].to].kind);
  }

  /** The edges as the node sort leaves them: all inside the buffer, each link between enabled items as often as it was
      loaded. */
  lemma BeforeTheCutDrawn(filter: NodeFilter, selected: int, center: int, mode: SortMode, limit: int,
                          nodes: seq<Node>, edges: seq<Edge>, nodes': seq<Node>, edges': seq<Edge>)
      returns (sorted: seq<Edge>)
    requires DistinctIds(nodes) && PassesRun(filter, selected, center, mode, limit, nodes, edges, nodes', edges')
    ensures DistinctIds(nodes') && EdgesInRange(sorted, |nodes'|) && |sorted| == Staying(filter, nodes, edges)
    ensures forall l :: Drawn(nodes', sorted, l) == KeptDrawn(filter, nodes, edges, l)
    ensures EdgesPrioritized(nodes', sorted, selected, center, limit, edges')
  {
    hide Compacted, Annotated, NodesSorted, EdgesPrioritized, Links, BareNodes, EnabledItem, Subgraph, DistinctIds,
         NodeKindEnabled, Drawn, KeptDrawn, Staying;
    var n1, e1, n2, e3 :|
      && Compacted(filter, nodes, edges, n1, e1) && Annotated(n1, e1, n2) && DistinctIds(n1) && DistinctIds(n2)
      && NodesSorted(SettingOf(n2, e1, selected, center, mode), n2, e1, nodes', e3)
      && EdgesPrioritized(nodes', e3, selected, center, limit, edges');
    sorted := e3;
    CompactedDraws(filter, nodes, edges, n1, e1);
    AnnotationDraws(n1, e1, n2);
    SortDraws(SettingOf(n2, e1, selected, center, mode), n2, e1, nodes', e3);
  }

  ghost function KeptDrawn(filter: NodeFilter, nodes: seq<Node>, edges: seq<Edge>, l: Link): nat {
    if EnabledItem(filter, BareNodes(nodes), l.fromId) && EnabledItem(filter, BareNodes(nodes), l.toId)
    then Drawn(nodes, edges, l) else 0
  }

  lemma CompactedDraws(filter: NodeFilter, nodes: seq<Node>, edges: seq<Edge>, nodes': seq<Node>, edges': seq<Edge>)
    requires DistinctIds(nodes) && Compacted(filter, nodes, edges, nodes', edges')
    ensures EdgesInRange(edges', |nodes'|) && |edges'| == Staying(filter, nodes, edges)
    ensures forall l :: Drawn(nodes', edges', l) == KeptDrawn(filter, nodes, edges, l)
  {
    hide KeptNodes, KeptEdges, Staying, EnabledItem, BareNodes, Drawn, DistinctIds;
    var kept, source :|
      && KeptNodes(filter, nodes, |nodes|, kept) && NodesTaken(nodes, kept, nodes')
      && KeptEdges(edges, |nodes|, kept, |edges|, source) && EdgesTaken(edges, kept, source, edges');
    CompactionCounts(filter, nodes, edges, kept, source);
    assert EdgesInRange(edges', |nodes'|) by {
      assert forall i :: 0 <= i < |source| ==> Relocated(kept, edges[source[i]], edges'[i]);
    }
    assert edges[..|edges|] == edges;
    forall l: Link
      ensures Drawn(nodes', edges', l) == KeptDrawn(filter, nodes, edges, l)
    {
      CompactionDraws(filter, nodes, edges, nodes', kept, |edges|, source, edges', l);
    }
  }

  lemma AnnotationDraws(nodes: seq<Node>, edges: seq<Edge>, nodes': seq<Node>)
    requires Annotated(nodes, edges, nodes')
    ensures |nodes'| == |nodes| && forall l :: Drawn(nodes', edges, l) == Drawn(nodes, edges, l)
  {
    hide Links, NodeIds, Drawn;
    AnnotationKeepsLinks(nodes, edges, nodes');
    assert |nodes'| == |nodes|;
    forall l: Link
      ensures Drawn(nodes', edges, l) == Drawn(nodes, edges, l)
    {
      SameLinksDrawn(nodes, edges, nodes', edges, l);
    }
  }

  lemma SortDraws(s: Setting, nodes: seq<Node>, edges: seq<Edge>, nodes': seq<Node>, edges': seq<Edge>)
    requires NodesSorted(s, nodes, edges, nodes', edges') && DistinctIds(nodes) && EdgesInRange(edges, |nodes|)
    ensures DistinctIds(nodes') && EdgesInRange(edges', |nodes'|) && |edges'| == |edges|
    ensures forall l :: Drawn(nodes', edges', l) == Drawn(nodes, edges, l)
  {
    hide DistinctIds, Links, NodeIds, NodeKey, StrictlySorted, Drawn;
    var order :| RenumberedBy(order, nodes, edges, nodes', edges');
    RenumberingIsIsomorphism(order, nodes, edges, nodes', edges');
    assert |edges'| == |edges|;
    hide RenumberedBy;
    forall l: Link
      ensures Drawn(nodes', edges', l) == Drawn(nodes, edges, l)
    {
      SameLinksDrawn(nodes, edges, nodes', edges', l);
    }
  }

  /** On the same nodes, drawing each link equally often is having each edge equally often. */
  lemma {:induction false} DrawnCountsEdge(nodes: seq<Node>, edges: seq<Edge>, e: Edge)
    requires DistinctIds(nodes) && EdgesInRange(edges, |nodes|) && InRange(e, |nodes|)
    ensures multiset(edges)[e] == Drawn(nodes, edges, LinkOf(nodes, e))
  {
    if edges != [] {
      var last := |edges| - 1;
      DrawnCountsEdge(nodes, edges[..last], e);
      assert edges == edges[..last] + [edges[last]];
      assert InRange(edges[last], |nodes|);
      assert LinkOf(nodes, edges[last]) == LinkOf(nodes, e) <==> edges[last] == e;
    }
  }

  lemma SameEdgeCounts(nodes: seq<Node>, a: seq<Edge>, b: seq<Edge>)
    requires DistinctIds(nodes) && EdgesInRange(a, |nodes|) && EdgesInRange(b, |nodes|)
    requires forall l :: Drawn(nodes, a, l) == Drawn(nodes, b, l)
    ensures multiset(a) == multiset(b)
  {
    hide DistinctIds, Drawn, LinkOf;
    forall e: Edge
      ensures multiset(a)[e] == multiset(b)[e]
    {
      if InRange(e, |nodes|) {
        DrawnCountsEdge(nodes, a, e);
        DrawnCountsEdge(nodes, b, e);
      } else {
        assert forall i :: 0 <= i < |a| ==> a[i] != e;
        assert forall i :: 0 <= i < |b| ==> b[i] != e;
        assert e !in a && e !in b;
      }
    }
  }

  // ----- the cut

  /** Positions of the edges that satisfy `p`. */
  ghost function Places(edges: seq<Edge>, p: Edge -> bool): set<int> {
    set i | 0 <= i < |edges| && p(edges[i])
  }

  ghost function CountIf(edges: seq<Edge>, p: Edge -> bool): nat {
    if edges == [] then 0
    else
      var last := |edges| - 1;
      CountIf(edges[..last], p) + if p(edges[last]) then 1 else 0
  }

  lemma {:induction false} PlacesCount(edges: seq<Edge>, p: Edge -> bool)
    ensures |Places(edges, p)| == CountIf(edges, p)
  {
    if edges == [] {
      assert Places(edges, p) == {};
    } else {
      var last := |edges| - 1;
      PlacesCount(edges[..last], p);
      var before := Places(edges[..last], p);
      assert Places(edges, p) == if p(edges[last]) then before + {last} else before;
      assert last !in before;
    }
  }

  lemma {:induction false} CountIfAppend(a: seq<Edge>, b: seq<Edge>, p: Edge -> bool)
    ensures CountIf(a + b, p) == CountIf(a, p) + CountIf(b, p)
    decreases |b|
  {
    if b == [] {
      assert a + b == a;
    } else {
      var last := |b| - 1;
      CountIfAppend(a, b[..last], p);
      assert (a + b)[..|a + b| - 1] == a + b[..last];
    }
  }

  /** Taking one edge out. */
  lemma CountIfWithout(edges: seq<Edge>, j: nat, p: Edge -> bool) returns (rest: seq<Edge>)
    requires j < |edges|
    ensures CountIf(edges, p) == CountIf(rest, p) + if p(edges[j]) then 1 else 0
    ensures multiset(rest) == multiset(edges) - multiset{edges[j]} && |rest| == |edges| - 1
  {
    var low, e, high := edges[..j], edges[j], edges[j + 1..];
    rest := low + high;
    CountIfAppend(low + [e], high, p);
    CountIfAppend(low, [e], p);
    CountIfAppend(low, high, p);
    assert CountIf([e], p) == if p(e) then 1 else 0;
    hide CountIf;
    assert edges == low + [e] + high;
    assert multiset(low + [e] + high) == multiset(low) + multiset{e} + multiset(high);
  }

  /** Counting does not depend on the order. */
  lemma {:induction false} CountIfSame(a: seq<Edge>, b: seq<Edge>, p: Edge -> bool)
    requires multiset(a) == multiset(b)
    ensures CountIf(a, p) == CountIf(b, p)
    decreases |a|
  {
    assert |multiset(a)| == |multiset(b)|;
    if a != [] {
      hide CountIf;
      assert a[0] in multiset(b);
      var j :| 0 <= j < |b| && b[j] == a[0];
      var restA := CountIfWithout(a, 0, p);
      var restB := CountIfWithout(b, j, p);
      CountIfSame(restA, restB, p);
    }
  }

  lemma WeakRank(nodes: seq<Node>, edges: seq<Edge>, selected: int, center: int, i: int, j: int)
    requires EdgesInRange(edges, |nodes|) && Outranks(nodes, edges, selected, center, i, j)
    ensures var rel := IndexPairs(edges, |nodes|);
            !KeyLess(EdgeRank(nodes, rel, selected, center, edges[j]), EdgeRank(nodes, rel, selected, center, edges[i]))
  {
    hide Distance, IndexPairs, SelectedIndex, IndexOf;
    assert InRange(edges[i], |nodes|) && InRange(edges[j], |nodes|);
  }

  lemma NotLessThrough(x: Key, y: Key, z: Key)
    requires KeyLess(x, y) && !KeyLess(z, y)
    ensures KeyLess(x, z)
  {
  }

  /** Of the edges kept, those up to position `i` rank no lower than it does, */
  lemma AtLeast(nodes: seq<Node>, edges: seq<Edge>, selected: int, center: int, limit: int, kept: seq<int>, i: int)
    requires EdgesInRange(edges, |nodes|) && TopPositions(nodes, edges, selected, center, limit, kept) && 0 <= i < limit
    ensures var rel := IndexPairs(edges, |nodes|);
            var rank := EdgeRank(nodes, rel, selected, center, edges[kept[i]]);
            |Places(edges, (e: Edge) => !KeyLess(rank, EdgeRank(nodes, rel, selected, center, e)))| > i
  {
    hide PriorityKey, EdgeRank, IndexPairs;
    var rel := IndexPairs(edges, |nodes|);
    var rank := EdgeRank(nodes, rel, selected, center, edges[kept[i]]);
    var p := (e: Edge) => !KeyLess(rank, EdgeRank(nodes, rel, selected, center, e));
    var first := kept[..i + 1];
    forall k | 0 <= k <= i
      ensures first[k] in Places(edges, p)
    {
      if k < i {
        assert Outranks(nodes, edges, selected, center, kept[k], kept[i]);
        WeakRank(nodes, edges, selected, center, kept[k], kept[i]);
      }
    }
    KeptDistinct(nodes, edges, selected, center, limit, kept);
    DistinctCount(first);
    SubsetCount(Elements(first), Places(edges, p));
  }

  lemma KeptDistinct(nodes: seq<Node>, edges: seq<Edge>, selected: int, center: int, limit: int, kept: seq<int>)
    requires TopPositions(nodes, edges, selected, center, limit, kept)
    ensures forall i, j :: 0 <= i < j < |kept| ==> kept[i] != kept[j]
  {
    hide PriorityKey;
    forall i, j | 0 <= i < j < |kept|
      ensures kept[i] != kept[j]
    {
      assert Outranks(nodes, edges, selected, center, kept[i], kept[j]);
      OutranksOneWay(nodes, edges, selected, center, kept[i], kept[j]);
    }
  }

  /** and only edges before it can rank higher. */
  lemma AtMost(nodes: seq<Node>, edges: seq<Edge>, selected: int, center: int, limit: int, kept: seq<int>, i: int,
               rank: Key)
    requires EdgesInRange(edges, |nodes|) && TopPositions(nodes, edges, selected, center, limit, kept) && 0 <= i < limit
    requires KeyLess(rank, EdgeRank(nodes, IndexPairs(edges, |nodes|), selected, center, edges[kept[i]]))
    ensures var rel := IndexPairs(edges, |nodes|);
            |Places(edges, (e: Edge) => !KeyLess(rank, EdgeRank(nodes, rel, selected, center, e)))| <= i
  {
    hide PriorityKey, EdgeRank, IndexPairs;
    var rel := IndexPairs(edges, |nodes|);
    var own := EdgeRank(nodes, rel, selected, center, edges[kept[i]]);
    var p := (e: Edge) => !KeyLess(rank, EdgeRank(nodes, rel, selected, center, e));
    var first := kept[..i];
    forall d | d in Places(edges, p)
      ensures d in first
    {
      if d in kept {
        var k :| 0 <= k < limit && kept[k] == d;
        if k > i {
          assert Outranks(nodes, edges, selected, center, kept[i], d);
          WeakRank(nodes, edges, selected, center, kept[i], d);
          NotLessThrough(rank, own, EdgeRank(nodes, rel, selected, center, edges[d]));
        } else {
          assert k < i;
          assert first[k] == d;
        }
      } else {
        assert Outranks(nodes, edges, selected, center, kept[i], d);
        WeakRank(nodes, edges, selected, center, kept[i], d);
        NotLessThrough(rank, own, EdgeRank(nodes, rel, selected, center, edges[d]));
      }
    }
    KeptDistinct(nodes, edges, selected, center, limit, kept);
    DistinctCount(first);
    SubsetCount(Places(edges, p), Elements(first));
  }

  /** Both edges join the same two positions, in whichever direction. */
  ghost predicate SamePair(e: Edge, f: Edge) {
    Min(e.from, e.to) == Min(f.from, f.to) && Max(e.from, e.to) == Max(f.from, f.to)
  }

  lemma RankNotLess(nodes: seq<Node>, a: seq<Edge>, b: seq<Edge>, selected: int, center: int, limit: int,
                    keptA: seq<int>, keptB: seq<int>, i: int)
    requires EdgesInRange(a, |nodes|) && EdgesInRange(b, |nodes|) && multiset(a) == multiset(b)
    requires IndexPairs(a, |nodes|) == IndexPairs(b, |nodes|)
    requires TopPositions(nodes, a, selected, center, limit, keptA)
    requires TopPositions(nodes, b, selected, center, limit, keptB) && 0 <= i < limit
    ensures var rel := IndexPairs(a, |nodes|);
            !KeyLess(EdgeRank(nodes, rel, selected, center, a[keptA[i]]),
                     EdgeRank(nodes, rel, selected, center, b[keptB[i]]))
  {
    hide PriorityKey, EdgeRank, IndexPairs, Outranks, KeyLess;
    var rel := IndexPairs(a, |nodes|);
    var rank := EdgeRank(nodes, rel, selected, center, a[keptA[i]]);
    var p := (e: Edge) => !KeyLess(rank, EdgeRank(nodes, rel, selected, center, e));
    AtLeast(nodes, a, selected, center, limit, keptA, i);
    if KeyLess(rank, EdgeRank(nodes, rel, selected, center, b[keptB[i]])) {
      AtMost(nodes, b, selected, center, limit, keptB, i, rank);
      PlacesCount(a, p);
      PlacesCount(b, p);
      CountIfSame(a, b, p);
      assert false;
    }
  }

  /** Cut to the limit, two listings of the same edges agree pair by pair. */
  lemma CutsAgree(nodes: seq<Node>, a: seq<Edge>, b: seq<Edge>, selected: int, center: int, limit: int, a': seq<Edge>,
                  b': seq<Edge>)
    requires EdgesInRange(a, |nodes|) && EdgesInRange(b, |nodes|) && multiset(a) == multiset(b) && |a| > limit
    requires EdgesPrioritized(nodes, a, selected, center, limit, a')
    requires EdgesPrioritized(nodes, b, selected, center, limit, b')
    ensures |a'| == |b'| == limit && forall i :: 0 <= i < limit ==> SamePair(a'[i], b'[i])
  {
    hide PriorityKey, EdgeRank, IndexPairs, TopPositions, KeyLess;
    assert |multiset(a)| == |multiset(b)|;
    var keptA :| TopPositions(nodes, a, selected, center, limit, keptA) && Picked(a, keptA, a');
    var keptB :| TopPositions(nodes, b, selected, center, limit, keptB) && Picked(b, keptB, b');
    KeptLength(nodes, a, selected, center, limit, keptA);
    KeptLength(nodes, b, selected, center, limit, keptB);
    SamePairsRelation(nodes, a, b);
    forall i | 0 <= i < limit
      ensures SamePair(a'[i], b'[i])
    {
      RankNotLess(nodes, a, b, selected, center, limit, keptA, keptB, i);
      RankNotLess(nodes, b, a, selected, center, limit, keptB, keptA, i);
      EqualRankSamePair(nodes, IndexPairs(a, |nodes|), selected, center, a'[i], b'[i]);
    }
  }

  lemma KeptLength(nodes: seq<Node>, edges: seq<Edge>, selected: int, center: int, limit: int, kept: seq<int>)
    requires TopPositions(nodes, edges, selected, center, limit, kept)
    ensures |kept| == limit
  {
  }

  lemma SamePairsRelation(nodes: seq<Node>, a: seq<Edge>, b: seq<Edge>)
    requires multiset(a) == multiset(b)
    ensures IndexPairs(a, |nodes|) == IndexPairs(b, |nodes|)
  {
    hide IndexPairs;
    forall e: Edge
      ensures e in a <==> e in b
    {
      assert e in a <==> e in multiset(a);
      assert e in b <==> e in multiset(b);
    }
    PairsWithin(a, b, |nodes|);
    PairsWithin(b, a, |nodes|);
  }

  lemma EqualRankSamePair(nodes: seq<Node>, rel: Relation, selected: int, center: int, e: Edge, f: Edge)
    requires !KeyLess(EdgeRank(nodes, rel, selected, center, e), EdgeRank(nodes, rel, selected, center, f))
    requires !KeyLess(EdgeRank(nodes, rel, selected, center, f), EdgeRank(nodes, rel, selected, center, e))
    ensures SamePair(e, f)
  {
    hide Distance, SelectedIndex, IndexOf;
  }

  /** Two loads that hold each link equally often end with the same pairs: with the same edges, equally often, within
      the limit, and over it with edges that join the same two positions place by place. Only which of several links
      between the same two items are shown may differ, because the program goes by position there. */
  lemma PairsCanonical(filter: NodeFilter, selected: int, center: int, mode: SortMode, limit: int,
                       nodesA: seq<Node>, edgesA: seq<Edge>, nodesB: seq<Node>, edgesB: seq<Edge>,
                       finalA: seq<Node>, edgesA': seq<Edge>, finalB: seq<Node>, edgesB': seq<Edge>)
    requires DistinctIds(nodesA) && DistinctIds(nodesB) && SameMultigraph(nodesA, edgesA, nodesB, edgesB)
    requires PassesRun(filter, selected, center, mode, limit, nodesA, edgesA, finalA, edgesA')
    requires PassesRun(filter, selected, center, mode, limit, nodesB, edgesB, finalB, edgesB')
    ensures finalA == finalB && |edgesA'| == |edgesB'|
    ensures Staying(filter, nodesA, edgesA) == Staying(filter, nodesB, edgesB)
    ensures Staying(filter, nodesA, edgesA) <= limit ==> multiset(edgesA') == multiset(edgesB')
    ensures Staying(filter, nodesA, edgesA) > limit ==>
            |edgesA'| == limit && forall i :: 0 <= i < limit ==> SamePair(edgesA'[i], edgesB'[i])
  {
    hide PassesRun, DistinctIds, Drawn, Staying, SamePair, TopPositions, BareNodes;
    MultigraphIsGraph(nodesA, edgesA, nodesB, edgesB);
    PipelineIsCanonical(filter, selected, center, mode, limit, nodesA, edgesA, nodesB, edgesB,
                        finalA, edgesA', finalB, edgesB');
    var a := BeforeTheCutDrawn(filter, selected, center, mode, limit, nodesA, edgesA, finalA, edgesA');
    var b := BeforeTheCutDrawn(filter, selected, center, mode, limit, nodesB, edgesB, finalB, edgesB');
    forall l: Link
      ensures Drawn(finalA, a, l) == Drawn(finalA, b, l)
    {
      assert KeptDrawn(filter, nodesA, edgesA, l) == KeptDrawn(filter, nodesB, edgesB, l);
    }
    SameEdgeCounts(finalA, a, b);
    assert |multiset(a)| == |multiset(b)|;
    if |a| > limit {
      CutsAgree(finalA, a, b, selected, center, limit, edgesA', edgesB');
    }
  }
}
