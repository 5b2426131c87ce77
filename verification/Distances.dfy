/** Breadth-first distances over the edge buffer. */
module Distances {
  import opened Limits
  import opened Walks
  import opened GraphState

  /** What the queue and the distance array say while the search runs: `queue` holds exactly the
      reached positions, once each, ordered by distance, and every distance is the length of a walk. */
  ghost predicate Reached(rel: Relation, n: int, seed: int, dist: seq<int>, queue: seq<int>) {
    && |dist| == n <= NODE_LIMIT && 0 <= seed < n
    && 0 < |queue| && queue[0] == seed && dist[seed] == 0
    && InBuffer(dist, queue)
    && Ordered(dist, queue)
    && (forall v :: 0 <= v < n && v !in queue ==> dist[v] == UNREACHABLE)
    && (forall i :: 0 <= i < |queue| ==> dist[queue[i]] >= 0 && Walk(rel, seed, dist[queue[i]], queue[i]))
  }

  /** No position twice, nearer ones first, and none further out than its place in the queue. */
  ghost predicate Ordered(dist: seq<int>, queue: seq<int>)
    requires InBuffer(dist, queue)
  {
    && (forall i :: 0 <= i < |queue| ==> dist[queue[i]] <= i)
    && (forall i, j :: 0 <= i < j < |queue| ==> queue[i] != queue[j] && dist[queue[i]] <= dist[queue[j]])
  }

  ghost predicate InBuffer(dist: seq<int>, queue: seq<int>) {
    forall i :: 0 <= i < |queue| ==> 0 <= queue[i] < |dist|
  }

  /** No queued position is more than one step beyond position `c` of the queue. */
  ghost predicate Narrow(dist: seq<int>, queue: seq<int>, c: int)
    requires 0 <= c < |queue| && InBuffer(dist, queue)
  {
    forall j :: 0 <= j < |queue| ==> dist[queue[j]] <= dist[queue[c]] + 1
  }

  /** Every neighbour of the first `head` queued positions has been given its distance. */
  ghost predicate Settled(rel: Relation, dist: seq<int>, queue: seq<int>, head: int)
    requires 0 <= head <= |queue| && InBuffer(dist, queue)
  {
    forall i, w :: 0 <= i < head && (queue[i], w) in rel ==> 0 <= w < |dist| && dist[w] <= dist[queue[i]] + 1
  }

  /** The neighbour at the far end of edge `e`, or -1. */
  function Neighbor(e: Edge, current: int): int {
    if e.from == current then e.to else if e.to == current then e.from else -1
  }

  /** The picture while the edges of position `c` of the queue are being scanned; the first `e` are done. */
  ghost predicate Scanning(edges: seq<Edge>, n: int, seed: int, dist: seq<int>, queue: seq<int>, c: int, e: int) {
    && Reached(IndexPairs(edges, n), n, seed, dist, queue)
    && 0 <= c < |queue| && 0 <= e <= |edges|
    && Narrow(dist, queue, c)
    && Settled(IndexPairs(edges, n), dist, queue, c)
    && Scanned(edges, dist, queue[c], dist[queue[c]] + 1, e)
  }

  /** The neighbours of `u` over the first `e` edges are at most `depth` away. */
  ghost predicate Scanned(edges: seq<Edge>, dist: seq<int>, u: int, depth: int, e: int)
    requires e <= |edges|
  {
    forall k :: 0 <= k < e && 0 <= Neighbor(edges[k], u) < |dist| ==> dist[Neighbor(edges[k], u)] <= depth
  }

  lemma {:induction false} DistinctBelow(s: seq<int>, n: int)
    requires 0 <= n
    requires forall i :: 0 <= i < |s| ==> 0 <= s[i] < n
    requires forall i, j :: 0 <= i < j < |s| ==> s[i] != s[j]
    ensures |s| <= n
    decreases n
  {
    if s != [] {
      assert 0 <= s[0] < n;
      if k :| 0 <= k < |s| && s[k] == n - 1 {
        DistinctBelow(s[..k] + s[k + 1..], n - 1);
      } else {
        DistinctBelow(s, n - 1);
      }
    }
  }

  /** Reaching a new neighbour of the current position keeps the picture, and there is still room
      in the queue, so the search never has to drop a position. */
  lemma ReachNeighbor(rel: Relation, n: int, seed: int, dist: seq<int>, queue: seq<int>, c: int, w: int)
    requires Reached(rel, n, seed, dist, queue)
    requires 0 <= c < |queue| && Narrow(dist, queue, c)
    requires 0 <= w < n && (queue[c], w) in rel
    requires dist[w] > dist[queue[c]] + 1
    ensures w !in queue && |queue| < n
    ensures Reached(rel, n, seed, dist[w := dist[queue[c]] + 1], queue + [w])
    ensures Narrow(dist[w := dist[queue[c]] + 1], queue + [w], c)
  {
    var d := dist[queue[c]] + 1;
    NotYetQueued(rel, n, seed, dist, queue, c, w);
    WalkOn(rel, seed, d - 1, queue[c], w);
    hide Walk;
    RoomForOne(dist, queue, w);
    OrderExtends(dist, queue, c, w);
    hide Ordered, Narrow;
    forall v | 0 <= v < n && v !in queue + [w]
      ensures dist[w := d][v] == UNREACHABLE
    {
      assert w in queue + [w] && v !in queue;
    }
  }

  lemma OrderExtends(dist: seq<int>, queue: seq<int>, c: int, w: int)
    requires InBuffer(dist, queue) && Ordered(dist, queue)
    requires 0 <= c < |queue| && Narrow(dist, queue, c) && 0 <= w < |dist| && w !in queue
    ensures var d, q := dist[w := dist[queue[c]] + 1], queue + [w];
            InBuffer(d, q) && Ordered(d, q) && Narrow(d, q, c)
  {
  }

  lemma RoomForOne(dist: seq<int>, queue: seq<int>, w: int)
    requires InBuffer(dist, queue) && Ordered(dist, queue) && 0 <= w < |dist| && w !in queue
    ensures |queue| < |dist|
  {
    DistinctBelow(queue + [w], |dist|);
  }

  lemma NotYetQueued(rel: Relation, n: int, seed: int, dist: seq<int>, queue: seq<int>, c: int, w: int)
    requires Reached(rel, n, seed, dist, queue)
    requires 0 <= c < |queue| && Narrow(dist, queue, c)
    requires 0 <= w < n && dist[w] > dist[queue[c]] + 1
    ensures w !in queue
  {
  }

  lemma WalkOn(rel: Relation, seed: int, k: int, u: int, w: int)
    requires k >= 0 && Walk(rel, seed, k, u) && (u, w) in rel
    ensures Walk(rel, seed, k + 1, w)
  {
  }

  lemma ScanReaches(edges: seq<Edge>, n: int, seed: int, dist: seq<int>, queue: seq<int>, c: int, e: int)
    requires Scanning(edges, n, seed, dist, queue, c, e) && e < |edges|
    requires 0 <= Neighbor(edges[e], queue[c]) < n
    requires dist[Neighbor(edges[e], queue[c])] > dist[queue[c]] + 1
    ensures |queue| < n
    ensures var w := Neighbor(edges[e], queue[c]);
            Scanning(edges, n, seed, dist[w := dist[queue[c]] + 1], queue + [w], c, e + 1)
  {
    var w := Neighbor(edges[e], queue[c]);
    IndexPairsMember(edges, n, queue[c], w);
    ScanBounds(edges, n, seed, dist, queue, c, e);
    ReachNeighbor(IndexPairs(edges, n), n, seed, dist, queue, c, w);
    hide IndexPairs, Narrow, Reached, Settled, InBuffer, Scanned, Neighbor;
    SettledStays(IndexPairs(edges, n), dist, queue, c, w, dist[queue[c]] + 1);
    ScannedOneMore(edges, dist, queue[c], w, dist[queue[c]] + 1, e);
    assert (queue + [w])[c] == queue[c] != w;
  }

  lemma ScannedOneMore(edges: seq<Edge>, dist: seq<int>, u: int, w: int, depth: int, e: int)
    requires 0 <= e < |edges| && 0 <= w < |dist| && w == Neighbor(edges[e], u)
    requires Scanned(edges, dist, u, depth, e) && dist[w] > depth
    ensures Scanned(edges, dist[w := depth], u, depth, e + 1)
  {
  }

  /** Lowering the distance of a position not yet queued, and queueing it, unsettles nothing. */
  lemma SettledStays(rel: Relation, dist: seq<int>, queue: seq<int>, c: int, w: int, d: int)
    requires 0 <= c <= |queue| && InBuffer(dist, queue)
    requires Settled(rel, dist, queue, c)
    requires 0 <= w < |dist| && w !in queue && d <= dist[w]
    ensures InBuffer(dist[w := d], queue + [w]) && Settled(rel, dist[w := d], queue + [w], c)
  {
  }

  lemma ScanBounds(edges: seq<Edge>, n: int, seed: int, dist: seq<int>, queue: seq<int>, c: int, e: int)
    requires Scanning(edges, n, seed, dist, queue, c, e)
    ensures |dist| == n && 0 <= c < |queue| <= n && 0 <= queue[c] < n && 0 <= dist[queue[c]] < n
  {
    hide Walk, IndexPairs, Narrow, Settled;
    DistinctBelow(queue, n);
  }

  lemma ScanSkips(edges: seq<Edge>, n: int, seed: int, dist: seq<int>, queue: seq<int>, c: int, e: int)
    requires Scanning(edges, n, seed, dist, queue, c, e) && e < |edges|
    requires var w := Neighbor(edges[e], queue[c]);
             w < 0 || w >= n || dist[w] <= dist[queue[c]] + 1
    ensures Scanning(edges, n, seed, dist, queue, c, e + 1)
  {
  }

  /** With all edges scanned the position is settled, and scanning of the next one may start. */
  lemma ScanEnds(edges: seq<Edge>, n: int, seed: int, dist: seq<int>, queue: seq<int>, c: int)
    requires Scanning(edges, n, seed, dist, queue, c, |edges|)
    ensures Settled(IndexPairs(edges, n), dist, queue, c + 1)
    ensures c + 1 < |queue| ==> Scanning(edges, n, seed, dist, queue, c + 1, 0)
    ensures |queue| <= n
  {
    ScanBounds(edges, n, seed, dist, queue, c, |edges|);
    hide Walk, IndexPairs, Narrow;
    forall w | (queue[c], w) in IndexPairs(edges, n)
      ensures 0 <= w < n && dist[w] <= dist[queue[c]] + 1
    {
      hide Reached, Settled;
      JoinedByEdge(edges, n, queue[c], w);
    }
    if c + 1 < |queue| {
      NextIsNarrow(IndexPairs(edges, n), n, seed, dist, queue, c);
    }
    hide Reached;
  }

  lemma NextIsNarrow(rel: Relation, n: int, seed: int, dist: seq<int>, queue: seq<int>, c: int)
    requires 0 <= c && c + 1 < |queue| && Reached(rel, n, seed, dist, queue) && Narrow(dist, queue, c)
    ensures Narrow(dist, queue, c + 1)
  {
  }

  lemma JoinedByEdge(edges: seq<Edge>, n: int, v: int, w: int)
    requires (v, w) in IndexPairs(edges, n)
    ensures 0 <= w < n && exists k :: 0 <= k < |edges| && Neighbor(edges[k], v) == w
  {
  }

  lemma SearchStarts(edges: seq<Edge>, n: int, seed: int, dist: seq<int>)
    requires |dist| == n <= NODE_LIMIT && 0 <= seed < n
    requires forall v :: 0 <= v < n ==> dist[v] == if v == seed then 0 else UNREACHABLE
    ensures Scanning(edges, n, seed, dist, [seed], 0, 0)
  {
  }

  lemma QueueIsClosed(rel: Relation, n: int, seed: int, dist: seq<int>, queue: seq<int>, level: map<int, int>)
    requires Reached(rel, n, seed, dist, queue) && |queue| <= n && Settled(rel, dist, queue, |queue|)
    requires level == map u | u in queue :: dist[u]
    ensures forall u, w :: (u, w) in rel && u in level ==> w in level && level[w] <= level[u] + 1
  {
    forall u, w | (u, w) in rel && u in level
      ensures w in level && level[w] <= level[u] + 1
    {
      var i :| 0 <= i < |queue| && queue[i] == u;
      assert dist[w] <= dist[queue[i]] + 1;
    }
  }

  /** When the last queued position has been scanned, the array holds exact distances. */
  lemma SettledIsExact(edges: seq<Edge>, n: int, seed: int, dist: seq<int>, queue: seq<int>, v: int)
    requires queue != [] && Scanning(edges, n, seed, dist, queue, |queue| - 1, |edges|)
    requires 0 <= v < n
    ensures ExactDistance(IndexPairs(edges, n), seed, v, dist[v])
  {
    ScanEnds(edges, n, seed, dist, queue, |queue| - 1);
    hide Walk, IndexPairs, ExactDistance, Narrow, Scanned, Settled, Reached, Ordered, InBuffer;
    QueuedIsExact(IndexPairs(edges, n), n, seed, dist, queue, v);
  }

  lemma QueuedIsExact(rel: Relation, n: int, seed: int, dist: seq<int>, queue: seq<int>, v: int)
    requires Reached(rel, n, seed, dist, queue) && |queue| <= n && Settled(rel, dist, queue, |queue|)
    requires 0 <= v < n
    ensures ExactDistance(rel, seed, v, dist[v])
  {
    hide Walk;
    var level := map u | u in queue :: dist[u];
    QueueIsClosed(rel, n, seed, dist, queue, level);
    forall k: nat | Walk(rel, seed, k, v)
      ensures v in queue && dist[v] <= k
    {
      LevelBoundsWalk(rel, seed, level, k, v);
    }
  }

  /** Fills `distances` with the length of a shortest undirected path from `seed`, or the sentinel. */
  method ComputeNodeDistances(g: GraphView, nodeCount: int, edgeCount: int, seed: int, distances: array<int>)
    requires nodeCount <= NODE_LIMIT && distances.Length == nodeCount
    requires 0 <= edgeCount <= g.edges.Length
    modifies distances
    ensures forall v :: 0 <= v < nodeCount ==>
      ExactDistance(IndexPairs(g.edges[..edgeCount], nodeCount), seed, v, distances[v])
  {
    hide Scanning, ExactDistance;
    var queue := new int[NODE_LIMIT];
    var head, tail := 0, 0;
    ghost var edges := g.edges[..edgeCount];
    ghost var rel := IndexPairs(edges, nodeCount);

    if nodeCount <= 0 {
      return;
    }
    for i := 0 to nodeCount
      invariant forall k :: 0 <= k < i ==> distances[k] == UNREACHABLE
    {
      distances[i] := UNREACHABLE;
    }
    if seed < 0 || seed >= nodeCount {
      forall v | 0 <= v < nodeCount
        ensures ExactDistance(rel, seed, v, distances[v])
      {
        UntouchedSource(rel, seed, v);
      }
      return;
    }

    distances[seed] := 0;
    queue[tail] := seed;
    tail := tail + 1;
    ghost var dist, reached := distances[..], [seed];
    SearchStarts(edges, nodeCount, seed, dist);
    assert queue[..tail] == reached;

    while head < tail
      invariant 0 <= head <= tail <= nodeCount
      invariant distances[..] == dist && queue[..tail] == reached
      invariant if head < tail then Scanning(edges, nodeCount, seed, dist, reached, head, 0)
                else Scanning(edges, nodeCount, seed, dist, reached, head - 1, edgeCount)
      decreases nodeCount - head
    {
      dist, reached, tail := ScanNeighbors(g, nodeCount, edgeCount, seed, distances, queue, head, tail, dist, reached);
      ScanEnds(edges, nodeCount, seed, dist, reached, head);
      head := head + 1;
    }
    forall v | 0 <= v < nodeCount
      ensures ExactDistance(rel, seed, v, distances[v])
    {
      SettledIsExact(edges, nodeCount, seed, dist, reached, v);
    }
  }

  /** Gives a distance to every new neighbour of the position at `head`, and queues it. */
  method ScanNeighbors(g: GraphView, nodeCount: int, edgeCount: int, ghost seed: int,
                       distances: array<int>, queue: array<int>, head: int, from: int,
                       ghost was: seq<int>, ghost before: seq<int>)
      returns (ghost dist: seq<int>, ghost reached: seq<int>, tail: int)
    requires distances != queue && distances.Length == nodeCount <= NODE_LIMIT == queue.Length
    requires 0 <= edgeCount <= g.edges.Length
    requires 0 <= head < from <= nodeCount
    requires distances[..] == was && queue[..from] == before
    requires Scanning(g.edges[..edgeCount], nodeCount, seed, was, before, head, 0)
    modifies distances, queue
    ensures from <= tail <= nodeCount
    ensures distances[..] == dist && queue[..tail] == reached
    ensures Scanning(g.edges[..edgeCount], nodeCount, seed, dist, reached, head, edgeCount)
  {
    hide Scanning;
    dist, reached, tail := was, before, from;
    ghost var edges := g.edges[..edgeCount];
    var current := queue[head];
    ScanBounds(edges, nodeCount, seed, dist, reached, head, 0);
    var nextDistance := distances[current] + 1;
    for i := 0 to edgeCount
      invariant from <= tail <= nodeCount
      invariant distances[..] == dist && queue[..tail] == reached
      invariant reached[head] == current && dist[current] + 1 == nextDistance
      invariant Scanning(edges, nodeCount, seed, dist, reached, head, i)
    {
      assert edges[i] == g.edges[i];
      var neighbor := -1;
      if g.edges[i].from == current {
        neighbor := g.edges[i].to;
      } else if g.edges[i].to == current {
        neighbor := g.edges[i].from;
      }
      if neighbor < 0 || neighbor >= nodeCount {
        ScanSkips(edges, nodeCount, seed, dist, reached, head, i);
        continue;
      }
      if distances[neighbor] <= nextDistance {
        ScanSkips(edges, nodeCount, seed, dist, reached, head, i);
        continue;
      }
      ScanReaches(edges, nodeCount, seed, dist, reached, head, i);
      dist, reached := dist[neighbor := nextDistance], reached + [neighbor];
      distances[neighbor] := nextDistance;
      if tail < NODE_LIMIT {
        queue[tail] := neighbor;
        tail := tail + 1;
      }
    }
  }
}
