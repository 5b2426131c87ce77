/** Walks in a finite symmetric relation. Node indices, item ids and database links are all
    measured with this one notion of hop count. */
module Walks {
  import opened Limits

  type Relation = set<(int, int)>

  /** A walk of exactly `hops` steps of `rel` leads from `source` to `v`. */
  ghost predicate Walk(rel: Relation, source: int, hops: nat, v: int) {
    if hops == 0 then v == source
    else exists u :: (u, v) in rel && Walk(rel, source, hops - 1, u)
  }

  ghost predicate Within(rel: Relation, source: int, hops: nat, v: int) {
    exists k: nat :: k <= hops && Walk(rel, source, k, v)
  }

  /** `d` is the length of a shortest walk from `source` to `v`, or the sentinel when there is none. */
  ghost predicate ExactDistance(rel: Relation, source: int, v: int, d: int) {
    || (d == UNREACHABLE && forall k: nat :: !Walk(rel, source, k, v))
    || (0 <= d < UNREACHABLE && Walk(rel, source, d, v) && forall k: nat | k < d :: !Walk(rel, source, k, v))
  }

  lemma ExactDistanceUnique(rel: Relation, source: int, v: int, d: int, e: int)
    requires ExactDistance(rel, source, v, d) && ExactDistance(rel, source, v, e)
    ensures d == e
  {
  }

  /** A level that grows by at most one along every step bounds every walk from below. */
  lemma {:induction false} LevelBoundsWalk(rel: Relation, source: int, level: map<int, int>, hops: nat, v: int)
    requires source in level && level[source] == 0
    requires forall u, w :: (u, w) in rel && u in level ==> w in level && level[w] <= level[u] + 1
    requires Walk(rel, source, hops, v)
    ensures v in level && level[v] <= hops
  {
    if hops > 0 {
      var u :| (u, v) in rel && Walk(rel, source, hops - 1, u);
      LevelBoundsWalk(rel, source, level, hops - 1, u);
    }
  }

  /** Walks survive growing the relation. */
  lemma {:induction false} WalkMonotone(small: Relation, large: Relation, source: int, hops: nat, v: int)
    requires small <= large
    requires Walk(small, source, hops, v)
    ensures Walk(large, source, hops, v)
  {
    if hops > 0 {
      var u :| (u, v) in small && Walk(small, source, hops - 1, u);
      WalkMonotone(small, large, source, hops - 1, u);
    }
  }

  /** Renaming the points of a relation carries its walks along, as long as each step is carried. */
  lemma {:induction false} WalkRename(rel: Relation, source: int, hops: nat, v: int,
                                      renamed: Relation, name: map<int, int>)
    requires source in name
    requires forall u, w :: (u, w) in rel ==> u in name && w in name && (name[u], name[w]) in renamed
    requires Walk(rel, source, hops, v)
    ensures v in name && Walk(renamed, name[source], hops, name[v])
  {
    if hops > 0 {
      var u :| (u, v) in rel && Walk(rel, source, hops - 1, u);
      WalkRename(rel, source, hops - 1, u, renamed, name);
    }
  }

  /** A one-to-one renaming keeps exact distances. */
  lemma ExactDistanceRename(rel: Relation, source: int, v: int, d: int,
                            renamed: Relation, name: map<int, int>, back: map<int, int>)
    requires source in name && v in name
    requires forall u, w :: (u, w) in rel ==> u in name && w in name && (name[u], name[w]) in renamed
    requires forall a, b :: (a, b) in renamed ==> a in back && b in back && (back[a], back[b]) in rel
    requires forall u :: u in name ==> name[u] in back && back[name[u]] == u
    requires ExactDistance(rel, source, v, d)
    ensures ExactDistance(renamed, name[source], name[v], d)
  {
    forall k: nat | Walk(renamed, name[source], k, name[v])
      ensures Walk(rel, source, k, v)
    {
      WalkRename(renamed, name[source], k, name[v], rel, back);
    }
    if d != UNREACHABLE {
      WalkRename(rel, source, d, v, renamed, name);
    }
  }

  /** Nothing outside the relation is reached from a point it does not touch. */
  lemma UntouchedSource(rel: Relation, source: int, v: int)
    requires forall u, w :: (u, w) in rel ==> u != source
    requires v != source
    ensures ExactDistance(rel, source, v, UNREACHABLE)
  {
    forall k: nat
      ensures !Walk(rel, source, k, v)
    {
      NoWalkFromUntouched(rel, source, k, v);
    }
  }

  lemma {:induction false} NoWalkFromUntouched(rel: Relation, source: int, hops: nat, v: int)
    requires forall u, w :: (u, w) in rel ==> u != source
    requires v != source
    ensures !Walk(rel, source, hops, v)
  {
    if hops > 0 && Walk(rel, source, hops, v) {
      var u :| (u, v) in rel && Walk(rel, source, hops - 1, u);
      NoWalkFromUntouched(rel, source, hops - 1, u);
    }
  }

  /** The sentinel is never a real distance: exactness at zero says "is the source". */
  lemma DistanceZero(rel: Relation, source: int, v: int, d: int)
    requires ExactDistance(rel, source, v, d)
    ensures d == 0 <==> v == source
  {
    if v == source {
      assert Walk(rel, source, 0, v);
    }
  }
}
