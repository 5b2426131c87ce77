/** Lexicographic sort keys, and the one step an insertion sort on an index array repeats. */
module KeyOrder {
  datatype Key = Key(k0: int, k1: int, k2: int, k3: int, k4: int, k5: int)

  predicate KeyLess(x: Key, y: Key) {
    x.k0 < y.k0 || (x.k0 == y.k0 && (
    x.k1 < y.k1 || (x.k1 == y.k1 && (
    x.k2 < y.k2 || (x.k2 == y.k2 && (
    x.k3 < y.k3 || (x.k3 == y.k3 && (
    x.k4 < y.k4 || (x.k4 == y.k4 &&
    x.k5 < y.k5)))))))))
  }

  /** `order` lists 0, ..., n-1, each once. */
  ghost predicate IsPermutation(order: seq<int>, n: int) {
    && |order| == n
    && (forall i :: 0 <= i < n ==> 0 <= order[i] < n)
    && (forall i, j :: 0 <= i < j < n ==> order[i] != order[j])
    && (forall v :: 0 <= v < n ==> v in order)
  }

  ghost predicate Precedes(keys: seq<Key>, a: int, b: int) {
    0 <= a < |keys| && 0 <= b < |keys| && KeyLess(keys[a], keys[b])
  }

  /** The first `hi` positions of `order` are in strictly increasing key order. */
  ghost predicate OrderedTo(keys: seq<Key>, order: seq<int>, hi: int) {
    0 <= hi <= |order| && forall i, j :: 0 <= i < j < hi ==> Precedes(keys, order[i], order[j])
  }

  ghost predicate DistinctKeys(keys: seq<Key>) {
    forall i, j :: 0 <= i < j < |keys| ==> keys[i] != keys[j]
  }

  /** Position `i` moved down to `p`, everything in between up by one. */
  function InsertAt(order: seq<int>, i: int, p: int): (r: seq<int>)
    requires 0 <= p <= i < |order|
  {
    order[..p] + [order[i]] + order[p..i] + order[i + 1..]
  }

  /** The shifting loop with its gap at `j + 1`: everything it has passed ranks behind `was[i]` and is one place up. */
  ghost predicate Shifting(keys: seq<Key>, was: seq<int>, now: seq<int>, i: int, j: int) {
    && |was| == |now| && -1 <= j < i < |was|
    && (forall k :: 0 <= k <= j || i < k < |was| ==> now[k] == was[k])
    && (forall k :: j + 1 < k <= i ==> now[k] == was[k - 1])
    && (forall k :: j < k < i ==> Precedes(keys, was[i], was[k]))
  }

  lemma ShiftingStarts(keys: seq<Key>, was: seq<int>, i: int)
    requires 0 < i < |was|
    ensures Shifting(keys, was, was, i, i - 1)
  {
  }

  lemma ShiftOne(keys: seq<Key>, was: seq<int>, now: seq<int>, i: int, j: int)
    requires Shifting(keys, was, now, i, j) && j >= 0
    ensures j + 1 < |now| && now[j] == was[j]
    ensures Precedes(keys, was[i], was[j]) ==> Shifting(keys, was, now[j + 1 := now[j]], i, j - 1)
  {
  }

  /** Putting `was[i]` into the gap, once the next one down does not rank behind it, extends the ordered prefix. */
  lemma ShiftingEnds(keys: seq<Key>, was: seq<int>, now: seq<int>, i: int, j: int)
    requires DistinctKeys(keys) && IsPermutation(was, |keys|) && OrderedTo(keys, was, i)
    requires Shifting(keys, was, now, i, j) && (j < 0 || !Precedes(keys, was[i], was[j]))
    ensures j + 1 < |now|
    ensures var after := now[j + 1 := was[i]]; IsPermutation(after, |keys|) && OrderedTo(keys, after, i + 1)
  {
    hide IsPermutation, OrderedTo, DistinctKeys;
    assert now[j + 1 := was[i]] == InsertAt(was, i, j + 1);
    InsertKeepsOrder(keys, was, i, j + 1);
  }

  lemma InsertKeepsPermutation(order: seq<int>, n: int, i: int, p: int)
    requires IsPermutation(order, n) && 0 <= p <= i < n
    ensures IsPermutation(InsertAt(order, i, p), n)
  {
    var now := InsertAt(order, i, p);
    forall v | 0 <= v < n
      ensures v in now
    {
      assert v in order;
      var k :| 0 <= k < n && order[k] == v;
      assert now[if k == i then p else if p <= k < i then k + 1 else k] == v;
    }
  }

  /** Inserting at the place the shifting loop stops at extends the ordered prefix by one. */
  lemma InsertKeepsOrder(keys: seq<Key>, order: seq<int>, i: int, p: int)
    requires DistinctKeys(keys) && IsPermutation(order, |keys|)
    requires 0 <= p <= i < |order| && OrderedTo(keys, order, i)
    requires forall k :: p <= k < i ==> Precedes(keys, order[i], order[k])
    requires p == 0 || !Precedes(keys, order[i], order[p - 1])
    ensures IsPermutation(InsertAt(order, i, p), |keys|)
    ensures OrderedTo(keys, InsertAt(order, i, p), i + 1)
  {
    InsertKeepsPermutation(order, |keys|, i, p);
    if p > 0 {
      assert Precedes(keys, order[p - 1], order[i]);
      assert forall k :: 0 <= k < p ==> Precedes(keys, order[k], order[i]);
    }
  }

  ghost predicate StrictlySorted<T>(s: seq<T>, key: T -> Key) {
    forall i, j :: 0 <= i < j < |s| ==> KeyLess(key(s[i]), key(s[j]))
  }

  ghost function Elements<T>(s: seq<T>): set<T> {
    set x | x in s
  }

  /** One set of elements has at most one strictly sorted listing. */
  lemma {:induction false} SortedListingUnique<T>(a: seq<T>, b: seq<T>, key: T -> Key)
    requires StrictlySorted(a, key) && StrictlySorted(b, key)
    requires Elements(a) == Elements(b)
    ensures a == b
  {
    NoElements(a);
    NoElements(b);
    if a != [] {
      assert a[0] in Elements(b);
      assert b[0] in Elements(a);
      assert a[0] == b[0];
      SortedTail(a, key);
      SortedTail(b, key);
      SortedListingUnique(a[1..], b[1..], key);
      assert a == [a[0]] + a[1..] && b == [b[0]] + b[1..];
    }
  }

  lemma NoElements<T>(s: seq<T>)
    ensures s == [] <==> Elements(s) == {}
  {
    if s != [] {
      assert s[0] in Elements(s);
    }
  }

  lemma SortedTail<T>(a: seq<T>, key: T -> Key)
    requires a != [] && StrictlySorted(a, key)
    ensures StrictlySorted(a[1..], key)
    ensures Elements(a[1..]) == Elements(a) - {a[0]}
  {
  }
}
