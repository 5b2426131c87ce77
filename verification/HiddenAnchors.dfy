/** The anchors the user has hidden: a bounded list of item ids without repetition, kept in an array with a count. */
module HiddenAnchors {
  import opened Limits
  import opened KeyOrder
  import opened Prefs

  /** The list without the first `id`. */
  function Without(ids: seq<int>, id: int): seq<int> {
    if ids == [] then [] else if ids[0] == id then ids[1..] else [ids[0]] + Without(ids[1..], id)
  }

  function WithHidden(ids: seq<int>, id: int, hidden: bool): seq<int> {
    if !hidden then Without(ids, id) else if id in ids || |ids| >= NODE_LIMIT then ids else ids + [id]
  }

  function Toggled(ids: seq<int>, id: int): seq<int> {
    WithHidden(ids, id, id !in ids)
  }

  lemma {:induction false} WithoutFacts(ids: seq<int>, id: int)
    requires PositiveAndDistinct(ids)
    ensures PositiveAndDistinct(Without(ids, id)) && Elements(Without(ids, id)) == Elements(ids) - {id}
    ensures |Without(ids, id)| == |ids| - if id in ids then 1 else 0
  {
    if id in ids {
      var k :| 0 <= k < |ids| && ids[k] == id;
      PlaceIsFirst(ids, k);
      WithoutSplits(ids, k);
      GapFacts(ids, k, Without(ids, id));
    } else {
      AbsentStays(ids, id);
    }
  }

  lemma PlaceIsFirst(ids: seq<int>, k: int)
    requires PositiveAndDistinct(ids) && 0 <= k < |ids|
    ensures ids[k] !in ids[..k]
  {
  }

  lemma GapFacts(ids: seq<int>, k: int, rest: seq<int>)
    requires PositiveAndDistinct(ids) && 0 <= k < |ids| && rest == ids[..k] + ids[k + 1..]
    ensures PositiveAndDistinct(rest) && Elements(rest) == Elements(ids) - {ids[k]}
  {
  }

  /** Only the first occurrence goes. */
  lemma {:induction false} WithoutSplits(ids: seq<int>, k: int)
    requires 0 <= k < |ids| && ids[k] !in ids[..k]
    ensures Without(ids, ids[k]) == ids[..k] + ids[k + 1..]
  {
    if k > 0 {
      var tail := ids[1..];
      assert tail[k - 1] == ids[k] && ids[..k] == [ids[0]] + tail[..k - 1];
      WithoutSplits(tail, k - 1);
      hide Without;
      assert tail[k..] == ids[k + 1..];
    }
  }

  /** Hiding and showing keep the list free of repetition and within its bound. */
  lemma HidingKeepsDistinct(ids: seq<int>, id: int, hidden: bool)
    requires PositiveAndDistinct(ids) && |ids| <= NODE_LIMIT && id > 0
    ensures PositiveAndDistinct(WithHidden(ids, id, hidden)) && |WithHidden(ids, id, hidden)| <= NODE_LIMIT
  {
    WithoutFacts(ids, id);
  }

  /** Hiding adds the anchor at the end if there is room, showing takes it out, and every other anchor stays as it is.
      */
  lemma HidingIsExact(ids: seq<int>, id: int, hidden: bool, other: int)
    requires PositiveAndDistinct(ids) && |ids| <= 128 && id > 0
    ensures var now := WithHidden(ids, id, hidden);
      && (other != id ==> (other in now <==> other in ids))
      && (hidden ==> now == (if id in ids || |ids| == 128 then ids else ids + [id]))
      && (!hidden ==> id !in now)
      && (!hidden ==> forall k :: 0 <= k < |ids| && ids[k] == id ==> now == ids[..k] + ids[k + 1..])
  {
    WithoutFacts(ids, id);
    var rest := Without(ids, id);
    assert forall x :: x in rest <==> x in Elements(rest);
    if k :| 0 <= k < |ids| && ids[k] == id {
      PlaceIsFirst(ids, k);
      WithoutSplits(ids, k);
      OnlyPlace(ids, k);
    }
  }

  lemma OnlyPlace(ids: seq<int>, k: int)
    requires PositiveAndDistinct(ids) && 0 <= k < |ids|
    ensures forall j :: 0 <= j < |ids| && ids[j] == ids[k] ==> j == k
  {
  }

  datatype Change = Set(id: int, hidden: bool) | Toggle(id: int)

  function ChangeStep(ids: seq<int>, c: Change): seq<int> {
    if c.id <= 0 then ids else if c.Set? then WithHidden(ids, c.id, c.hidden) else Toggled(ids, c.id)
  }

  function ChangeRun(ids: seq<int>, changes: seq<Change>): seq<int>
    decreases changes
  {
    if changes == [] then ids else ChangeRun(ChangeStep(ids, changes[0]), changes[1..])
  }

  /** So every list the mutators can reach from an empty or loaded one is saved and loaded unchanged. */
  lemma {:induction false} RunsAreSavedUnchanged(ids: seq<int>, changes: seq<Change>)
    requires PositiveAndDistinct(ids) && |ids| <= NODE_LIMIT
    ensures var now := ChangeRun(ids, changes);
            PositiveAndDistinct(now) && |now| <= NODE_LIMIT && HiddenIds(IdSlots(Dedup(HiddenIds(IdSlots(now))))) == now
    decreases changes
  {
    if changes == [] {
      HiddenOfSlots(ids);
      DedupFacts(ids);
    } else {
      var c := changes[0];
      if c.id > 0 {
        HidingKeepsDistinct(ids, c.id, if c.Set? then c.hidden else c.id !in ids);
      }
      RunsAreSavedUnchanged(ChangeStep(ids, c), changes[1..]);
    }
  }

  /** Toggling twice gives the same anchors back, in the same order exactly if the toggled one was absent or last. */
  lemma ToggleTwice(ids: seq<int>, id: int)
    requires PositiveAndDistinct(ids) && |ids| <= NODE_LIMIT && id > 0
    ensures Elements(Toggled(Toggled(ids, id), id)) == Elements(ids)
    ensures Toggled(Toggled(ids, id), id) == ids <==> id !in ids || ids[|ids| - 1] == id
  {
    hide Without, PositiveAndDistinct, Elements;
    if id in ids {
      var k :| 0 <= k < |ids| && ids[k] == id;
      WithoutFacts(ids, id);
      PlaceIsFirst(ids, k);
      WithoutSplits(ids, k);
      GoesLast(ids, k, Without(ids, id));
    } else if |ids| < NODE_LIMIT {
      AddedIsDistinct(ids, id);
      PlaceIsFirst(ids + [id], |ids|);
      GoesLast(ids + [id], |ids|, ids);
      WithoutSplits(ids + [id], |ids|);
      assert ids + [] == ids;
    }
  }

  lemma AddedIsDistinct(ids: seq<int>, id: int)
    requires PositiveAndDistinct(ids) && id > 0 && id !in ids
    ensures PositiveAndDistinct(ids + [id])
    ensures (ids + [id])[..|ids|] == ids && (ids + [id])[|ids| + 1..] == []
  {
  }

  /** Taken out of its place and put at the end. */
  lemma GoesLast(ids: seq<int>, k: int, rest: seq<int>)
    requires PositiveAndDistinct(ids) && 0 <= k < |ids| && rest == ids[..k] + ids[k + 1..]
    ensures Elements(rest + [ids[k]]) == Elements(ids) && ids[k] !in rest
    ensures rest + [ids[k]] == ids <==> ids[|ids| - 1] == ids[k]
  {
  }

  /** The toggle reports what it meant to do: it is wrong exactly when the list was full and the anchor not in it. */
  lemma ToggleReport(ids: seq<int>, id: int)
    requires PositiveAndDistinct(ids) && |ids| <= NODE_LIMIT && id > 0
    ensures (id !in ids <==> id in Toggled(ids, id)) <==> !(id !in ids && |ids| == NODE_LIMIT)
  {
    WithoutFacts(ids, id);
    assert id in Without(ids, id) ==> id in Elements(Without(ids, id));
  }

  class AnchorList {
    const ids: array<int>
    var count: int

    ghost predicate Valid()
      reads this
    {
      ids.Length == NODE_LIMIT
    }

    ghost function Live(): seq<int>
      reads this, ids
      requires Valid()
    {
      ids[..Clamp(count, 0, NODE_LIMIT)]
    }

    constructor ()
      ensures Valid() && fresh(ids) && Live() == []
    {
      ids := new int[NODE_LIMIT];
      count := 0;
    }

    method IsHidden(itemId: int) returns (hidden: bool)
      requires Valid()
      ensures hidden <==> itemId > 0 && itemId in Live()
    {
      if itemId <= 0 {
        return false;
      }
      var n := Clamp(count, 0, NODE_LIMIT);
      for i := 0 to n
        invariant itemId !in ids[..i]
      {
        if ids[i] == itemId {
          assert Live()[i] == itemId;
          return true;
        }
        assert ids[..i + 1] == ids[..i] + [ids[i]];
      }
      hidden := false;
    }

    /** Adds the anchor at the end, or closes the gap it leaves. */
    method SetHidden(itemId: int, hidden: bool) returns (changed: bool)
      requires Valid()
      modifies this`count, ids
      ensures Live() == if itemId <= 0 then old(Live()) else WithHidden(old(Live()), itemId, hidden)
      ensures changed <==> Live() != old(Live())
    {
      if itemId <= 0 {
        return false;
      }
      ghost var was := Live();
      count := Clamp(count, 0, NODE_LIMIT);
      var found := FindAnchor(itemId);
      assert found >= 0 ==> was[found] == itemId && was[..found] == ids[..found];
      if hidden {
        if found >= 0 || count >= NODE_LIMIT {
          return false;
        }
        ids[count] := itemId;
        count := count + 1;
        assert Live() == was + [itemId];
        return true;
      }
      if found < 0 {
        AbsentStays(was, itemId);
        return false;
      }
      WithoutSplits(was, found);
      CloseGap(found);
      changed := true;
    }

    method FindAnchor(itemId: int) returns (found: int)
      requires Valid() && 0 <= count <= NODE_LIMIT
      ensures if found < 0 then itemId !in Live() else found < count && ids[found] == itemId && itemId !in ids[..found]
    {
      for i := 0 to count
        invariant itemId !in ids[..i]
      {
        if ids[i] == itemId {
          return i;
        }
        assert ids[..i + 1] == ids[..i] + [ids[i]];
      }
      found := -1;
    }

    method CloseGap(found: int)
      requires Valid() && 0 <= found < count <= NODE_LIMIT
      modifies this`count, ids
      ensures Live() == old(Live()[..found] + Live()[found + 1..])
      ensures count == old(count) - 1
    {
      ghost var was := Live();
      var n := count;
      for i := found + 1 to n
        invariant forall k :: 0 <= k < found || i <= k < n ==> ids[k] == was[k]
        invariant forall k :: found < k < i ==> ids[k - 1] == was[k]
        modifies ids
      {
        ids[i - 1] := ids[i];
      }
      ghost var rest := was[..found] + was[found + 1..];
      forall k | 0 <= k < n - 1 ensures ids[k] == rest[k] {
        assert k >= found ==> ids[(k + 1) - 1] == was[k + 1];
      }
      ids[n - 1] := 0;
      count := n - 1;
      assert Live() == rest;
    }

    /** `nextHidden` is what the toggle reports; for an id that is none it reports nothing. */
    method ToggleHidden(itemId: int) returns (changed: bool, nextHidden: bool)
      requires Valid()
      modifies this`count, ids
      ensures Live() == if itemId <= 0 then old(Live()) else Toggled(old(Live()), itemId)
      ensures itemId > 0 ==> (nextHidden <==> itemId !in old(Live()))
      ensures changed <==> Live() != old(Live())
    {
      nextHidden := false;
      if itemId <= 0 {
        return false, nextHidden;
      }
      var was := IsHidden(itemId);
      nextHidden := !was;
      changed := SetHidden(itemId, nextHidden);
    }
  }

  lemma {:induction false} AbsentStays(ids: seq<int>, id: int)
    requires id !in ids
    ensures Without(ids, id) == ids
  {
    if ids != [] {
      AbsentStays(ids[1..], id);
    }
  }
}
