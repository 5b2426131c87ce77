/** What the loaders ask the database for and what ends up on the screen, told by the rows of the two tables. */
module ShownGraph {
  import opened Limits
  import opened Walks
  import opened AsciiText
  import opened KindFilters
  import opened GraphState
  import opened Database
  import opened GraphLoad

  // ----- which items and links are eligible

  /** The project is among the selected ones: one of the first sixteen keys in use, blank ones not counting. */
  ghost predicate ProjectSelected(count: int, keys: seq<string>, project: string) {
    exists i :: 0 <= i < count && i < 16 && i < |keys| && keys[i] != "" && keys[i] == project
  }

  /** Some of the sixteen slots of the query is unused, and the project has the name that fills such slots. */
  ghost predicate FillerSelected(count: int, keys: seq<string>, project: string) {
    && project == "__mem_console_unused_filter__"
    && exists i :: 0 <= i < 16 && !(i < count && i < |keys| && keys[i] != "")
  }

  /** An item is in scope if no project is selected or its own is. (A project that has the filler's name slips
      through.) */
  lemma InScopeIff(count: int, keys: seq<string>, item: Item)
    ensures InScope(ScopeOf(count, keys), item) <==>
            (count <= 0 || ProjectSelected(count, keys, item.projectKey) ||
             FillerSelected(count, keys, item.projectKey))
  {
    var s := ScopeOf(count, keys);
    assert s.count == 0 <==> count <= 0;
    hide ScopeOf;
    KeyInSlots(count, keys, item.projectKey);
  }

  predicate InUse(count: int, keys: seq<string>, i: int) {
    0 <= i < count && i < |keys| && keys[i] != ""
  }

  lemma KeyInSlots(count: int, keys: seq<string>, key: string)
    ensures key in ScopeOf(count, keys).keys <==>
            ProjectSelected(count, keys, key) || FillerSelected(count, keys, key)
  {
    var slots := ScopeOf(count, keys).keys;
    assert |slots| == 16;
    forall i | 0 <= i < 16
      ensures slots[i] == if InUse(count, keys, i) then keys[i] else "__mem_console_unused_filter__"
    {
    }
    hide ScopeOf;
    if key in slots {
      var i :| 0 <= i < |slots| && slots[i] == key;
      assert InUse(count, keys, i) || key == "__mem_console_unused_filter__";
    }
    if ProjectSelected(count, keys, key) {
      var i :| 0 <= i < count && i < 16 && i < |keys| && keys[i] != "" && keys[i] == key;
      assert InUse(count, keys, i) && slots[i] == key;
    }
    if FillerSelected(count, keys, key) {
      var i :| 0 <= i < 16 && !(i < count && i < |keys| && keys[i] != "");
      assert !InUse(count, keys, i) && slots[i] == key;
    }
  }

  /** The item exists, is not archived, and is in scope. */
  ghost predicate Eligible(db: Tables, s: Scope, id: int) {
    id in db.items && !db.items[id].archived && InScope(s, db.items[id])
  }

  /** A query uses a link if both its ends are eligible and its kind is the pushed-down text, if there is one. */
  lemma LinkOpenIff(db: Tables, s: Scope, text: string, l: LinkRow)
    ensures LinkOpen(db, s, text, l) <==>
            Eligible(db, s, l.fromId) && Eligible(db, s, l.toId) && (text == "" || l.kind == text)
  {
  }

  /** The recursive walk steps along such links, in either direction. */
  lemma WalksAlongLinks(db: Tables, s: Scope, text: string, a: int, b: int)
    ensures (a, b) in WalkPairs(db, s, text) <==>
            exists l :: l in db.links && LinkOpen(db, s, text, l) &&
                        ((l.fromId == a && l.toId == b) || (l.fromId == b && l.toId == a))
  {
    hide LinkOpen;
  }

  // ----- which rows a query returns

  /** What a query with a limit returns of the links it is about: the first by key, or the last, in that order. */
  ghost predicate TopRows(links: seq<LinkRow>, p: LinkRow -> bool, oldestFirst: bool, limit: nat, rows: seq<LinkRow>) {
    && |rows| <= limit
    && (forall l :: l in rows ==> l in links && p(l))
    && (forall i, j :: 0 <= i < j < |rows| ==> if oldestFirst then rows[i].id < rows[j].id else rows[i].id > rows[j].id)
    && (forall l, k :: l in links && p(l) && l !in rows && 0 <= k < |rows| ==>
         if oldestFirst then rows[k].id < l.id else rows[k].id > l.id)
    && (|rows| < limit ==> forall l :: l in links && p(l) ==> l in rows)
  }

  ghost predicate InKeyOrder(rows: seq<LinkRow>, oldestFirst: bool) {
    forall i, j :: 0 <= i < j < |rows| ==> if oldestFirst then rows[i].id < rows[j].id else rows[i].id > rows[j].id
  }

  lemma {:induction false} ReversedOrder(rows: seq<LinkRow>)
    requires InKeyOrder(rows, true)
    ensures InKeyOrder(Reversed(rows), false) && forall l :: l in Reversed(rows) <==> l in rows
  {
    if rows != [] {
      var rest := rows[1..];
      ReversedOrder(rest);
      assert rows == [rows[0]] + rest;
      assert forall l :: l in rest ==> rows[0].id < l.id;
      assert forall i :: 0 <= i < |Reversed(rest)| ==> Reversed(rest)[i] in rest;
    }
  }

  lemma {:induction false} WhereOrder(rows: seq<LinkRow>, p: LinkRow -> bool, oldestFirst: bool)
    requires InKeyOrder(rows, oldestFirst)
    ensures InKeyOrder(Where(rows, p), oldestFirst)
  {
    if rows != [] {
      var rest := rows[1..];
      assert rows == [rows[0]] + rest;
      TailOrder(rows[0], rest, oldestFirst);
      WhereOrder(rest, p, oldestFirst);
      WhereKeeps(rest, p);
      hide InKeyOrder;
      HeadOrder(rows[0], Where(rest, p), oldestFirst);
      assert [] + Where(rest, p) == Where(rest, p);
    }
  }

  lemma TailOrder(x: LinkRow, rest: seq<LinkRow>, oldestFirst: bool)
    requires InKeyOrder([x] + rest, oldestFirst)
    ensures InKeyOrder(rest, oldestFirst)
    ensures forall l :: l in rest ==> if oldestFirst then x.id < l.id else x.id > l.id
  {
    var all := [x] + rest;
    assert forall i :: 0 <= i < |rest| ==> all[i + 1] == rest[i];
    forall l | l in rest ensures if oldestFirst then x.id < l.id else x.id > l.id {
      var i :| 0 <= i < |rest| && rest[i] == l;
      assert all[0] == x && all[i + 1] == l;
    }
  }

  lemma HeadOrder(x: LinkRow, rest: seq<LinkRow>, oldestFirst: bool)
    requires InKeyOrder(rest, oldestFirst)
    requires forall l :: l in rest ==> if oldestFirst then x.id < l.id else x.id > l.id
    ensures InKeyOrder([x] + rest, oldestFirst)
  {
    assert forall i :: 0 <= i < |rest| ==> rest[i] in rest;
  }

  lemma LimitedIsTop(links: seq<LinkRow>, p: LinkRow -> bool, oldestFirst: bool, limit: nat)
    requires KeysIncrease(links)
    ensures TopRows(links, p, oldestFirst, limit, Limited(Where(InOrder(links, oldestFirst), p), limit))
  {
    assert InKeyOrder(links, true);
    ReversedOrder(links);
    var ordered := InOrder(links, oldestFirst);
    WhereOrder(ordered, p, oldestFirst);
    WhereKeeps(ordered, p);
    var all := Where(ordered, p);
    hide Where, Reversed;
    CutIsTop(links, p, oldestFirst, limit, all);
  }

  lemma CutIsTop(links: seq<LinkRow>, p: LinkRow -> bool, oldestFirst: bool, limit: nat, all: seq<LinkRow>)
    requires InKeyOrder(all, oldestFirst) && forall l :: l in all <==> l in links && p(l)
    ensures TopRows(links, p, oldestFirst, limit, Limited(all, limit))
  {
    var rows := Limited(all, limit);
    assert forall m :: 0 <= m < |rows| ==> rows[m] in rows && rows[m] == all[m];
    forall l, k | l in links && p(l) && l !in rows && 0 <= k < |rows|
      ensures if oldestFirst then rows[k].id < l.id else rows[k].id > l.id
    {
      assert l in all;
      var j :| 0 <= j < |all| && all[j] == l;
    }
  }

  /** The link query of a full-scope load. */
  lemma ScopeRowsAreTop(db: Tables, s: Scope, text: string, oldestFirst: bool, limit: nat)
    requires KeysIncrease(db.links)
    ensures TopRows(db.links,
                    (l: LinkRow) =>
                      Eligible(db, s, l.fromId) && Eligible(db, s, l.toId) && (text == "" || l.kind == text),
                    oldestFirst, limit, ScopeRows(db, s, text, oldestFirst, limit))
  {
    hide Eligible, LinkOpen;
    var p := (l: LinkRow) => LinkOpen(db, s, text, l);
    var q := (l: LinkRow) =>
      Eligible(db, s, l.fromId) && Eligible(db, s, l.toId) && (text == "" || l.kind == text);
    LimitedIsTop(db.links, p, oldestFirst, limit);
    forall l
      ensures p(l) == q(l)
    {
      LinkOpenIff(db, s, text, l);
    }
    SameTop(db.links, p, q, oldestFirst, limit, ScopeRows(db, s, text, oldestFirst, limit));
  }

  /** The link query of a focus load: in addition both ends are within the hops of the root. */
  lemma FocusRowsAreTop(db: Tables, s: Scope, text: string, root: int, hops: nat, oldestFirst: bool, limit: nat)
    requires KeysIncrease(db.links)
    ensures var rel := WalkPairs(db, s, text);
      TopRows(db.links,
              (l: LinkRow) => Eligible(db, s, l.fromId) && Eligible(db, s, l.toId) && (text == "" || l.kind == text) &&
                              Within(rel, root, hops, l.fromId) && Within(rel, root, hops, l.toId),
              oldestFirst, limit, FocusRows(db, s, text, root, hops, oldestFirst, limit))
  {
    hide Eligible, LinkOpen, Within, WalkPairs;
    var rel := WalkPairs(db, s, text);
    var p := (l: LinkRow) => LinkOpen(db, s, text, l)
      && Within(rel, root, hops, l.fromId) && Within(rel, root, hops, l.toId);
    var q := (l: LinkRow) => Eligible(db, s, l.fromId) && Eligible(db, s, l.toId) && (text == "" || l.kind == text) &&
                             Within(rel, root, hops, l.fromId) && Within(rel, root, hops, l.toId);
    FocusRowsAre(db, s, text, root, hops, oldestFirst, limit, p);
    LimitedIsTop(db.links, p, oldestFirst, limit);
    forall l
      ensures p(l) == q(l)
    {
      LinkOpenIff(db, s, text, l);
    }
    SameTop(db.links, p, q, oldestFirst, limit, FocusRows(db, s, text, root, hops, oldestFirst, limit));
  }

  lemma FocusRowsAre(db: Tables, s: Scope, text: string, root: int, hops: nat, oldestFirst: bool, limit: nat,
                     p: LinkRow -> bool)
    requires forall l :: p(l) == (LinkOpen(db, s, text, l) && Within(WalkPairs(db, s, text), root, hops, l.fromId)
                                  && Within(WalkPairs(db, s, text), root, hops, l.toId))
    ensures FocusRows(db, s, text, root, hops, oldestFirst, limit) ==
            Limited(Where(InOrder(db.links, oldestFirst), p), limit)
  {
    hide LinkOpen, Within, WalkPairs;
    WhereAgrees(InOrder(db.links, oldestFirst), p, (l: LinkRow) => LinkOpen(db, s, text, l)
      && Within(WalkPairs(db, s, text), root, hops, l.fromId) && Within(WalkPairs(db, s, text), root, hops, l.toId));
  }

  lemma SameTop(links: seq<LinkRow>, p: LinkRow -> bool, q: LinkRow -> bool, oldestFirst: bool, limit: nat,
                rows: seq<LinkRow>)
    requires TopRows(links, p, oldestFirst, limit, rows) && forall l :: p(l) == q(l)
    ensures TopRows(links, q, oldestFirst, limit, rows)
  {
  }

  // ----- what a node shows

  /** A text column fits its buffer; a clean one that does is shown as it is, and one that does not is cut at the end of
      the buffer, where one space may go too. */
  lemma TextIsShown(text: string, cap: nat)
    requires cap > 0
    ensures |Loaded(text, cap)| < cap
    ensures Clean(text) && |text| < cap ==> Loaded(text, cap) == text
    ensures Clean(text) && |text| >= cap ==>
            Loaded(text, cap) == if cap > 1 && text[cap - 2] == ' ' then text[..cap - 2] else text[..cap - 1]
  {
    NormalLength(Truncated(text, cap));
    if Clean(text) {
      if |text| < cap {
        CleanIsFixed(text);
      } else {
        CutText(text, cap - 1);
      }
    }
  }

  lemma NormalLength(s: string)
    ensures |NormalizeAscii(s)| <= |s|
  {
    FoldLength(s, false);
    TrimEndIsPrefix(Fold(s, false));
  }

  lemma {:induction false} FoldLength(s: string, lastWasSpace: bool)
    ensures |Fold(s, lastWasSpace)| <= |s|
  {
    if s != [] {
      FoldLength(s[1..], true);
      FoldLength(s[1..], false);
      FoldLength(s[1..], lastWasSpace);
    }
  }

  lemma CutText(text: string, n: nat)
    requires Clean(text) && n <= |text|
    ensures NormalizeAscii(text[..n]) == if n > 0 && text[n - 1] == ' ' then text[..n - 1] else text[..n]
  {
    if n > 0 && text[n - 1] == ' ' {
      assert text[..n] == text[..n - 1] + " ";
      if n > 1 {
        assert text[n - 2] != ' ';
        TrailingSpaceGoes(text[..n - 1]);
      } else {
        assert text[..n] == " ";
        SpaceAlone();
      }
    } else {
      CleanIsFixed(text[..n]);
    }
  }

  lemma SpaceAlone()
    ensures NormalizeAscii(" ") == ""
  {
    assert Fold(" ", false) == " ";
  }

  /** A node carries its item's columns, normalised and within their buffers, and is its own anchor; an item without a
      title is shown by its number. */
  lemma NodeShowsItem(id: int, item: Item)
    ensures var n := NodeOf(id, item);
      && n.id == n.anchorId == id && n.createdNs == n.anchorCreatedNs == item.createdNs && !n.isRollup
      && n.detail.pinned == item.pinned && n.detail.canonical == item.canonical
      && |n.kind| < 32 && |n.detail.bodyPreview| < 256 && |n.detail.projectKey| < 64 && |n.detail.stableId| < 96
      && (Clean(item.kind) && |item.kind| < 32 ==> n.kind == item.kind)
      && (Clean(item.body) && |item.body| < 256 ==> n.detail.bodyPreview == item.body)
      && (Clean(item.projectKey) && |item.projectKey| < 64 ==> n.detail.projectKey == item.projectKey)
      && (Clean(item.stableId) && |item.stableId| < 96 ==> n.detail.stableId == item.stableId)
      && (Clean(item.title) && 0 < |item.title| < 160 ==> n.detail.title == item.title)
      && (Loaded(item.title, 160) != "" ==> n.detail.title == Loaded(item.title, 160) && |n.detail.title| < 160)
      && (Loaded(item.title, 160) == "" && id >= 0 ==>
            "ITEM " <= n.detail.title && ValueOf(n.detail.title[5..]) == id)
      && (Loaded(item.title, 160) == "" && id < 0 ==>
            "ITEM -" <= n.detail.title && ValueOf(n.detail.title[6..]) == -id)
  {
    hide Loaded, Decimal, ValueOf, Clean;
    TextIsShown(item.kind, 32);
    TextIsShown(item.body, 256);
    TextIsShown(item.projectKey, 64);
    TextIsShown(item.stableId, 96);
    TextIsShown(item.title, 160);
    if id >= 0 {
      DecimalReads(id);
      assert ("ITEM " + Decimal(id))[5..] == Decimal(id);
    } else {
      DecimalReads(-id);
      assert ("ITEM " + ("-" + Decimal(-id)))[6..] == Decimal(-id);
    }
  }

  // ----- what the finished view shows

  /** Every node shows an unarchived item of an enabled kind, as the table has it. */
  lemma NodesAreReal(db: Tables, s: Scope, f: EdgeFilter, filter: NodeFilter, normalized: bool, limit: int,
                     nodes: seq<Node>, edges: seq<Edge>, k: int)
    requires SoundGraph(db, s, f, filter, normalized, limit, nodes, edges) && 0 <= k < |nodes|
    ensures var n := nodes[k];
      && n.id in db.items && !db.items[n.id].archived
      && n.createdNs == db.items[n.id].createdNs && n.kind == Loaded(db.items[n.id].kind, 32)
      && n.detail == NodeOf(n.id, db.items[n.id]).detail && NodeKindEnabled(filter, n.kind)
      && forall j :: 0 <= j < |nodes| && nodes[j].id == n.id ==> j == k
  {
    hide Loaded, NodeKindEnabled;
    assert Shows(db, filter, nodes[k]);
  }

  /** Every edge shows a link of the table between the items at its ends, both of them eligible, of an enabled kind;
      no link is shown twice. */
  lemma EdgesAreReal(db: Tables, s: Scope, f: EdgeFilter, filter: NodeFilter, normalized: bool, limit: int,
                     nodes: seq<Node>, edges: seq<Edge>) returns (rows: seq<LinkRow>)
    requires SoundGraph(db, s, f, filter, normalized, limit, nodes, edges)
    ensures |rows| == |edges| <= limit
    ensures forall i :: 0 <= i < |edges| ==>
              && rows[i] in db.links && 0 <= edges[i].from < |nodes| && 0 <= edges[i].to < |nodes|
              && nodes[edges[i].from].id == rows[i].fromId && nodes[edges[i].to].id == rows[i].toId
              && Eligible(db, s, rows[i].fromId) && Eligible(db, s, rows[i].toId)
              && (f.text == "" || rows[i].kind == f.text) && EdgeKindEnabled(f, Loaded(rows[i].kind, 32))
              && edges[i].kind == if normalized then Loaded(rows[i].kind, 32) else Truncated(rows[i].kind, 32)
    ensures forall i, j :: 0 <= i < j < |rows| ==> rows[i].id != rows[j].id
  {
    hide Loaded, Truncated, EdgeKindEnabled, InScope;
    rows :| Backed(db, s, f, normalized, nodes, edges, rows);
    forall i | 0 <= i < |edges|
      ensures EdgeBacked(db, s, f, normalized, nodes, edges[i], rows[i])
    {
    }
  }

  /** The item is there, not archived, and of an enabled kind. */
  ghost predicate Showable(db: Tables, filter: NodeFilter, id: int) {
    id in db.items && !db.items[id].archived && NodeKindEnabled(filter, Loaded(db.items[id].kind, 32))
  }

  /** In focus mode exactly these rows become edges: the kind enabled, both ends showable and in the buffer. */
  lemma FocusEdgesAre(db: Tables, f: EdgeFilter, filter: NodeFilter, nodes: seq<Node>, rows: seq<LinkRow>, l: LinkRow)
    ensures l in FittingRows(db, f, filter, nodes, rows) <==>
            && l in rows && EdgeKindEnabled(f, Loaded(l.kind, 32))
            && Showable(db, filter, l.fromId) && Showable(db, filter, l.toId)
            && (exists k :: 0 <= k < |nodes| && nodes[k].id == l.fromId)
            && (exists k :: 0 <= k < |nodes| && nodes[k].id == l.toId)
  {
    hide EdgeKindEnabled, NodeKindEnabled, Loaded;
    WhereKeeps(rows, (row: LinkRow) => Fits(db, f, filter, nodes, row));
  }

  /** In full scope: the kind enabled and both ends in the buffer. */
  lemma ScopeEdgesAre(f: EdgeFilter, nodes: seq<Node>, rows: seq<LinkRow>, l: LinkRow)
    ensures l in ScopeFitting(f, nodes, rows) <==>
            && l in rows && EdgeKindEnabled(f, Loaded(l.kind, 32))
            && (exists k :: 0 <= k < |nodes| && nodes[k].id == l.fromId)
            && (exists k :: 0 <= k < |nodes| && nodes[k].id == l.toId)
  {
    hide EdgeKindEnabled, Loaded;
    WhereKeeps(rows, (row: LinkRow) => KindOk(f, row) && EndsIn(nodes, row));
  }

  /** Some row of an enabled kind ends at the item. */
  ghost predicate EndsAt(f: EdgeFilter, rows: seq<LinkRow>, id: int) {
    exists l :: l in rows && EdgeKindEnabled(f, Loaded(l.kind, 32)) && (l.fromId == id || l.toId == id)
  }

  /** Focus mode loads both ends of every row of an enabled kind, while there is room, and nothing else. */
  lemma FocusLoadsEnds(db: Tables, s: Scope, f: EdgeFilter, filter: NodeFilter, n: int, nodes: seq<Node>,
                       edges: seq<Edge>, rows: seq<LinkRow>, origin: seq<LinkRow>)
    requires FocusProgress(db, s, f, filter, n, nodes, edges, rows, |rows|, origin)
    ensures |nodes| < 128 ==> forall l :: l in rows && EdgeKindEnabled(f, Loaded(l.kind, 32)) ==>
              (exists k :: 0 <= k < |nodes| && nodes[k].id == l.fromId) &&
              (exists k :: 0 <= k < |nodes| && nodes[k].id == l.toId)
    ensures forall k :: 0 <= n <= k < |nodes| ==> EndsAt(f, rows, nodes[k].id)
  {
    hide Backed;
    assert rows[..|rows|] == rows;
    forall k | 0 <= n <= k < |nodes|
      ensures EndsAt(f, rows, nodes[k].id)
    {
      assert IsEnd(f, rows, nodes[k].id);
      var l :| l in rows && KindOk(f, l) && (l.fromId == nodes[k].id || l.toId == nodes[k].id);
    }
  }

  /** Full scope shows every eligible item of an enabled kind, while there is room, and adds no other to the reserved
      ones. */
  lemma ScopeIsComplete(db: Tables, s: Scope, filter: NodeFilter, reserved: seq<Node>, loaded: seq<Node>, id: int)
    requires ScopeLoaded(db, s, filter, reserved, loaded)
    ensures |loaded| < 128 && Eligible(db, s, id) && Showable(db, filter, id) ==>
              exists k :: 0 <= k < |loaded| && loaded[k].id == id
    ensures forall k :: |reserved| <= k < |loaded| ==>
              Eligible(db, s, loaded[k].id) && Showable(db, filter, loaded[k].id)
  {
    hide NodeKindEnabled, Loaded, InScope;
    if |loaded| < 128 && Eligible(db, s, id) && Showable(db, filter, id) {
      assert Open(db, s, id) && EnabledItem(db, filter, id);
    }
  }

  /** Of the items within the reserved hops of the root, only such are left out as are no nearer than any in the buffer,
      and then the scope pass adds nothing. */
  lemma NearOnesComeFirst(db: Tables, filter: NodeFilter, rel: Relation, root: int, hops: nat, reserved: seq<Node>,
                          loaded: seq<Node>, id: int, d: int, k: int, e: int)
    requires ReservationKept(db, filter, rel, root, hops, reserved, loaded) && root != 0
    requires Showable(db, filter, id) && ExactDistance(rel, root, id, d) && d <= hops && d < UNREACHABLE
    requires forall j :: 0 <= j < |reserved| ==> reserved[j].id != id
    requires 0 <= k < |reserved| && ExactDistance(rel, root, reserved[k].id, e)
    ensures e <= d && |loaded| <= |reserved|
  {
    hide NodeKindEnabled, Loaded, Walk;
    assert Within(rel, root, d, id) && Within(rel, root, hops, id);
    assert id !in NodeIds(reserved);
    assert AsNear(rel, root, reserved[k].id, id);
    assert Within(rel, root, d, reserved[k].id);
  }
}
