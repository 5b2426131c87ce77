/** The two tables the graph is read from, and the rows each graph query returns. The database engine itself is not
    modelled: a query is the list or set of rows its text describes. */
module Database {
  import opened Limits
  import opened Walks
  import opened AsciiText
  import opened KindFilters
  import opened GraphState

  datatype Item = Item(archived: bool, createdNs: int, title: string, body: string, pinned: bool, canonical: bool,
                       projectKey: string, kind: string, stableId: string)

  /** Links carry their primary key and come in key order. */
  datatype LinkRow = LinkRow(id: int, fromId: int, toId: int, kind: string)

  datatype Tables = Tables(items: map<int, Item>, links: seq<LinkRow>)

  ghost predicate KeysIncrease(links: seq<LinkRow>) {
    forall i, j :: 0 <= i < j < |links| ==> links[i].id < links[j].id
  }

  /** The filter key bound when a slot is unused. */
  const UNUSED_KEY := "__mem_console_unused_filter__"

  /** The project filter as it is bound into a query: a count, and sixteen keys. */
  datatype Scope = Scope(count: int, keys: seq<string>)

  function ScopeOf(projectCount: int, projectKeys: seq<string>): Scope {
    var count := Clamp(projectCount, 0, SCOPE_FILTER_LIMIT);
    Scope(count, seq(SCOPE_FILTER_LIMIT, i =>
      if 0 <= i < count && i < |projectKeys| && projectKeys[i] != "" then projectKeys[i] else UNUSED_KEY))
  }

  predicate InScope(s: Scope, item: Item) {
    s.count == 0 || item.projectKey in s.keys
  }

  predicate Active(db: Tables, id: int) {
    id in db.items && !db.items[id].archived
  }

  predicate Open(db: Tables, s: Scope, id: int) {
    Active(db, id) && InScope(s, db.items[id])
  }

  /** A link a query may use: both ends active and in scope, and the pushed-down kind text satisfied. */
  predicate LinkOpen(db: Tables, s: Scope, text: string, l: LinkRow) {
    Open(db, s, l.fromId) && Open(db, s, l.toId) && (text == "" || l.kind == text)
  }

  /** Steps of the recursive walk. */
  ghost function WalkPairs(db: Tables, s: Scope, text: string): Relation {
    (set l | l in db.links && LinkOpen(db, s, text, l) :: (l.fromId, l.toId)) +
    (set l | l in db.links && LinkOpen(db, s, text, l) :: (l.toId, l.fromId))
  }

  /** A text column read into a buffer of `cap` bytes and normalised. */
  function Loaded(text: string, cap: nat): string
    requires cap > 0
  {
    NormalizeAscii(Truncated(text, cap))
  }

  function Truncated(text: string, cap: nat): string
    requires cap > 0
  {
    if |text| < cap then text else text[..cap - 1]
  }

  /** The node a row of the item table becomes. */
  function NodeOf(id: int, item: Item): Node {
    var title := Loaded(item.title, 160);
    var shown := if title != "" then title else "ITEM " + if id < 0 then "-" + Decimal(-id) else Decimal(id);
    Node(id, item.createdNs, Loaded(item.kind, 32),
         Detail(shown, Loaded(item.body, 256), item.pinned, item.canonical, Loaded(item.projectKey, 64),
                Loaded(item.stableId, 96)),
         id, item.createdNs, false)
  }

  /** Rows in the order a query lists them, keeping those that satisfy `p`. */
  ghost function Where(rows: seq<LinkRow>, p: LinkRow -> bool): seq<LinkRow> {
    if rows == [] then [] else (if p(rows[0]) then [rows[0]] else []) + Where(rows[1..], p)
  }

  function Reversed(rows: seq<LinkRow>): seq<LinkRow> {
    if rows == [] then [] else Reversed(rows[1..]) + [rows[0]]
  }

  function Limited(rows: seq<LinkRow>, limit: nat): seq<LinkRow> {
    if |rows| <= limit then rows else rows[..limit]
  }

  function InOrder(rows: seq<LinkRow>, oldestFirst: bool): seq<LinkRow> {
    if oldestFirst then rows else Reversed(rows)
  }

  /** Distinct keys, whichever way they run. */
  ghost predicate KeysDistinct(rows: seq<LinkRow>) {
    forall i, j :: 0 <= i < j < |rows| ==> rows[i].id != rows[j].id
  }

  lemma {:induction false} WhereKeeps(rows: seq<LinkRow>, p: LinkRow -> bool)
    ensures forall l :: l in Where(rows, p) <==> l in rows && p(l)
    ensures KeysDistinct(rows) ==> KeysDistinct(Where(rows, p))
  {
    if rows != [] {
      WhereKeeps(rows[1..], p);
      assert rows == [rows[0]] + rows[1..];
      if KeysDistinct(rows) {
        assert forall j :: 0 <= j < |rows[1..]| ==> rows[1..][j] == rows[j + 1];
        assert forall l :: l in rows[1..] ==> l.id != rows[0].id;
        assert forall j :: 0 <= j < |Where(rows[1..], p)| ==> Where(rows[1..], p)[j] in rows[1..];
      }
    }
  }

  lemma {:induction false} ReversedKeeps(rows: seq<LinkRow>)
    ensures forall l :: l in Reversed(rows) <==> l in rows
    ensures KeysDistinct(rows) ==> KeysDistinct(Reversed(rows))
  {
    if rows != [] {
      ReversedKeeps(rows[1..]);
      assert rows == [rows[0]] + rows[1..];
      if KeysDistinct(rows) {
        assert forall j :: 0 <= j < |rows[1..]| ==> rows[1..][j] == rows[j + 1];
        assert forall l :: l in rows[1..] ==> l.id != rows[0].id;
        assert forall j :: 0 <= j < |Reversed(rows[1..])| ==> Reversed(rows[1..])[j] in rows[1..];
      }
    }
  }

  lemma WhereStep(rows: seq<LinkRow>, p: LinkRow -> bool)
    requires rows != []
    ensures Where(rows, p) == (if p(rows[0]) then [rows[0]] else []) + Where(rows[1..], p)
  {
  }

  lemma {:induction false} WhereAppend(rows: seq<LinkRow>, l: LinkRow, p: LinkRow -> bool)
    ensures Where(rows + [l], p) == Where(rows, p) + if p(l) then [l] else []
  {
    if rows == [] {
      assert rows + [l] == [l];
      assert Where([l], p) == (if p(l) then [l] else []) + Where([], p);
    } else {
      var more := rows + [l];
      assert more[0] == rows[0] && more[1..] == rows[1..] + [l];
      WhereAppend(rows[1..], l, p);
      WhereStep(more, p);
      WhereStep(rows, p);
      hide Where;
    }
  }

  lemma {:induction false} WhereAgrees(rows: seq<LinkRow>, p: LinkRow -> bool, q: LinkRow -> bool)
    requires forall l :: l in rows ==> (p(l) <==> q(l))
    ensures Where(rows, p) == Where(rows, q)
  {
    if rows != [] {
      assert rows[0] in rows;
      WhereAgrees(rows[1..], p, q);
    }
  }

  /** The focus query: open links between items within `hops` of the root, newest or oldest first, cut at `limit`. */
  ghost function FocusRows(db: Tables, s: Scope, text: string, root: int, hops: nat, oldestFirst: bool,
                           limit: nat): seq<LinkRow> {
    var near := (l: LinkRow) => LinkOpen(db, s, text, l)
      && Within(WalkPairs(db, s, text), root, hops, l.fromId) && Within(WalkPairs(db, s, text), root, hops, l.toId);
    Limited(Where(InOrder(db.links, oldestFirst), near), limit)
  }

  /** The full-scope link query: open links, newest or oldest first, cut at `limit`. */
  ghost function ScopeRows(db: Tables, s: Scope, text: string, oldestFirst: bool, limit: nat): seq<LinkRow> {
    Limited(Where(InOrder(db.links, oldestFirst), (l: LinkRow) => LinkOpen(db, s, text, l)), limit)
  }

  lemma ListedRows(db: Tables, oldestFirst: bool, p: LinkRow -> bool, limit: nat)
    requires KeysIncrease(db.links)
    ensures var rows := Limited(Where(InOrder(db.links, oldestFirst), p), limit);
            |rows| <= limit && KeysDistinct(rows) && forall l :: l in rows ==> l in db.links && p(l)
  {
    ReversedKeeps(db.links);
    WhereKeeps(InOrder(db.links, oldestFirst), p);
  }

  /** Filtering by the pushed-down text first and by the mask afterwards keeps the same rows as filtering by the mask
      alone, exactly when no stored kind merely normalises to the text. */
  lemma PushDownIsLossless(f: EdgeFilter, rows: seq<LinkRow>)
    requires InSync(f)
    ensures var byMask := (l: LinkRow) => EdgeKindEnabled(f, Loaded(l.kind, 32));
            var byText := (l: LinkRow) => f.text == "" || l.kind == f.text;
            Where(Where(rows, byText), byMask) == Where(rows, byMask) <==>
            (f.text != "" ==> forall l :: l in rows && Loaded(l.kind, 32) == f.text ==> l.kind == f.text)
  {
    hide EdgeKindEnabled, Loaded, InSync;
    var byMask := (l: LinkRow) => EdgeKindEnabled(f, Loaded(l.kind, 32));
    var byText := (l: LinkRow) => f.text == "" || l.kind == f.text;
    WhereKeeps(rows, byText);
    WhereKeeps(rows, byMask);
    WhereKeeps(Where(rows, byText), byMask);
    forall l: LinkRow | f.text != ""
      ensures byMask(l) <==> Loaded(l.kind, 32) == f.text
    {
      TextIsTheEnabledKind(f, Loaded(l.kind, 32));
    }
    if forall l :: l in rows && byMask(l) ==> byText(l) {
      WhereTwice(rows, byText, byMask);
    } else {
      var l :| l in rows && byMask(l) && !byText(l);
      assert l in Where(rows, byMask) && l !in Where(Where(rows, byText), byMask);
    }
  }

  /** A link stored as "supports " with a trailing space passes the mask, but not the text "supports" before it. */
  lemma TrailingSpaceIsFilteredOut(row: LinkRow)
    requires row.kind == "supports "
    ensures var f := EdgeFilter(0x01, 0, "supports");
            var byMask := (l: LinkRow) => EdgeKindEnabled(f, Loaded(l.kind, 32));
            var byText := (l: LinkRow) => f.text == "" || l.kind == f.text;
            InSync(f) && Where([row], byMask) == [row] && Where(Where([row], byText), byMask) == []
  {
    assert row.kind == "supports" + " ";
    TrailingSpaceGoes("supports");
    hide NormalizeAscii;
    assert Loaded(row.kind, 32) == "supports";
    assert [row][1..] == [];
  }

  lemma {:induction false} WhereTwice(rows: seq<LinkRow>, p: LinkRow -> bool, q: LinkRow -> bool)
    requires forall l :: l in rows && q(l) ==> p(l)
    ensures Where(Where(rows, p), q) == Where(rows, q)
  {
    if rows != [] {
      WhereTwice(rows[1..], p, q);
      assert rows[0] in rows;
      if p(rows[0]) {
        assert Where(rows, p)[1..] == Where(rows[1..], p);
      } else {
        assert Where(rows, p) == Where(rows[1..], p);
      }
    }
  }

  /** Under a row limit the pushed-down query can only find more: while no stored kind merely normalises to the text,
      what the mask leaves of the first `limit` rows comes first in what it leaves of the first `limit` rows with that
      text. */
  lemma PushDownFindsMore(f: EdgeFilter, rows: seq<LinkRow>, limit: nat)
    requires InSync(f)
    requires f.text != "" ==> forall l :: l in rows && Loaded(l.kind, 32) == f.text ==> l.kind == f.text
    ensures var byMask := (l: LinkRow) => EdgeKindEnabled(f, Loaded(l.kind, 32));
            var byText := (l: LinkRow) => f.text == "" || l.kind == f.text;
            Where(Limited(rows, limit), byMask) <= Where(Limited(Where(rows, byText), limit), byMask)
  {
    hide EdgeKindEnabled, Loaded;
    var byMask := (l: LinkRow) => EdgeKindEnabled(f, Loaded(l.kind, 32));
    var byText := (l: LinkRow) => f.text == "" || l.kind == f.text;
    forall l | l in rows
      ensures byMask(l) ==> byText(l)
    {
      TextIsTheEnabledKindIfAny(f, Loaded(l.kind, 32));
    }
    LimitAfterMask(rows, byText, byMask, limit);
  }

  lemma TextIsTheEnabledKindIfAny(f: EdgeFilter, kind: string)
    requires InSync(f)
    ensures f.text != "" ==> (EdgeKindEnabled(f, kind) <==> kind == f.text)
  {
    if f.text != "" {
      TextIsTheEnabledKind(f, kind);
    }
  }

  /** Limiting after a filter that keeps all of `q` keeps a first part of `q` at least as long. */
  lemma {:induction false} LimitAfterMask(rows: seq<LinkRow>, p: LinkRow -> bool, q: LinkRow -> bool, limit: nat)
    requires forall l :: l in rows && q(l) ==> p(l)
    ensures Where(Limited(rows, limit), q) <= Where(Limited(Where(rows, p), limit), q)
    decreases rows
  {
    if rows != [] && limit > 0 {
      var rest := rows[1..];
      assert forall l :: l in rest ==> l in rows;
      assert rows[0] in rows;
      WhereStep(rows, p);
      LimitStep(rows, limit);
      WhereStep(Limited(rows, limit), q);
      if p(rows[0]) {
        LimitAfterMask(rest, p, q, limit - 1);
        LimitStep([rows[0]] + Where(rest, p), limit);
        WhereStep(Limited([rows[0]] + Where(rest, p), limit), q);
        assert Limited(rows, limit)[1..] == Limited(rest, limit - 1);
        assert Limited([rows[0]] + Where(rest, p), limit)[1..] == Limited(Where(rest, p), limit - 1);
      } else {
        LimitAfterMask(rest, p, q, limit);
        MoreLimit(rest, q, limit - 1);
        assert Limited(rows, limit)[1..] == Limited(rest, limit - 1);
        assert Where(rows, p) == Where(rest, p);
        assert Where(Limited(rows, limit), q) == Where(Limited(rest, limit - 1), q);
      }
    }
  }

  lemma LimitStep(rows: seq<LinkRow>, limit: nat)
    requires rows != [] && limit > 0
    ensures Limited(rows, limit) == [rows[0]] + Limited(rows[1..], limit - 1)
  {
  }

  /** A higher limit only adds at the end. */
  lemma {:induction false} MoreLimit(rows: seq<LinkRow>, q: LinkRow -> bool, limit: nat)
    ensures Where(Limited(rows, limit), q) <= Where(Limited(rows, limit + 1), q)
  {
    if |rows| > limit {
      WhereAppend(rows[..limit], rows[limit], q);
      assert Limited(rows, limit + 1) == rows[..limit] + [rows[limit]];
    }
  }

  /** A kind that fits its buffer and is already clean is read back as it is. */
  lemma CleanKindsLoadUnchanged(kind: string)
    ensures |kind| < 32 && Clean(kind) ==> Loaded(kind, 32) == kind
  {
    if |kind| < 32 && Clean(kind) {
      NormalFormsAreClean(kind);
    }
  }
}
