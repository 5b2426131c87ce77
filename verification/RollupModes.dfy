/** What the two loaders' ways of storing a link kind, as read or normalised, mean for the rollups that are drawn. */
module RollupModes {
  import opened AsciiText
  import opened KindFilters
  import opened GraphState
  import opened Database
  import opened Rollup
  import opened GraphLoad
  import opened CanonicalOrder

  const KIND_CAP := 32

  function StoredKind(row: LinkRow, normalized: bool): string {
    if normalized then Loaded(row.kind, KIND_CAP) else Truncated(row.kind, KIND_CAP)
  }

  /** The two ways agree on a kind exactly if it is clean as read. */
  lemma StoredAlikeIffClean(kind: string)
    ensures Truncated(kind, KIND_CAP) == Loaded(kind, KIND_CAP) <==> Clean(Truncated(kind, KIND_CAP))
  {
    NormalFormsAreClean(Truncated(kind, KIND_CAP));
  }

  /** A kind read as "summarizes" is one when normalised, but not the other way round. */
  lemma RawRollupIsNormalRollup(row: LinkRow)
    requires StoredKind(row, false) == SUMMARIZES
    ensures StoredKind(row, true) == SUMMARIZES
  {
    hide NormalizeAscii, Clean, Truncated;
    NormalFormsAreClean(SUMMARIZES);
    SummarizesIsClean();
  }

  lemma SummarizesIsClean()
    ensures Clean(SUMMARIZES)
  {
  }

  /** The items that item `id` summarizes, by the rows of its links. */
  ghost function RowSources(rows: seq<LinkRow>, id: int, normalized: bool): set<int> {
    set l | l in rows && l.fromId == id && l.toId > 0 && StoredKind(l, normalized) == SUMMARIZES :: l.toId
  }

  /** The sources that annotation sees are those of the rows behind the edges. */
  lemma SourcesAreRowSources(db: Tables, s: Scope, f: EdgeFilter, normalized: bool, nodes: seq<Node>, edges: seq<Edge>,
                             origin: seq<LinkRow>, id: int)
    requires Backed(db, s, f, normalized, nodes, edges, origin)
    ensures Sources(Links(nodes, edges), id) == RowSources(origin, id, normalized)
  {
    hide LinkOpen, EdgeKindEnabled, Loaded, Truncated;
    forall x | x in Sources(Links(nodes, edges), id)
      ensures x in RowSources(origin, id, normalized)
    {
      var l :| l in Links(nodes, edges) && l.kind == SUMMARIZES && l.fromId == id && l.toId == x > 0;
      var i :| 0 <= i < |edges| && InRange(edges[i], |nodes|) && LinkOf(nodes, edges[i]) == l;
      assert EdgeBacked(db, s, f, normalized, nodes, edges[i], origin[i]);
      assert origin[i] in origin;
    }
    forall x | x in RowSources(origin, id, normalized)
      ensures x in Sources(Links(nodes, edges), id)
    {
      var row :| row in origin && row.fromId == id && row.toId == x > 0 && StoredKind(row, normalized) == SUMMARIZES;
      var i :| 0 <= i < |origin| && origin[i] == row;
      assert EdgeBacked(db, s, f, normalized, nodes, edges[i], origin[i]);
      assert LinkOf(nodes, edges[i]) in Links(nodes, edges);
    }
  }

  /** A link that only normalises to "summarizes", with no other link that does read so between the same items. */
  ghost predicate RollupInOneModeOnly(rows: seq<LinkRow>, id: int, row: LinkRow) {
    && row in rows && row.fromId == id && row.toId > 0
    && StoredKind(row, true) == SUMMARIZES != StoredKind(row, false)
    && forall l :: l in rows && l.fromId == id && l.toId == row.toId ==> StoredKind(l, false) != SUMMARIZES
  }

  /** Drawing the same links, the two modes give an item the same sources exactly when none of
      its links is a rollup in one mode only. Focus mode never sees more sources than full scope. */
  lemma ModesAgreeOnSources(db: Tables, s: Scope, f: EdgeFilter, nodes: seq<Node>, focus: seq<Edge>, full: seq<Edge>,
                            origin: seq<LinkRow>, id: int)
    requires Backed(db, s, f, false, nodes, focus, origin) && Backed(db, s, f, true, nodes, full, origin)
    ensures Sources(Links(nodes, focus), id) <= Sources(Links(nodes, full), id)
    ensures Sources(Links(nodes, focus), id) == Sources(Links(nodes, full), id) <==>
            !exists row :: RollupInOneModeOnly(origin, id, row)
  {
    hide Backed, Loaded, Truncated, Sources;
    SourcesAreRowSources(db, s, f, false, nodes, focus, origin, id);
    SourcesAreRowSources(db, s, f, true, nodes, full, origin, id);
    RowModesAgree(origin, id);
  }

  /** Items with the same sources are drawn alike. */
  lemma SameSourcesSameAnchor(nodes: seq<Node>, focus: seq<Edge>, full: seq<Edge>, a: seq<Node>, b: seq<Node>, i: int)
    requires DistinctIds(nodes) && Annotated(nodes, focus, a) && Annotated(nodes, full, b) && 0 <= i < |nodes|
    requires Sources(Links(nodes, focus), nodes[i].id) == Sources(Links(nodes, full), nodes[i].id)
    ensures a[i] == b[i]
  {
    hide AnchoredAt, Sources, Links, BareNodes;
    AnchoringUnique(nodes, Sources(Links(nodes, focus), nodes[i].id), Bare(nodes[i]), a[i], b[i]);
  }

  lemma RowModesAgree(rows: seq<LinkRow>, id: int)
    ensures RowSources(rows, id, false) <= RowSources(rows, id, true)
    ensures RowSources(rows, id, false) == RowSources(rows, id, true) <==>
            !exists row :: RollupInOneModeOnly(rows, id, row)
  {
    hide StoredKind;
    forall l | StoredKind(l, false) == SUMMARIZES
      ensures StoredKind(l, true) == SUMMARIZES
    {
      RawRollupIsNormalRollup(l);
    }
    if row :| RollupInOneModeOnly(rows, id, row) {
      assert row.toId in RowSources(rows, id, true) && row.toId !in RowSources(rows, id, false);
    }
    forall x | x in RowSources(rows, id, true) && x !in RowSources(rows, id, false)
      ensures exists row :: RollupInOneModeOnly(rows, id, row)
    {
      var row :| row in rows && row.fromId == id && row.toId == x > 0 && StoredKind(row, true) == SUMMARIZES;
      assert RollupInOneModeOnly(rows, id, row);
    }
  }

  /** "summarizes" with a space behind it is a rollup in full scope and none in focus mode. */
  lemma TrailingSpaceSplitsTheModes(row: LinkRow)
    requires row.kind == "summarizes " && row.toId > 0
    ensures StoredKind(row, false) == row.kind != SUMMARIZES && StoredKind(row, true) == SUMMARIZES
    ensures RowSources([row], row.fromId, false) == {} && RowSources([row], row.fromId, true) == {row.toId}
  {
    hide NormalizeAscii, Truncated;
    TrailingSpaceNormalizes(row.kind);
    assert row in [row];
  }

  lemma TrailingSpaceNormalizes(kind: string)
    requires kind == "summarizes "
    ensures Truncated(kind, KIND_CAP) == kind && NormalizeAscii(kind) == SUMMARIZES
  {
    assert kind == SUMMARIZES + " ";
    TrailingSpaceGoes(SUMMARIZES);
  }
}
