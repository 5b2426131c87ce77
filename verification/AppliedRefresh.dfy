/** What the user sees of a refresh: what it brings, and that everything the user set stays as it was. */
module AppliedRefresh {
  import opened Limits
  import opened KindFilters
  import opened Intents
  import AsciiText
  import EditBuffer
  import opened RefreshProtocol

  /** The tick applies this payload. */
  ghost predicate AppliedBy(sys: System, now: int, luck: Luck, r: Console) {
    var s := BeforeDrain(sys, now, luck);
    Applies(s) && s.done[0].c.outcome == Loaded(r)
  }

  lemma TickTakes(sys: System, now: int, luck: Luck, r: Console)
    requires Inv(sys) && AppliedBy(sys, now, luck, r)
    ensures Tick(sys, now, luck).console == SyncEdits(ApplyRefreshed(sys.console, r))
    ensures MatchesState(BeforeDrain(sys, now, luck).done[0].c.intent, sys.console.q) && CanSchedule(sys.console)
    ensures Captured(BeforeDrain(sys, now, luck).done[0].c.intent)
  {
    hide BeforeDrain, FlushPending, DrainAll, SyncEdits, ApplyRefreshed, MatchesState, PayloadChanged, Conserved,
         HistoryFaithful, Capture;
    BeforeDrainKeepsInv(sys, now, luck);
    var s := BeforeDrain(sys, now, luck);
    DrainAllKeepsInv(s, now);
    FlushKeepsConsole(DrainAll(s, now), CanSchedule(sys.console), now, luck.second);
  }

  /** The list, the selected item and the graph become those of the payload, and so do the title and body buffers, with
      their cursors at the end. */
  lemma RefreshIsShown(sys: System, now: int, luck: Luck, r: Console)
    requires Inv(sys) && AppliedBy(sys, now, luck, r)
    ensures var c, d := sys.console, Tick(sys, now, luck).console;
      && d.listing == r.listing && d.selection == r.selection && d.graph == r.graph
      && c.titleEditMode == 0 && d.titleEdit == EditText(r.selection.title, |r.selection.title|)
      && c.bodyEditMode == 0 && d.bodyEdit == EditText(r.selection.body, |r.selection.body|)
  {
    hide Tick, AppliedBy, MatchesState;
    TickTakes(sys, now, luck, r);
  }

  /** Link kinds are enabled afterwards exactly if the payload's filter enables them. */
  lemma RefreshTakesLinkKinds(sys: System, now: int, luck: Luck, r: Console, kind: string)
    requires Inv(sys) && AppliedBy(sys, now, luck, r)
    ensures EdgeKindEnabled(Tick(sys, now, luck).console.q.kind, kind) <==> EdgeKindEnabled(r.q.kind, kind)
  {
    hide Tick, AppliedBy, MatchesState, EdgeKindBit;
    TickTakes(sys, now, luck, r);
    MaskIsTaken(r.q.kind, sys.console.q.kind.text, kind);
  }

  lemma MaskIsTaken(f: EdgeFilter, text: string, kind: string)
    ensures EdgeKindEnabled(Synced(EdgeFilter(EdgeMask(f), Flag(f.allOverride), text)), kind) <==>
            EdgeKindEnabled(f, kind)
  {
    hide SingleKind;
    KnownBits(kind);
    hide EdgeKindBit;
  }

  lemma KnownBits(kind: string)
    ensures EdgeKindBit(kind) & EDGE_MASK_ALL == EdgeKindBit(kind)
  {
  }

  /** And everything the user set stays: the settings mean the same as before, but for the selection, the centre and the
      projects the database still has. */
  lemma RefreshKeepsSettings(sys: System, now: int, luck: Luck, r: Console)
    requires Inv(sys) && AppliedBy(sys, now, luck, r) && TextFollows(sys.console.q.kind)
    requires FromWorker(BeforeDrain(sys, now, luck).done[0].c.intent, r)
    ensures var q, after := sys.console.q, Tick(sys, now, luck).console.q;
      && Capture(after) == Capture(q).(selected := r.q.selected, center := r.q.center,
                                       projects := CopiedProjects(r.q.projects))
      && after.search == q.search && after.offset == q.offset && after.layout == q.layout && after.sort == q.sort
      && after.node == q.node && after.edgeLimit == q.edgeLimit && after.hops == q.hops
  {
    hide Tick, BeforeDrain, MatchesState, Capture, FromWorker, TextFollows, SyncEdits, ApplyRefreshed, PayloadChanged;
    TickTakes(sys, now, luck, r);
    var i := BeforeDrain(sys, now, luck).done[0].c.intent;
    SettingsStay(i, sys.console, r);
  }

  lemma SettingsStay(i: Intent, c: Console, r: Console)
    requires MatchesState(i, c.q) && FromWorker(i, r) && Captured(i) && TextFollows(c.q.kind)
    ensures var q, after := c.q, SyncEdits(ApplyRefreshed(c, r)).q;
      && Capture(after) == Capture(q).(selected := r.q.selected, center := r.q.center,
                                       projects := CopiedProjects(r.q.projects))
      && after.search == q.search && after.offset == q.offset && after.layout == q.layout && after.sort == q.sort
      && after.node == q.node && after.edgeLimit == q.edgeLimit && after.hops == q.hops
  {
    hide CopiedProjects, ProjectsMatch, SyncEdits, TextFollows, Synced, SingleKind;
    GuardIsCurrentIntent(i, c.q);
    EditsKeepSettings(ApplyRefreshed(c, r));
    hide MatchesState;
    KindStays(c.q.kind);
  }

  lemma EditsKeepSettings(c: Console)
    ensures SyncEdits(c).q == c.q
  {
  }

  /** The link-kind filter there and back again. */
  lemma KindStays(f: EdgeFilter)
    requires TextFollows(f)
    ensures var sent := EdgeFilter(EdgeMask(f), Flag(f.allOverride), f.text);
            var done := Synced(EdgeFilter(EdgeMask(sent), Flag(sent.allOverride), sent.text));
            var back := Synced(EdgeFilter(EdgeMask(done), Flag(done.allOverride), f.text));
            EdgeFilter(EdgeMask(back), Flag(back.allOverride), back.text) == sent
  {
  }

  ghost predicate CursorFits(text: string, before: int, after: int) {
    0 <= after <= |text| && (0 <= before <= |text| ==> after == before)
  }

  /** The other inputs keep their texts, and each cursor that was inside its text stays where it was; a selection in the
      path that was in order is kept. Only the edge limit is written anew, in digits, with the cursor behind them. */
  lemma RefreshKeepsInputs(sys: System, now: int, luck: Luck, r: Console)
    requires Inv(sys) && AppliedBy(sys, now, luck, r)
    ensures var c, d := sys.console, Tick(sys, now, luck).console;
            var before, after := c.inputs, d.inputs;
      && CursorFits(c.q.search, before.searchCursor, after.searchCursor)
      && after.target.text == before.target.text
      && CursorFits(before.target.text, before.target.cursor, after.target.cursor)
      && after.path == before.path.(cursor := after.path.cursor, selStart := after.path.selStart,
                                    selEnd := after.path.selEnd)
      && CursorFits(before.path.text, before.path.cursor, after.path.cursor)
      && 0 <= after.path.selStart <= after.path.selEnd <= |after.path.text|
      && (0 <= before.path.selStart <= before.path.selEnd <= |before.path.text| ==>
            after.path.selStart == before.path.selStart && after.path.selEnd == before.path.selEnd)
      && AsciiText.ValueOf(after.limit.text) == d.q.edgeLimit && after.limit.cursor == |after.limit.text|
  {
    hide Tick, AppliedBy, MatchesState;
    TickTakes(sys, now, luck, r);
    hide AsciiText.Decimal, AsciiText.ValueOf;
    AsciiText.DecimalReads(ClampEdgeLimit(r.q.edgeLimit));
  }
}
