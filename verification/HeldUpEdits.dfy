/** Edits the user makes while a refresh is in flight: which of them are submitted when it comes back, which wait for
    the next poll, and which are overwritten. */
module HeldUpEdits {
  import opened Limits
  import opened KindFilters
  import opened Intents
  import opened Prefs
  import opened RefreshProtocol
  import opened LoadedConsole
  import opened CatchingUp

  /** A console that starts polling, is edited, and has its first refresh come back. */
  function EditedDuringRefresh(c: Console, edited: Console, report: Report, later: int): System {
    var s1 := Tick(Initial(c, 0), POLL_DEFAULT_MS, SMOOTH);
    Tick(Finish(s1.(console := edited), report), later, SMOOTH)
  }

  lemma EditedDuringRefreshIsRun(c: Console, edited: Console, report: Report, later: int)
    ensures EditedDuringRefresh(c, edited, report, later) ==
            Run(Initial(c, 0), [MainTick(POLL_DEFAULT_MS, SMOOTH), Edit(edited), WorkerDone(report),
                                MainTick(later, SMOOTH)])
  {
    hide Tick, Finish;
    RunOne(Initial(c, 0), MainTick(POLL_DEFAULT_MS, SMOOTH), [Edit(edited), WorkerDone(report),
                                                              MainTick(later, SMOOTH)]);
    var s1 := Tick(Initial(c, 0), POLL_DEFAULT_MS, SMOOTH);
    RunOne(s1, Edit(edited), [WorkerDone(report), MainTick(later, SMOOTH)]);
    RunOne(s1.(console := edited), WorkerDone(report), [MainTick(later, SMOOTH)]);
    RunOne(Finish(s1.(console := edited), report), MainTick(later, SMOOTH), []);
  }

  lemma RunOne(sys: System, step: Step, rest: seq<Step>)
    ensures Run(sys, [step] + rest) == Run(Next(sys, step), rest)
  {
    hide Next;
    assert ([step] + rest)[1..] == rest;
  }

  /** The first tick submits a refresh for the settings the console started with. */
  lemma FirstTickSubmits(c: Console)
    requires CanSchedule(c)
    ensures var s := Tick(Initial(c, 0), POLL_DEFAULT_MS, SMOOTH);
      && s.console == c && s.rt.inFlight && s.rt.inFlightIntent == Capture(c.q) && s.rt.inFlightId == 1
      && s.rt.nextId == 2 && s.rt.lastAppliedId == 0 && s.tasks == [Task(1, Capture(c.q))] && s.done == []
      && s.rt.dueMs == 2 * POLL_DEFAULT_MS
  {
    hide Capture, Restored, Presented, IntentMatches, Stored;
    CaptureTwice(c.q);
  }

  /** A refresh that comes back after the user has changed the settings: the new settings are in flight afterwards
      exactly if they are recheckable. Otherwise they are forgotten and have to wait for the poll. */
  lemma EditIsSubmittedIff(c: Console, edited: Console, report: Report, later: int)
    requires CanSchedule(c) && CanSchedule(edited) && Capture(edited.q) != Capture(c.q)
    ensures var end := EditedDuringRefresh(c, edited, report, later);
      && Inv(end) && end.console == edited && !end.rt.pendingValid && end.done == []
      && (end.rt.inFlight <==> Recheckable(edited.q))
      && (end.rt.inFlight ==> end.rt.inFlightIntent == Capture(edited.q) && end.rt.inFlightId == 2)
      && (!end.rt.inFlight ==> end.tasks == [] && end.rt.nextId == 2 && end.rt.dueMs == 2 * POLL_DEFAULT_MS)
  {
    hide Inv, Capture, Tick, Recheckable, CanSchedule;
    FirstTickSubmits(c);
    InitialInv(c, 0);
    TickKeepsInv(Initial(c, 0), POLL_DEFAULT_MS, SMOOTH);
    var s1 := Tick(Initial(c, 0), POLL_DEFAULT_MS, SMOOTH);
    EditKeepsInv(s1, edited);
    var s2 := s1.(console := edited);
    FinishKeepsInv(s2, report);
    hide Finish;
    FinishedFirst(s2, report);
    LatestIntentWins(Finish(s2, report), later, SMOOTH);
    TickKeepsInv(Finish(s2, report), later, SMOOTH);
  }

  /** Settings that are held up stay in the console; no tick submits them before the poll is due, and the first one
      after does. */
  lemma HeldUpUntilPoll(c: Console, edited: Console, report: Report, later: int, now: int)
    requires CanSchedule(c) && CanSchedule(edited) && Capture(edited.q) != Capture(c.q) && !Recheckable(edited.q)
    ensures var end := EditedDuringRefresh(c, edited, report, later);
            var t := Tick(end, now, SMOOTH);
      && (now < 2 * POLL_DEFAULT_MS ==> t == end)
      && (now >= 2 * POLL_DEFAULT_MS ==>
            t.console == edited && t.rt.inFlight && t.rt.inFlightIntent == Capture(edited.q) && t.rt.inFlightId == 2)
  {
    hide Capture, EditedDuringRefresh, Recheckable, Inv, CanSchedule;
    EditIsSubmittedIff(c, edited, report, later);
    IdleTick(EditedDuringRefresh(c, edited, report, later), now);
  }

  /** With nothing in flight and nothing remembered a tick submits the current settings if the poll is due, and does
      nothing otherwise. */
  lemma IdleTick(sys: System, now: int)
    requires !sys.rt.inFlight && !sys.rt.pendingValid && sys.done == [] && CanSchedule(sys.console)
    ensures var t := Tick(sys, now, SMOOTH);
      && (now < sys.rt.dueMs ==> t == sys)
      && (now >= sys.rt.dueMs ==> t.console == sys.console && t.rt.inFlight && t.rt.inFlightId == sys.rt.nextId
                                  && t.rt.inFlightIntent == Capture(sys.console.q))
  {
    hide Capture, Restored, Presented, IntentMatches;
    CaptureTwice(sys.console.q);
  }

  lemma FinishedFirst(sys: System, report: Report)
    requires |sys.tasks| == 1
    ensures var s := Finish(sys, report); s.console == sys.console && s.rt == sys.rt && s.done != []
  {
  }

  /** For a console that starts from loaded preferences, whatever the chunk: a search typed while the first refresh is
      in flight is submitted when that comes back exactly if the chunk does not name a kind under an override. */
  lemma LoadedEditIsSubmittedIff(theme: int, font: int, presets: Presets, chunk: Chunk, c: Console, search: string,
                                 report: Report, later: int)
    requires CanSchedule(c) && StartsFrom(c.q, Load(Seeded(theme, font), presets, chunk)) && search != c.q.search
    ensures var edited := c.(q := c.q.(search := search));
            EditedDuringRefresh(c, edited, report, later).rt.inFlight <==> !KindUnderOverride(chunk)
  {
    hide Load, Seeded, StartsFrom, Capture, EditedDuringRefresh, KindUnderOverride;
    var edited := c.(q := c.q.(search := search));
    LoadedIsRecheckableIff(theme, font, presets, chunk, c.q);
    SearchDiffers(c.q, search);
    EditIsSubmittedIff(c, edited, report, later);
  }

  /** A version 7 payload that stores the kind "supports" and the override. */
  function SupportsUnderOverride(theme: int, font: int): Chunk {
    Layered(7, BuildV7(Seeded(theme, font)).(kindText := "supports", kindOverride := 1))
  }

  /** In a console that has loaded that payload, a search typed while a refresh is in flight is not submitted before the
      next due poll: not when that refresh comes back, nor by any tick before the poll is due. */
  lemma SearchIsHeldUpAfterLoading(theme: int, font: int, presets: Presets, c: Console, search: string, report: Report,
                                   later: int, now: int)
    requires CanSchedule(c)
    requires StartsFrom(c.q, Load(Seeded(theme, font), presets, SupportsUnderOverride(theme, font)))
    requires search != c.q.search
    ensures c.q.kind == EdgeFilter(0x01, 1, "")
    ensures var edited := c.(q := c.q.(search := search));
            var end := EditedDuringRefresh(c, edited, report, later);
            end.console == edited && !end.rt.inFlight && !end.rt.pendingValid && end.tasks == [] && end.rt.nextId == 2
    ensures var edited := c.(q := c.q.(search := search));
            var end := EditedDuringRefresh(c, edited, report, later);
            var t := Tick(end, now, SMOOTH);
      && (now < 2 * POLL_DEFAULT_MS ==> t == end)
      && (now >= 2 * POLL_DEFAULT_MS ==>
            t.console == edited && t.rt.inFlight && t.rt.inFlightIntent == Capture(edited.q) && t.rt.inFlightId == 2)
  {
    LoadedSupports(theme, font, presets);
    var edited := c.(q := c.q.(search := search));
    SearchDiffers(c.q, search);
    hide Load, Seeded, SupportsUnderOverride, Capture, EditedDuringRefresh, EdgeKindBit, Inv, Tick;
    EditIsSubmittedIff(c, edited, report, later);
    HeldUpUntilPoll(c, edited, report, later, now);
  }

  /** But it is not lost: whatever the preferences said, two ticks after the poll is due a refresh with that search has
      landed. */
  lemma HeldUpSearchLands(theme: int, font: int, presets: Presets, chunk: Chunk, c: Console, search: string,
                          report: Report, later: int, rounds: seq<(int, Outcome)>)
    requires CanSchedule(c) && StartsFrom(c.q, Load(Seeded(theme, font), presets, chunk)) && search != c.q.search
    requires var end := EditedDuringRefresh(c, c.(q := c.q.(search := search)), report, later);
             |rounds| >= 2 && forall i :: 0 <= i < |rounds| ==> end.rt.dueMs <= rounds[i].0
    ensures var end := EditedDuringRefresh(c, c.(q := c.q.(search := search)), report, later);
      && end.console.q.search == search && LandedSince(|end.log|, Rounds(end, rounds).log, end.console.q)
  {
    hide Load, Seeded, StartsFrom, Capture, EditedDuringRefresh, Inv, Recheckable, LimitsInRange, Rounds, LandedSince;
    var edited := c.(q := c.q.(search := search));
    StartsInRange(theme, font, presets, chunk, c.q);
    SearchDiffers(c.q, search);
    EditIsSubmittedIff(c, edited, report, later);
    ConsoleCatchesUp(EditedDuringRefresh(c, edited, report, later), rounds);
  }

  lemma LoadedSupports(theme: int, font: int, presets: Presets)
    ensures Load(Seeded(theme, font), presets, SupportsUnderOverride(theme, font)).kind == EdgeFilter(0x01, 1, "")
  {
    hide CompactProjects, RatioOrDefault, ZoomOrDefault, PanOrDefault, HiddenIds, IdSlots, NormalNode, EdgeMask;
  }

  lemma SearchDiffers(q: Intent, search: string)
    requires search != q.search
    ensures Capture(q.(search := search)) != Capture(q)
    ensures LimitsInRange(q.(search := search)) <==> LimitsInRange(q)
  {
  }

  // ----- what repairs a console with an override over a partial mask

  /** Copying a payload into the console fills the mask under an override and recomputes the text. */
  lemma AppliedPayloadRepairs(c: Console, r: Console)
    ensures OverrideIsFull(ApplyRefreshed(c, r).q.kind) && TextFollows(ApplyRefreshed(c, r).q.kind)
  {
    hide SingleKind, ShownLimit;
  }

  /** The database has something to show that the console does not. */
  ghost predicate BringsNews(c: Console, r: Console) {
    || c.listing != r.listing || c.selection != r.selection || c.graph != r.graph
    || c.q.selected != r.q.selected || c.q.center != r.q.center || c.q.projects != r.q.projects
  }

  /** The flags and the item-kind filter are not as a capture makes them. */
  ghost predicate RawFlags(q: Intent) {
    || q.pinnedOnly != Flag(q.pinnedOnly) || q.canonicalOnly != Flag(q.canonicalOnly)
    || q.kindIndex != ClampKindIndex(q.kindIndex) || q.fullScope != Flag(q.fullScope) || q.node != NormalNode(q.node)
  }

  /** Draining a completion of the worker that is not dropped repairs such a console exactly if it brings news, or
      some flag of the console is raw. A payload that brings none counts as applied but is not copied, and the
      comparison does not look at the link-kind mask. */
  lemma DrainRepairsIff(sys: System, c: Completion, now: int)
    requires Captured(c.intent) && c.outcome.Loaded? && FromWorker(c.intent, c.outcome.refreshed)
    requires Judge(sys, c) == Changed || Judge(sys, c) == Unchanged
    requires !OverrideIsFull(sys.console.q.kind)
    ensures OverrideIsFull(Drain(sys, Got(c), now).console.q.kind) <==>
            BringsNews(sys.console, c.outcome.refreshed) || RawFlags(sys.console.q)
  {
    NewsIsChange(c.intent, sys.console, c.outcome.refreshed);
    AppliedPayloadRepairs(sys.console, c.outcome.refreshed);
    hide PayloadChanged, FromWorker, Captured, MatchesState, ApplyRefreshed, OverrideIsFull, BringsNews, RawFlags;
    EditsKeepKind(ApplyRefreshed(sys.console, c.outcome.refreshed));
  }

  lemma EditsKeepKind(c: Console)
    ensures SyncEdits(c).q == c.q
  {
  }

  /** What the worker brings for the settings on screen is copied exactly if it is news, or a flag is raw. */
  lemma NewsIsChange(i: Intent, c: Console, r: Console)
    requires Captured(i) && FromWorker(i, r) && MatchesState(i, c.q)
    ensures PayloadChanged(c, r) <==> BringsNews(c, r) || RawFlags(c.q)
  {
    hide Synced, CopiedProjects, EdgeMask, ProjectsMatch;
  }

  /** Of what a worker's completion brings, exactly a new graph redraws the graph. */
  lemma NewGraphIsGraphChange(i: Intent, c: Console, r: Console)
    requires Captured(i) && FromWorker(i, r) && MatchesState(i, c.q)
    ensures GraphChanged(c, r) <==>
            c.graph != r.graph || c.q.fullScope != Flag(c.q.fullScope) || c.q.node != NormalNode(c.q.node)
  {
    hide Synced, CopiedProjects, EdgeMask, ProjectsMatch;
  }

  // ----- an input that is overwritten

  /** The limit the user is typing is overwritten by the next payload that changes anything: "7" typed over 128 is
      lost to a refresh that brings a new listing. */
  lemma TypedLimitIsLost(c: Console, r: Console, later: int)
    requires CanSchedule(c) && LimitsInRange(c.q) && c.q.edgeLimit == 128
    requires FromWorker(Capture(c.q), r) && r.listing != c.listing
    ensures var typing := c.(inputs := c.inputs.(limit := EditText("7", 1)));
            var end := EditedDuringRefresh(c, typing, Report(Loaded(r)), later);
            end.console.inputs.limit == EditText("128", 3) && end.console.q.edgeLimit == 128
  {
    hide Inv, Capture, Tick, FromWorker, MatchesState;
    var typing := c.(inputs := c.inputs.(limit := EditText("7", 1)));
    FirstTickSubmits(c);
    InitialInv(c, 0);
    TickKeepsInv(Initial(c, 0), POLL_DEFAULT_MS, SMOOTH);
    var s1 := Tick(Initial(c, 0), POLL_DEFAULT_MS, SMOOTH);
    EditKeepsInv(s1, typing);
    FinishKeepsInv(s1.(console := typing), Report(Loaded(r)));
    var s2 := Finish(s1.(console := typing), Report(Loaded(r)));
    CurrentFlightWaits(s2, later);
    CaptureTwice(c.q);
    GuardIsCurrentIntent(Capture(c.q), c.q);
    assert Applies(s2);
    DrainAllKeepsInv(s2, later);
    TickIsDrain(s2, later);
    AppliedLimit(s2, r, later);
  }

  lemma TickIsDrain(sys: System, now: int)
    requires BeforeDrain(sys, now, SMOOTH) == sys
    ensures Tick(sys, now, SMOOTH).console == DrainAll(sys, now).console
  {
    hide BeforeDrain, DrainAll;
  }

  lemma AppliedLimit(sys: System, r: Console, now: int)
    requires Applies(sys) && sys.done[0].c.outcome == Loaded(r) && sys.console.q.edgeLimit == 128
    requires FromWorker(sys.done[0].c.intent, r)
    ensures var d := Drain(sys.(done := []), sys.done[0], now).console;
            d.inputs.limit == EditText("128", 3) && d.q.edgeLimit == 128
  {
  }
}
