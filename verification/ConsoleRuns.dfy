/** Whole runs of user, console, refresh protocol and worker: what stays true of the console from its start on, and
    that it always catches up. */
module ConsoleRuns {
  import opened Limits
  import opened KindFilters
  import opened Intents
  import opened Prefs
  import opened RefreshProtocol
  import opened LoadedConsole
  import opened ConsoleEdits
  import opened CatchingUp

  // ----- moves

  /** What happens next: the user does something, which may change anything in the console besides the query settings
      too, or the protocol moves on. */
  datatype Move = Does(op: UserOp, rest: Console) | Moves(step: Step)

  function StepOf(sys: System, move: Move): Step {
    match move
    case Does(op, rest) => Edit(rest.(q := UserStep(sys.console.q, op)))
    case Moves(step) => step
  }

  function Play(sys: System, moves: seq<Move>): System
    decreases |moves|
  {
    if moves == [] then sys else Play(Next(sys, StepOf(sys, moves[0])), moves[1..])
  }

  /** Playing moves is running the protocol. */
  lemma {:induction false} PlayIsRun(sys: System, moves: seq<Move>) returns (steps: seq<Step>)
    ensures |steps| == |moves| && Play(sys, moves) == Run(sys, steps)
    decreases |moves|
  {
    hide Next, StepOf;
    if moves == [] {
      steps := [];
    } else {
      var step := StepOf(sys, moves[0]);
      var rest := PlayIsRun(Next(sys, step), moves[1..]);
      steps := [step] + rest;
      assert steps[1..] == rest;
    }
  }

  // ----- what stays true of the console

  /** The limits are in range, and, if that is asked for, the console is recheckable with a normal item-kind filter. */
  ghost predicate Holds(q: Intent, sound: bool) {
    LimitsInRange(q) && (sound ==> Sound(q))
  }

  /** The worker copies the selected projects and at most drops some. */
  ghost predicate ReportFits(report: Report) {
    report.Report? && report.outcome.Loaded? ==> 0 <= report.outcome.refreshed.q.projects.count <= SCOPE_FILTER_LIMIT
  }

  ghost predicate MessageFits(m: Message) {
    m.Got? && m.c.outcome.Loaded? ==> 0 <= m.c.outcome.refreshed.q.projects.count <= SCOPE_FILTER_LIMIT
  }

  /** Reports come from the worker, and the user does what the user interface offers. */
  ghost predicate MoveFits(move: Move, sound: bool) {
    match move
    case Does(op, _) => sound ==> Offered(op)
    case Moves(Edit(console)) => Holds(console.q, sound)
    case Moves(MainTick(_, luck)) => luck.between.Reports? ==> ReportFits(luck.between.report)
    case Moves(WorkerDone(report)) => ReportFits(report)
    case Moves(LocalWrite(_)) => true
  }

  ghost predicate HoldsIn(sys: System, sound: bool) {
    Holds(sys.console.q, sound) && forall i :: 0 <= i < |sys.done| ==> MessageFits(sys.done[i])
  }

  /** Applying a payload even repairs the link-kind filter and the limits. */
  lemma ApplyKeeps(c: Console, r: Console, sound: bool)
    requires Holds(c.q, sound) && 0 <= r.q.projects.count <= SCOPE_FILTER_LIMIT
    ensures Holds(SyncEdits(ApplyRefreshed(c, r)).q, sound)
  {
    hide SingleKind, ShownLimit, NodeFilterNormal, Synced, TextFollows;
    var f := EdgeFilter(EdgeMask(r.q.kind), Flag(r.q.kind.allOverride), c.q.kind.text);
    SyncedFollows(f);
    assert MaskFull(f) || f.allOverride == 0;
  }

  lemma DrainKeeps(sys: System, popped: Message, now: int, sound: bool)
    requires HoldsIn(sys, sound) && MessageFits(popped)
    ensures HoldsIn(Drain(sys, popped, now), sound)
  {
    hide Holds, ApplyRefreshed, SyncEdits, MatchesState, PayloadChanged;
    DrainLeavesQueue(sys, popped, now);
    if popped.Got? && Judge(sys, popped.c) == Changed {
      ApplyKeeps(sys.console, popped.c.outcome.refreshed, sound);
    }
  }

  lemma {:induction false} DrainAllKeeps(sys: System, now: int, sound: bool)
    requires HoldsIn(sys, sound)
    ensures HoldsIn(DrainAll(sys, now), sound)
    decreases |sys.done|
  {
    hide Holds, Drain, MessageFits;
    if sys.done != [] {
      var s := sys.(done := sys.done[1..]);
      DrainKeeps(s, sys.done[0], now, sound);
      DrainLeavesQueue(s, sys.done[0], now);
      DrainAllKeeps(Drain(s, sys.done[0], now), now, sound);
    }
  }

  lemma FinishKeeps(sys: System, report: Report, sound: bool)
    requires HoldsIn(sys, sound) && ReportFits(report)
    ensures HoldsIn(Finish(sys, report), sound)
  {
    hide Holds;
  }

  lemma FlushKeeps(sys: System, can: bool, now: int, attempt: Attempt, sound: bool)
    requires HoldsIn(sys, sound)
    ensures HoldsIn(FlushPending(sys, can, now, attempt), sound)
  {
    hide Holds, MessageFits, Capture, Restored, Presented, IntentMatches;
  }

  lemma TickKeeps(sys: System, now: int, luck: Luck, sound: bool)
    requires HoldsIn(sys, sound) && (luck.between.Reports? ==> ReportFits(luck.between.report))
    ensures HoldsIn(Tick(sys, now, luck), sound)
  {
    hide Holds, MessageFits, ReportFits, Coalesce, Capture, Finish, DrainAll, FlushPending;
    var s := TickBegin(sys, now, luck);
    if luck.between.Reports? {
      FinishKeeps(s, luck.between.report, sound);
    }
    DrainAllKeeps(BeforeDrain(sys, now, luck), now, sound);
    FlushKeeps(DrainAll(BeforeDrain(sys, now, luck), now), CanSchedule(sys.console), now, luck.second, sound);
  }

  lemma MoveKeeps(sys: System, move: Move, sound: bool)
    requires HoldsIn(sys, sound) && MoveFits(move, sound)
    ensures HoldsIn(Next(sys, StepOf(sys, move)), sound)
  {
    hide Sound, LimitsInRange, MessageFits, ReportFits, Offered, UserStep, Finish, Tick;
    match move {
      case Does(op, _) =>
        UserStepKeepsRange(sys.console.q, op);
        if sound {
          UserStepStaysSound(sys.console.q, op);
        }
      case Moves(Edit(_)) =>
      case Moves(MainTick(now, luck)) => TickKeeps(sys, now, luck, sound);
      case Moves(WorkerDone(report)) => FinishKeeps(sys, report, sound);
      case Moves(LocalWrite(_)) =>
    }
  }

  /** Over every run the limits stay in range. And a sound console stays sound whatever the user does that is offered:
      no refresh ever takes it out of that state. */
  lemma {:induction false} RunsKeep(sys: System, moves: seq<Move>, sound: bool)
    requires HoldsIn(sys, sound) && forall i :: 0 <= i < |moves| ==> MoveFits(moves[i], sound)
    ensures HoldsIn(Play(sys, moves), sound)
    decreases |moves|
  {
    hide HoldsIn, MoveFits, Next, StepOf;
    if moves != [] {
      MoveKeeps(sys, moves[0], sound);
      RunsKeep(Next(sys, StepOf(sys, moves[0])), moves[1..], sound);
    }
  }

  lemma PlayKeepsInv(console: Console, start: int, moves: seq<Move>)
    ensures Inv(Play(Initial(console, start), moves))
  {
    hide Inv, Run, Play;
    var steps := PlayIsRun(Initial(console, start), moves);
    InitialInv(console, start);
    RunsKeepInv(Initial(console, start), steps);
  }

  /** So in every such run the latest intent wins. */
  lemma LatestIntentWinsInEveryRun(console: Console, start: int, moves: seq<Move>, now: int, luck: Luck)
    requires Sound(console.q) && forall i :: 0 <= i < |moves| ==> MoveFits(moves[i], true)
    requires var sys := Play(Initial(console, start), moves);
      && sys.rt.inFlight && Capture(sys.console.q) != sys.rt.inFlightIntent && CanSchedule(sys.console)
      && (sys.done != [] || luck.between.Reports?) && luck.second == Accepted
    ensures var sys := Play(Initial(console, start), moves);
            var t := Tick(sys, now, luck);
      && t.rt.inFlight && t.rt.inFlightIntent == Capture(sys.console.q) && t.rt.inFlightId == sys.rt.nextId
      && !t.rt.pendingValid && t.console == sys.console
  {
    hide Inv, Recheckable, LimitsInRange, NodeFilterNormal, Capture, Tick, Play, MoveFits;
    SoundInRange(console.q);
    PlayKeepsInv(console, start, moves);
    RunsKeep(Initial(console, start), moves, true);
    LatestIntentWins(Play(Initial(console, start), moves), now, luck);
  }

  lemma SoundInRange(q: Intent)
    requires Sound(q)
    ensures LimitsInRange(q)
  {
  }

  /** And a payload that arrives again only slows the polling down. */
  lemma RepeatsAreQuietInEveryRun(console: Console, start: int, moves: seq<Move>, first: Completion, later: System,
                                  again: Completion, now: int)
    requires Sound(console.q) && forall i :: 0 <= i < |moves| ==> MoveFits(moves[i], true)
    requires Captured(first.intent) && first.outcome.Loaded? && FromWorker(first.intent, first.outcome.refreshed)
    requires var sys := Play(Initial(console, start), moves);
      && Judge(sys, first) == Changed
      && later.console == SyncEdits(ApplyRefreshed(sys.console, first.outcome.refreshed))
    requires again.outcome == first.outcome && (Judge(later, again) == Changed || Judge(later, again) == Unchanged)
    ensures Judge(later, again) == Unchanged && Drain(later, Got(again), now).console == later.console
    ensures Drain(later, Got(again), now).rt.pollMs == NextBackoff(later.rt.pollMs) > POLL_DEFAULT_MS
  {
    hide Recheckable, LimitsInRange, NodeFilterNormal, NormalNode, Play, Judge, Drain, Captured, FromWorker,
         ApplyRefreshed, SyncEdits, MoveFits;
    SoundInRange(console.q);
    RunsKeep(Initial(console, start), moves, true);
    var sys := Play(Initial(console, start), moves);
    NormalNodeFilters(sys.console.q.node);
    RepeatOnlyBacksOff(sys, first, later, again, now);
  }

  // ----- from loading on

  /** From its start on, whatever the preferences said, at any point of any run: if the user stops, the pool accepts
      and the worker finishes, a few ticks after the poll is due land a refresh for the settings on screen. Four ticks
      are enough for preferences that name a kind under an override, three for all others. */
  lemma EveryRunCatchesUp(theme: int, font: int, presets: Presets, chunk: Chunk, console: Console, start: int,
                          moves: seq<Move>, rounds: seq<(int, Outcome)>)
    requires StartsFrom(console.q, Load(Seeded(theme, font), presets, chunk))
    requires forall i :: 0 <= i < |moves| ==> MoveFits(moves[i], !KindUnderOverride(chunk))
    requires CanSchedule(Play(Initial(console, start), moves).console)
    requires |rounds| >= if KindUnderOverride(chunk) then 4 else 3
    requires forall i :: 0 <= i < |rounds| ==> Play(Initial(console, start), moves).rt.dueMs <= rounds[i].0
    ensures var sys := Play(Initial(console, start), moves);
            LandedSince(|sys.log|, Rounds(sys, rounds).log, sys.console.q)
  {
    hide Inv, Load, Seeded, Recheckable, LimitsInRange, NodeFilterNormal, KindUnderOverride, Play, MoveFits, Rounds,
         CanSchedule, LandedSince, TicksToGo, StartsFrom;
    StartsInRange(theme, font, presets, chunk, console.q);
    LoadedIsRecheckableIff(theme, font, presets, chunk, console.q);
    PlayKeepsInv(console, start, moves);
    RunsKeep(Initial(console, start), moves, !KindUnderOverride(chunk));
    var sys := Play(Initial(console, start), moves);
    TicksAreFew(sys);
    ConsoleCatchesUp(sys, rounds);
  }

  lemma TicksAreFew(sys: System)
    ensures TicksToGo(sys) <= if Recheckable(sys.console.q) then 3 else 4
  {
    hide Recheckable;
  }
}
