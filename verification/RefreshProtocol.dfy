/** The background refresh as a state machine: user edits, ticks of the main loop, and the worker finishing a task.

    The worker pool is assumed to turn every accepted task into exactly one completion, possibly an empty one, and
    accepting a task and recording it as in flight is one step. */
module RefreshProtocol {
  import opened Limits
  import opened KindFilters
  import opened GraphState
  import opened Intents
  import AsciiText
  import EditBuffer

  const POLL_DEFAULT_MS := 900
  const POLL_STEADY_MS := 2000
  const POLL_MAX_MS := 5000

  datatype ListItem = ListItem(id: int, updatedNs: int, pinned: int, canonical: int, title: string,
                               workspaceKey: string, projectKey: string, kind: string)

  /** The parts of the console a refresh copies as they are. */
  datatype Listing = Listing(
    schemaVersion: string, activeCount: int, matchingCount: int, visibleStart: int, visibleCount: int,
    visibleItems: seq<ListItem>, optionCount: int, optionLabels: seq<string>, optionKeys: seq<string>,
    optionCounts: seq<int>, summary: string)
  datatype Selection = Selection(createdNs: int, pinned: int, canonical: int, title: string, body: string)
  datatype GraphData = GraphData(nodeCount: int, edgeCount: int, nodes: seq<Node>, edges: seq<Edge>)

  /** An edit buffer: text and cursor. */
  datatype EditText = EditText(text: string, cursor: int)

  /** The other inputs: the search cursor, the database path, the edge limit being typed, the relationship target. */
  datatype Inputs = Inputs(searchCursor: int, path: EditBuffer.Field, limit: EditText, target: EditText)

  /** The console state as far as the refresh reads or writes it. */
  datatype Console = Console(q: Intent, listing: Listing, selection: Selection, graph: GraphData,
                             titleEditMode: int, bodyEditMode: int, searchPending: int,
                             titleEdit: EditText, bodyEdit: EditText, inputs: Inputs)

  datatype Outcome = Loaded(refreshed: Console) | LoadError

  datatype Task = Task(id: int, intent: Intent)

  datatype Completion = Completion(id: int, intent: Intent, outcome: Outcome)

  /** What became of one completion. */
  datatype Verdict = Empty | Stale | Mismatch | Editing | Error | Changed | Unchanged

  /** History: each submission with the settings it was made under, each drained completion with the settings it met. */
  datatype Event =
    | Submitted(id: int, intent: Intent, current: Intent)
    | Drained(id: int, intent: Intent, current: Intent, verdict: Verdict)

  datatype Counters = Counters(submitted: int, applied: int, stale: int, mismatch: int, editing: int, errors: int,
                               coalesced: int)

  datatype Runtime = Runtime(nextId: int, lastAppliedId: int, dueMs: int, pollMs: int,
                             inFlight: bool, inFlightId: int, inFlightIntent: Intent,
                             pendingValid: bool, pending: Intent, counters: Counters)

  /** `tasks` are queued or running; `done` are completions the main loop has not popped yet. */
  datatype System = System(console: Console, rt: Runtime, tasks: seq<Task>, done: seq<Message>, log: seq<Event>)

  datatype Message = Nothing | Got(c: Completion)

  predicate CanSchedule(c: Console) {
    c.titleEditMode == 0 && c.bodyEditMode == 0 && c.searchPending == 0
  }

  function NextBackoff(ms: int): (longer: int)
    ensures longer == 2000 || longer == 5000
    ensures longer == 2000 <==> ms < 2000
  {
    if ms < POLL_STEADY_MS then POLL_STEADY_MS else POLL_MAX_MS
  }

  /** Whether the graph part of a refreshed state differs from what is shown. */
  predicate GraphChanged(c: Console, r: Console) {
    || c.graph != r.graph || c.q.edgeLimit != r.q.edgeLimit || c.q.hops != r.q.hops || c.q.fullScope != r.q.fullScope
    || c.q.node != r.q.node
  }

  predicate OtherChanged(c: Console, r: Console) {
    || c.listing != r.listing || c.q.pinnedOnly != r.q.pinnedOnly || c.q.canonicalOnly != r.q.canonicalOnly
    || c.q.kindIndex != r.q.kindIndex || c.q.projects != r.q.projects
    || c.q.selected != r.q.selected || c.q.center != r.q.center || c.selection != r.selection
  }

  predicate PayloadChanged(c: Console, r: Console) {
    GraphChanged(c, r) || OtherChanged(c, r)
  }

  /** The edge-limit input showing a limit, with the cursor behind it. */
  function ShownLimit(limit: int): EditText {
    var digits := AsciiText.Decimal(ClampEdgeLimit(limit));
    EditText(digits, |digits|)
  }

  /** Copies a refreshed state into the console, and shows its edge limit in the input for it. The search text, list
      offset, layout, sort and item-kind filter stay. */
  function ApplyRefreshed(c: Console, r: Console): Console {
    c.(listing := r.listing, selection := r.selection, graph := r.graph,
       inputs := c.inputs.(limit := ShownLimit(r.q.edgeLimit)),
       q := c.q.(pinnedOnly := Flag(r.q.pinnedOnly), canonicalOnly := Flag(r.q.canonicalOnly),
                 kindIndex := ClampKindIndex(r.q.kindIndex), projects := r.q.projects,
                 selected := IdOrNone(r.q.selected), center := IdOrNone(r.q.center),
                 kind := Synced(EdgeFilter(EdgeMask(r.q.kind), Flag(r.q.kind.allOverride), c.q.kind.text)),
                 edgeLimit := ClampEdgeLimit(r.q.edgeLimit), hops := ClampHops(r.q.hops),
                 fullScope := Flag(r.q.fullScope)))
  }

  function CursorWithin(e: EditText): EditText {
    e.(cursor := EditBuffer.ClampedTo(e.text, e.cursor))
  }

  /** Reloads the edit buffers from the selection, except one that is being edited, and puts the other cursors, and the
      selection in the path, back inside their texts. */
  function SyncEdits(c: Console): Console {
    var path := c.inputs.path;
    c.(titleEdit := if c.titleEditMode != 0 then c.titleEdit else EditText(c.selection.title, |c.selection.title|),
       bodyEdit := if c.bodyEditMode != 0 then c.bodyEdit else EditText(c.selection.body, |c.selection.body|),
       inputs := Inputs(EditBuffer.ClampedTo(c.q.search, c.inputs.searchCursor),
                        EditBuffer.Normalized(path.(cursor := EditBuffer.ClampedTo(path.text, path.cursor))),
                        CursorWithin(c.inputs.limit), CursorWithin(c.inputs.target)))
  }

  /** How a submission attempt can end. A refused submission has already used up a request id. */
  datatype Attempt = Accepted | OutOfMemory | Refused

  /** One scheduling attempt for the settings `q`; `ok` is the result code. */
  function Schedule(sys: System, q: Intent, attempt: Attempt): System
    requires !sys.rt.inFlight
  {
    match attempt
    case OutOfMemory => sys
    case Refused => sys.(rt := sys.rt.(nextId := sys.rt.nextId + 1))
    case Accepted =>
      var id, intent := sys.rt.nextId, Capture(q);
      sys.(rt := sys.rt.(nextId := id + 1, inFlight := true, inFlightId := id, inFlightIntent := Stored(intent),
                         counters := sys.rt.counters.(submitted := sys.rt.counters.submitted + 1)),
           tasks := sys.tasks + [Task(id, intent)],
           log := sys.log + [Submitted(id, intent, sys.console.q)])
  }

  /** Remembers the current intent if the one in flight, and the one remembered, are out of date. */
  function Coalesce(rt: Runtime, current: Intent): Runtime {
    if rt.inFlight && !IntentMatches(current, rt.inFlightIntent) &&
        (!rt.pendingValid || !IntentMatches(current, rt.pending))
    then rt.(pendingValid := true, pending := Stored(current),
             counters := rt.counters.(coalesced := rt.counters.coalesced + 1))
    else rt
  }

  function PollSchedule(sys: System, now: int, attempt: Attempt): System {
    if !sys.rt.inFlight && CanSchedule(sys.console) && now >= sys.rt.dueMs
    then
      var s := Schedule(sys, sys.console.q, attempt);
      s.(rt := s.rt.(dueMs := now + s.rt.pollMs))
    else sys
  }

  function Judge(sys: System, c: Completion): Verdict {
    if c.id < sys.rt.lastAppliedId || c.id < sys.rt.inFlightId then Stale
    else if !MatchesState(c.intent, sys.console.q) then Mismatch
    else if !CanSchedule(sys.console) then Editing
    else if c.outcome.LoadError? then Error
    else if PayloadChanged(sys.console, c.outcome.refreshed) then Changed
    else Unchanged
  }

  /** One popped completion. */
  function Drain(sys: System, popped: Message, now: int): System {
    var rt := sys.rt.(inFlight := false);
    match popped
    case Nothing => sys.(rt := rt, log := sys.log + [Drained(rt.inFlightId, rt.inFlightIntent, sys.console.q, Empty)])
    case Got(c) =>
      var verdict := Judge(sys, c);
      var n := rt.counters;
      var log := sys.log + [Drained(c.id, c.intent, sys.console.q, verdict)];
      match verdict
      case Empty => sys
      case Stale => sys.(rt := rt.(counters := n.(stale := n.stale + 1)), log := log)
      case Mismatch => sys.(rt := rt.(counters := n.(mismatch := n.mismatch + 1)), log := log)
      case Editing => sys.(rt := rt.(counters := n.(editing := n.editing + 1)), log := log)
      case Error => sys.(rt := rt.(lastAppliedId := c.id, counters := n.(errors := n.errors + 1),
                                   dueMs := now + rt.pollMs), log := log)
      case Changed =>
        sys.(console := SyncEdits(ApplyRefreshed(sys.console, c.outcome.refreshed)),
             rt := rt.(lastAppliedId := c.id, pollMs := POLL_DEFAULT_MS, counters := n.(applied := n.applied + 1),
                       dueMs := now + POLL_DEFAULT_MS),
             log := log)
      case Unchanged =>
        var poll := NextBackoff(rt.pollMs);
        sys.(rt := rt.(lastAppliedId := c.id, pollMs := poll, counters := n.(applied := n.applied + 1),
                       dueMs := now + poll), log := log)
  }

  function DrainAll(sys: System, now: int): System
    decreases |sys.done|
  {
    if sys.done == [] then sys
    else DrainAll(Drain(sys.(done := sys.done[1..]), sys.done[0], now), now)
  }

  /** Submits the remembered intent, if it still is the current one. `can` was decided when the tick began. */
  function FlushPending(sys: System, can: bool, now: int, attempt: Attempt): System {
    if !sys.rt.inFlight && sys.rt.pendingValid && can then
      if IntentMatches(Restored(sys.rt.pending), Presented(sys.console.q)) then
        var s := Schedule(sys.(rt := sys.rt.(pollMs := POLL_DEFAULT_MS)), Restored(sys.rt.pending), attempt);
        if attempt == Accepted then s.(rt := s.rt.(pendingValid := false, dueMs := now + s.rt.pollMs)) else s
      else sys.(rt := sys.rt.(pendingValid := false))
    else sys
  }

  /** What the worker reports for a task. */
  datatype Report = NoMemory | Report(outcome: Outcome)

  function Finish(sys: System, report: Report): System {
    if sys.tasks == [] then sys
    else
      var task := sys.tasks[0];
      sys.(tasks := sys.tasks[1..],
           done := sys.done + [if report.NoMemory? then Nothing
                               else Got(Completion(task.id, task.intent, report.outcome))])
  }

  /** Everything a tick does not decide itself: the outcomes of its two submission attempts, and whether the worker
      finishes between the first of them and the draining of the queue. */
  datatype Luck = Luck(first: Attempt, between: MaybeReport, second: Attempt)
  datatype MaybeReport = NotYet | Reports(report: Report)

  function TickBegin(sys: System, now: int, luck: Luck): System {
    PollSchedule(sys.(rt := Coalesce(sys.rt, Capture(sys.console.q))), now, luck.first)
  }

  /** Where a tick stands when it starts draining the queue. */
  function BeforeDrain(sys: System, now: int, luck: Luck): System {
    var s := TickBegin(sys, now, luck);
    if luck.between.Reports? then Finish(s, luck.between.report) else s
  }

  function Tick(sys: System, now: int, luck: Luck): System {
    FlushPending(DrainAll(BeforeDrain(sys, now, luck), now), CanSchedule(sys.console), now, luck.second)
  }

  datatype Step =
    | Edit(console: Console) | MainTick(now: int, luck: Luck) | WorkerDone(report: Report) | LocalWrite(now: int)

  function Next(sys: System, step: Step): System {
    match step
    case Edit(console) => sys.(console := console)
    case MainTick(now, luck) => Tick(sys, now, luck)
    case WorkerDone(report) => Finish(sys, report)
    case LocalWrite(now) => sys.(rt := sys.rt.(pollMs := POLL_DEFAULT_MS, dueMs := now))
  }

  function Run(sys: System, steps: seq<Step>): System
    decreases |steps|
  {
    if steps == [] then sys else Run(Next(sys, steps[0]), steps[1..])
  }

  const NO_INTENT := Intent("", 0, 0, 0, 0, 0, 0, Projects(0, []), EdgeFilter(0, 0, ""), 0, 0, 0, 0, 0,
                            NodeFilter(0, 0))

  function Initial(console: Console, now: int): System {
    System(console,
           Runtime(1, 0, now + POLL_DEFAULT_MS, POLL_DEFAULT_MS, false, 0, NO_INTENT, false, NO_INTENT,
                   Counters(0, 0, 0, 0, 0, 0, 0)),
           [], [], [])
  }

  // ----- what every reachable state satisfies

  /** One task or completion for a refresh in flight, none otherwise, and it is the one on record. */
  ghost predicate SingleFlight(sys: System) {
    && |sys.tasks| + |sys.done| == (if sys.rt.inFlight then 1 else 0)
    && (forall i :: 0 <= i < |sys.tasks| ==> Task(sys.rt.inFlightId, sys.rt.inFlightIntent) == sys.tasks[i])
    && (forall i :: 0 <= i < |sys.done| && sys.done[i].Got? ==>
          sys.done[i].c.id == sys.rt.inFlightId && sys.done[i].c.intent == sys.rt.inFlightIntent)
    && (sys.rt.inFlight ==> Captured(sys.rt.inFlightIntent))
    && sys.rt.lastAppliedId <= sys.rt.inFlightId < sys.rt.nextId
  }

  function CountSubmitted(log: seq<Event>): int {
    if log == [] then 0 else CountSubmitted(log[..|log| - 1]) + if log[|log| - 1].Submitted? then 1 else 0
  }

  function CountVerdict(log: seq<Event>, v: Verdict): int {
    if log == [] then 0
    else CountVerdict(log[..|log| - 1], v) + if log[|log| - 1].Drained? && log[|log| - 1].verdict == v then 1 else 0
  }

  /** The published counters count exactly what happened, and every submission is accounted for. */
  ghost predicate Conserved(sys: System) {
    var n, log := sys.rt.counters, sys.log;
    && n.submitted == CountSubmitted(log)
    && n.applied == CountVerdict(log, Changed) + CountVerdict(log, Unchanged)
    && n.stale == CountVerdict(log, Stale) == 0
    && n.mismatch == CountVerdict(log, Mismatch) && n.editing == CountVerdict(log, Editing) &&
       n.errors == CountVerdict(log, Error)
    && n.submitted == n.applied + n.stale + n.mismatch + n.editing + n.errors
                      + CountVerdict(log, Empty) + (if sys.rt.inFlight then 1 else 0)
  }

  /** Every submission carried the intent that was current, and nothing was applied for any other than the current
      one. */
  ghost predicate Faithful(e: Event) {
    match e
    case Submitted(_, intent, current) => intent == Capture(current)
    case Drained(_, intent, current, verdict) =>
      && verdict != Stale
      && (verdict == Changed || verdict == Unchanged || verdict == Error ==> intent == Capture(current))
  }

  ghost predicate HistoryFaithful(sys: System) {
    && (forall i :: 0 <= i < |sys.log| ==> Faithful(sys.log[i]))
    && (forall i, j :: 0 <= i < j < |sys.log| && sys.log[i].Submitted? && sys.log[j].Submitted? ==>
       sys.log[i].id < sys.log[j].id)
    && (forall i :: 0 <= i < |sys.log| && sys.log[i].Submitted? ==> sys.log[i].id < sys.rt.nextId)
  }

  ghost predicate PollInSteps(sys: System) {
    sys.rt.pollMs == POLL_DEFAULT_MS || sys.rt.pollMs == POLL_STEADY_MS || sys.rt.pollMs == POLL_MAX_MS
  }

  ghost predicate PendingStored(sys: System) {
    sys.rt.pendingValid ==> Captured(sys.rt.pending)
  }

  ghost predicate Inv(sys: System) {
    SingleFlight(sys) && Conserved(sys) && HistoryFaithful(sys) && PollInSteps(sys) && PendingStored(sys)
  }

  lemma CountAll(log: seq<Event>, e: Event)
    ensures CountSubmitted(log + [e]) == CountSubmitted(log) + if e.Submitted? then 1 else 0
    ensures forall v :: CountVerdict(log + [e], v) ==
                        CountVerdict(log, v) + if e.Drained? && e.verdict == v then 1 else 0
  {
  }

  lemma ScheduleKeepsInv(sys: System, q: Intent, attempt: Attempt)
    requires Inv(sys) && !sys.rt.inFlight && Capture(q) == Capture(sys.console.q)
    ensures Inv(Schedule(sys, q, attempt))
    ensures attempt == Accepted ==> Schedule(sys, q, attempt).rt.inFlight
  {
    hide Capture, CountSubmitted, CountVerdict;
    if attempt == Accepted {
      CountAll(sys.log, Submitted(sys.rt.nextId, Capture(q), sys.console.q));
      CaptureTwice(q);
    }
  }

  /** Timers, and forgetting the remembered intent, are outside the invariant. */
  lemma AdjustKeepsInv(sys: System, due: int, poll: int, keep: bool)
    requires Inv(sys) && (poll == sys.rt.pollMs || poll == POLL_DEFAULT_MS)
    ensures Inv(sys.(rt := sys.rt.(dueMs := due, pollMs := poll, pendingValid := sys.rt.pendingValid && keep)))
  {
  }

  lemma PollKeepsInv(sys: System, now: int, attempt: Attempt)
    requires Inv(sys)
    ensures Inv(PollSchedule(sys, now, attempt))
  {
    hide SingleFlight, Conserved, HistoryFaithful, Schedule;
    if !sys.rt.inFlight && CanSchedule(sys.console) && now >= sys.rt.dueMs {
      ScheduleKeepsInv(sys, sys.console.q, attempt);
      var s := Schedule(sys, sys.console.q, attempt);
      AdjustKeepsInv(s, now + s.rt.pollMs, s.rt.pollMs, true);
    }
  }

  lemma CoalesceKeepsInv(sys: System)
    requires Inv(sys)
    ensures Inv(sys.(rt := Coalesce(sys.rt, Capture(sys.console.q))))
  {
    hide CountSubmitted, CountVerdict, Faithful, Capture, Stored, IntentMatches;
    CaptureTwice(sys.console.q);
  }

  lemma FinishKeepsInv(sys: System, report: Report)
    requires Inv(sys)
    ensures Inv(Finish(sys, report))
  {
    hide CountSubmitted, CountVerdict, Faithful, Captured;
  }

  /** The completion being drained is the one in flight, so it is never stale; it is applied only under its own
      intent. */
  lemma DrainKeepsInv(sys: System, now: int)
    requires Inv(sys) && sys.done != []
    ensures sys.done[1..] == [] && sys.tasks == []
    ensures Inv(Drain(sys.(done := sys.done[1..]), sys.done[0], now))
    ensures !Drain(sys.(done := sys.done[1..]), sys.done[0], now).rt.inFlight
  {
    hide CountSubmitted, CountVerdict, MatchesState, Capture, ApplyRefreshed, SyncEdits, PayloadChanged,
         HistoryFaithful;
    var s := sys.(done := []);
    assert sys.done[1..] == [];
    match sys.done[0] {
      case Nothing =>
        var e := Drained(sys.rt.inFlightId, sys.rt.inFlightIntent, sys.console.q, Empty);
        CountAll(sys.log, e);
        HistoryGrows(sys, Drain(s, Nothing, now), e);
      case Got(c) =>
        assert c.id == sys.rt.inFlightId && c.intent == sys.rt.inFlightIntent;
        GuardIsCurrentIntent(c.intent, sys.console.q);
        var e := Drained(c.id, c.intent, sys.console.q, Judge(s, c));
        CountAll(sys.log, e);
        HistoryGrows(sys, Drain(s, Got(c), now), e);
    }
  }

  lemma HistoryGrows(sys: System, next: System, e: Event)
    requires HistoryFaithful(sys) && e.Drained? && Faithful(e)
    requires next.log == sys.log + [e] && next.rt.nextId == sys.rt.nextId
    ensures HistoryFaithful(next)
  {
    hide Faithful;
  }

  lemma DrainAllKeepsInv(sys: System, now: int)
    requires Inv(sys)
    ensures Inv(DrainAll(sys, now)) && DrainAll(sys, now).done == []
    ensures sys.done != [] ==> DrainAll(sys, now) == Drain(sys.(done := []), sys.done[0], now)
  {
    hide Inv, Drain;
    if sys.done != [] {
      DrainKeepsInv(sys, now);
      DrainLeavesQueue(sys.(done := []), sys.done[0], now);
    }
  }

  lemma DrainLeavesQueue(sys: System, popped: Message, now: int)
    ensures Drain(sys, popped, now).done == sys.done && Drain(sys, popped, now).tasks == sys.tasks
  {
  }

  lemma FlushKeepsConsole(sys: System, can: bool, now: int, attempt: Attempt)
    ensures FlushPending(sys, can, now, attempt).console == sys.console
  {
    hide Capture, Restored, Presented, IntentMatches, Stored;
  }

  lemma NoneDrained(sys: System, now: int)
    requires sys.done == []
    ensures DrainAll(sys, now) == sys
  {
  }

  lemma FlushKeepsInv(sys: System, can: bool, now: int, attempt: Attempt)
    requires Inv(sys)
    ensures Inv(FlushPending(sys, can, now, attempt))
  {
    hide SingleFlight, Conserved, HistoryFaithful, PollInSteps, PendingStored, Restored, Capture, IntentMatches,
         Schedule;
    if !sys.rt.inFlight && sys.rt.pendingValid && can {
      if IntentMatches(Restored(sys.rt.pending), Presented(sys.console.q)) {
        PassedCheckIsCurrent(sys.rt.pending, sys.console.q);
        AdjustKeepsInv(sys, sys.rt.dueMs, POLL_DEFAULT_MS, true);
        var s0 := sys.(rt := sys.rt.(pollMs := POLL_DEFAULT_MS));
        ScheduleKeepsInv(s0, Restored(sys.rt.pending), attempt);
        var s := Schedule(s0, Restored(sys.rt.pending), attempt);
        AdjustKeepsInv(s, now + s.rt.pollMs, s.rt.pollMs, false);
      } else {
        AdjustKeepsInv(sys, sys.rt.dueMs, sys.rt.pollMs, false);
      }
    }
  }

  lemma BeforeDrainKeepsInv(sys: System, now: int, luck: Luck)
    requires Inv(sys)
    ensures Inv(BeforeDrain(sys, now, luck)) && BeforeDrain(sys, now, luck).console == sys.console
  {
    hide Inv, Coalesce, Capture;
    CoalesceKeepsInv(sys);
    PollKeepsInv(sys.(rt := Coalesce(sys.rt, Capture(sys.console.q))), now, luck.first);
    if luck.between.Reports? {
      FinishKeepsInv(TickBegin(sys, now, luck), luck.between.report);
    }
  }

  lemma TickKeepsInv(sys: System, now: int, luck: Luck)
    requires Inv(sys)
    ensures Inv(Tick(sys, now, luck))
  {
    hide Inv, BeforeDrain, DrainAll, FlushPending;
    BeforeDrainKeepsInv(sys, now, luck);
    DrainAllKeepsInv(BeforeDrain(sys, now, luck), now);
    FlushKeepsInv(DrainAll(BeforeDrain(sys, now, luck), now), CanSchedule(sys.console), now, luck.second);
  }

  lemma InitialInv(console: Console, now: int)
    ensures Inv(Initial(console, now))
  {
  }

  /** Single flight, conservation, faithfulness and the poll steps hold over every run, whatever the user, the clock and
      the worker do. */
  lemma {:induction false} RunsKeepInv(sys: System, steps: seq<Step>)
    requires Inv(sys)
    ensures Inv(Run(sys, steps))
    decreases |steps|
  {
    hide Inv, Next;
    if steps != [] {
      NextKeepsInv(sys, steps[0]);
      RunsKeepInv(Next(sys, steps[0]), steps[1..]);
    }
  }

  lemma NextKeepsInv(sys: System, step: Step)
    requires Inv(sys)
    ensures Inv(Next(sys, step))
  {
    hide Inv, Tick, Finish;
    match step {
      case Edit(console) => EditKeepsInv(sys, console);
      case MainTick(now, luck) => TickKeepsInv(sys, now, luck);
      case WorkerDone(report) => FinishKeepsInv(sys, report);
      case LocalWrite(now) => AdjustKeepsInv(sys, now, POLL_DEFAULT_MS, true);
    }
  }

  lemma EditKeepsInv(sys: System, console: Console)
    requires Inv(sys)
    ensures Inv(sys.(console := console))
  {
  }

  // ----- what ticks promise the user

  lemma {:induction false} DrainAllKeepsEditing(sys: System, now: int)
    ensures var c, d := sys.console, DrainAll(sys, now).console;
      && d.titleEditMode == c.titleEditMode && d.bodyEditMode == c.bodyEditMode && d.searchPending == c.searchPending
      && (!CanSchedule(c) ==> d == c)
    decreases |sys.done|
  {
    hide ApplyRefreshed, PayloadChanged, MatchesState;
    if sys.done != [] {
      var s := Drain(sys.(done := sys.done[1..]), sys.done[0], now);
      DrainKeepsEditing(sys.(done := sys.done[1..]), sys.done[0], now);
      DrainLeavesQueue(sys.(done := sys.done[1..]), sys.done[0], now);
      DrainAllKeepsEditing(s, now);
    }
  }

  lemma DrainKeepsEditing(sys: System, popped: Message, now: int)
    ensures var c, d := sys.console, Drain(sys, popped, now).console;
      && d.titleEditMode == c.titleEditMode && d.bodyEditMode == c.bodyEditMode && d.searchPending == c.searchPending
      && (!CanSchedule(c) ==> d == c)
  {
  }

  /** While a title or body is being edited, or a search is being typed, a tick changes nothing in the console: a
      refresh never overwrites a title or body that is being edited. */
  lemma TicksRespectEditing(sys: System, now: int, luck: Luck)
    ensures var c, d := sys.console, Tick(sys, now, luck).console;
      && (c.titleEditMode != 0 || c.bodyEditMode != 0 || c.searchPending != 0 ==> d == c)
      && d.titleEditMode == c.titleEditMode && d.bodyEditMode == c.bodyEditMode
      && (c.titleEditMode != 0 ==> d.titleEdit == c.titleEdit) && (c.bodyEditMode != 0 ==> d.bodyEdit == c.bodyEdit)
  {
    hide Coalesce, DrainAll, Capture, Restored, Presented, IntentMatches;
    assert BeforeDrain(sys, now, luck).console == sys.console;
    DrainAllKeepsEditing(BeforeDrain(sys, now, luck), now);
  }

  /** What the worker reports for an intent: it starts from the restored settings, and reading the database may move the
      selection, the centre and the list offset and may prune the selected projects. */
  ghost predicate FromWorker(i: Intent, r: Console) {
    && r.q.selected >= 0 && r.q.center >= 0
    && r.q == Restored(i).(selected := r.q.selected, center := r.q.center, offset := r.q.offset,
                           projects := r.q.projects)
  }

  /** The tick is about to apply a payload. */
  ghost predicate Applies(sys: System) {
    sys.done != [] && sys.done[0].Got? && Judge(sys, sys.done[0].c) == Changed
  }

  /** What is typed into the edge-limit input survives a tick exactly if the tick applies no payload, or what is typed
      is the limit of that payload. For a payload of the worker that is the limit already in force. */
  lemma TickKeepsTypedLimit(sys: System, now: int, luck: Luck)
    requires Inv(sys)
    ensures var typed, s := sys.console.inputs.limit, BeforeDrain(sys, now, luck);
      Tick(sys, now, luck).console.inputs.limit == typed <==>
      (Applies(s) ==> typed == ShownLimit(s.done[0].c.outcome.refreshed.q.edgeLimit))
    ensures var s := BeforeDrain(sys, now, luck);
      Applies(s) && FromWorker(s.done[0].c.intent, s.done[0].c.outcome.refreshed) ==>
        ShownLimit(s.done[0].c.outcome.refreshed.q.edgeLimit) == ShownLimit(sys.console.q.edgeLimit)
  {
    hide Inv, Coalesce, Capture, IntentMatches, Drain;
    BeforeDrainKeepsInv(sys, now, luck);
    var s := BeforeDrain(sys, now, luck);
    DrainAllKeepsInv(s, now);
    if s.done != [] {
      DrainSetsLimit(s, now);
    }
  }

  lemma DrainSetsLimit(sys: System, now: int)
    requires sys.done != []
    ensures Drain(sys.(done := []), sys.done[0], now).console.inputs.limit ==
            if Applies(sys) then ShownLimit(sys.done[0].c.outcome.refreshed.q.edgeLimit) else sys.console.inputs.limit
  {
    hide MatchesState, PayloadChanged;
  }

  /** The tick before the drain, when a refresh for other settings is in flight: the current intent is remembered. */
  lemma OutdatedFlightIsRemembered(sys: System)
    requires Inv(sys) && sys.rt.inFlight && Capture(sys.console.q) != sys.rt.inFlightIntent
    ensures var rt := Coalesce(sys.rt, Capture(sys.console.q));
      && rt.pendingValid && rt.pending == Capture(sys.console.q)
      && rt.inFlight && rt.inFlightId == sys.rt.inFlightId && rt.inFlightIntent == sys.rt.inFlightIntent
      && rt.lastAppliedId == sys.rt.lastAppliedId
  {
    hide Capture, Conserved, HistoryFaithful, Stored, IntentMatches;
    CaptureTwice(sys.console.q);
    MatchIsEquality(Capture(sys.console.q), sys.rt.inFlightIntent);
    if sys.rt.pendingValid {
      MatchIsEquality(Capture(sys.console.q), sys.rt.pending);
    }
  }

  /** Draining the outdated completion leaves the console alone. */
  lemma OutdatedCompletionIsDropped(sys: System, now: int)
    requires Inv(sys) && sys.done != [] && Capture(sys.console.q) != sys.rt.inFlightIntent
    ensures var d := DrainAll(sys, now);
      && d.console == sys.console && !d.rt.inFlight && d.tasks == [] && d.done == []
      && d.rt.pendingValid == sys.rt.pendingValid && d.rt.pending == sys.rt.pending && d.rt.nextId == sys.rt.nextId
      && d.rt.dueMs == sys.rt.dueMs
  {
    hide Capture, Conserved, HistoryFaithful, PayloadChanged, ApplyRefreshed, MatchesState;
    DrainAllKeepsInv(sys, now);
    if sys.done[0].Got? {
      GuardIsCurrentIntent(sys.done[0].c.intent, sys.console.q);
    }
  }

  /** The latest intent wins: a tick that drains a refresh for outdated settings ends with exactly the current settings
      in flight and nothing remembered, if and only if the console is in a recheckable state. Otherwise the remembered
      intent is forgotten and nothing is submitted until the poll that was due before. */
  lemma LatestIntentWins(sys: System, now: int, luck: Luck)
    requires Inv(sys) && sys.rt.inFlight && Capture(sys.console.q) != sys.rt.inFlightIntent && CanSchedule(sys.console)
    requires sys.done != [] || luck.between.Reports?
    requires luck.second == Accepted
    ensures var t := Tick(sys, now, luck);
      && t.console == sys.console && t.done == [] && !t.rt.pendingValid
      && (t.rt.inFlight <==> Recheckable(sys.console.q))
      && (t.rt.inFlight ==> t.rt.inFlightId == sys.rt.nextId && t.rt.inFlightIntent == Capture(sys.console.q)
                            && t.tasks == [Task(sys.rt.nextId, Capture(sys.console.q))] &&
                               t.rt.pollMs == POLL_DEFAULT_MS)
      && (!t.rt.inFlight ==> t.tasks == [] && t.rt.nextId == sys.rt.nextId && t.rt.dueMs == sys.rt.dueMs)
  {
    hide Inv, Capture, Coalesce, DrainAll, Restored, Presented, IntentMatches, Recheckable, SingleFlight, Stored;
    var q := sys.console.q;
    OutdatedFlightIsRemembered(sys);
    CoalesceKeepsInv(sys);
    var s1 := sys.(rt := Coalesce(sys.rt, Capture(q)));
    CoalesceKeepsIds(sys.rt, Capture(q));
    assert TickBegin(sys, now, luck) == s1;
    FlightIsSomewhere(s1);
    var s2 := if luck.between.Reports? then Finish(s1, luck.between.report) else s1;
    if luck.between.Reports? {
      FinishKeepsInv(s1, luck.between.report);
    }
    OutdatedCompletionIsDropped(s2, now);
    CheckPassesIffRecheckable(q);
    CaptureTwice(q);
    if Recheckable(q) {
      PassedCheckIsCurrent(Capture(q), q);
    }
  }

  lemma CoalesceKeepsIds(rt: Runtime, current: Intent)
    ensures Coalesce(rt, current).nextId == rt.nextId && Coalesce(rt, current).dueMs == rt.dueMs
  {
  }

  lemma FlightIsSomewhere(sys: System)
    requires Inv(sys) && sys.rt.inFlight
    ensures sys.done != [] || sys.tasks != []
  {
  }

  /** A refresh in flight never wedges the protocol: once the worker is done with it, the next tick drains it, and
      what is in flight afterwards, if anything, is a younger request. */
  lemma FlightsLand(sys: System, report: Report, now: int, luck: Luck)
    requires Inv(sys) && sys.rt.inFlight
    ensures var t := Tick(Finish(sys, report), now, luck);
      t.done == [] && (t.rt.inFlight ==> t.rt.inFlightId > sys.rt.inFlightId)
  {
    hide Conserved, HistoryFaithful, Capture, Restored, Presented, IntentMatches, Drain, DrainAll, Stored, Captured;
    FinishKeepsInv(sys, report);
    var s0 := Finish(sys, report);
    CoalesceKeepsInv(s0);
    var s1 := TickBegin(s0, now, luck);
    assert s1.tasks == [] && BeforeDrain(s0, now, luck) == s1;
    DrainAllKeepsInv(s1, now);
    DrainKeepsIds(s1.(done := []), s1.done[0], now);
  }

  lemma DrainKeepsIds(sys: System, popped: Message, now: int)
    ensures var d := Drain(sys, popped, now);
            && !d.rt.inFlight && d.rt.nextId == sys.rt.nextId && d.done == sys.done && d.tasks == sys.tasks
  {
  }

  // ----- applying and comparing

  /** The parts of a refreshed state that are normalised on the way into the console are normal already, and the one
      part that is compared but not copied agrees. */
  ghost predicate SettlesIn(c: Console, r: Console) {
    && r.q.pinnedOnly == Flag(r.q.pinnedOnly) && r.q.canonicalOnly == Flag(r.q.canonicalOnly)
    && r.q.kindIndex == ClampKindIndex(r.q.kindIndex) && r.q.selected >= 0 && r.q.center >= 0
    && r.q.edgeLimit == ClampEdgeLimit(r.q.edgeLimit) && r.q.hops == ClampHops(r.q.hops)
    && r.q.fullScope == Flag(r.q.fullScope) && c.q.node == r.q.node
  }

  /** Applying a refreshed state makes both comparisons quiet exactly when it settles in. */
  lemma ApplyReachesFixpoint(c: Console, r: Console)
    ensures !PayloadChanged(SyncEdits(ApplyRefreshed(c, r)), r) <==> SettlesIn(c, r)
  {
  }

  lemma WorkerPayloadSettles(i: Intent, c: Console, r: Console)
    requires FromWorker(i, r) && MatchesState(i, c.q) && c.q.node == NormalNode(c.q.node) && Captured(i)
    ensures SettlesIn(c, r)
  {
  }

  /** The same payload arriving again, after it has been applied, changes nothing and only slows the polling down. */
  lemma RepeatOnlyBacksOff(sys: System, first: Completion, later: System, again: Completion, now: int)
    requires Captured(first.intent) && first.outcome.Loaded? && FromWorker(first.intent, first.outcome.refreshed)
    requires sys.console.q.node == NormalNode(sys.console.q.node)
    requires Judge(sys, first) == Changed
    requires later.console == SyncEdits(ApplyRefreshed(sys.console, first.outcome.refreshed))
    requires again.outcome == first.outcome && (Judge(later, again) == Changed || Judge(later, again) == Unchanged)
    ensures Judge(later, again) == Unchanged
    ensures Drain(later, Got(again), now).console == later.console
    ensures Drain(later, Got(again), now).rt.pollMs == NextBackoff(later.rt.pollMs) > POLL_DEFAULT_MS
  {
  }
}
