/** The runtime and console objects the main loop updates in place, each operation tied to the step of the protocol it
    implements. */
module RefreshRuntime {
  import opened Limits
  import opened KindFilters
  import opened Intents
  import opened RefreshProtocol
  import AsciiText
  import EditBuffer

  class ConsoleState {
    var q: Intent
    var listing: Listing
    var selection: Selection
    var graph: GraphData
    var titleEditMode: int
    var bodyEditMode: int
    var searchPending: int
    var titleEdit: EditText
    var bodyEdit: EditText
    var searchCursor: int
    var path: EditBuffer.Field
    var limitInput: EditText
    var targetInput: EditText

    ghost function View(): Console
      reads this
    {
      Console(q, listing, selection, graph, titleEditMode, bodyEditMode, searchPending, titleEdit, bodyEdit,
              Inputs(searchCursor, path, limitInput, targetInput))
    }

    /** Copies a refreshed state field by field. */
    method ApplyRefreshedState(r: Console)
      modifies this
      ensures View() == ApplyRefreshed(old(View()), r)
    {
      hide Synced, ClampKindIndex, ClampHops, ClampEdgeLimit, IdOrNone, ShownLimit;
      listing := r.listing;
      q := q.(pinnedOnly := Flag(r.q.pinnedOnly), canonicalOnly := Flag(r.q.canonicalOnly));
      q := q.(kindIndex := ClampKindIndex(r.q.kindIndex));
      q := q.(projects := r.q.projects);
      q := q.(selected := IdOrNone(r.q.selected), center := IdOrNone(r.q.center));
      selection := r.selection;
      graph := r.graph;
      var override := Flag(r.q.kind.allOverride);
      var mask := r.q.kind.mask & EDGE_MASK_ALL;
      if override != 0 {
        mask := EDGE_MASK_ALL;
      }
      q := q.(kind := Synced(EdgeFilter(mask, override, q.kind.text)));
      SetEdgeLimit(r.q.edgeLimit);
      q := q.(hops := ClampHops(r.q.hops), fullScope := Flag(r.q.fullScope));
    }

    /** Sets the limit and shows it in its input, over whatever is being typed there. */
    method SetEdgeLimit(value: int)
      modifies this`q, this`limitInput
      ensures q == old(q).(edgeLimit := ClampEdgeLimit(value)) && limitInput == ShownLimit(value)
    {
      q := q.(edgeLimit := ClampEdgeLimit(value));
      var digits := AsciiText.Decimal(q.edgeLimit);
      limitInput := EditText(digits, |digits|);
    }

    method SyncEditBuffersFromSelection()
      modifies this`titleEdit, this`bodyEdit, this`searchCursor, this`path, this`limitInput, this`targetInput
      ensures View() == SyncEdits(old(View()))
    {
      if titleEditMode == 0 {
        titleEdit := EditText(selection.title, |selection.title|);
      }
      if bodyEditMode == 0 {
        bodyEdit := EditText(selection.body, |selection.body|);
      }
      searchCursor := EditBuffer.ClampedTo(q.search, searchCursor);
      path := path.(cursor := EditBuffer.ClampedTo(path.text, path.cursor));
      path := EditBuffer.Normalized(path);
      limitInput := limitInput.(cursor := EditBuffer.ClampedTo(limitInput.text, limitInput.cursor));
      targetInput := targetInput.(cursor := EditBuffer.ClampedTo(targetInput.text, targetInput.cursor));
    }
  }

  /** The popped completion is applied, and (for `graphOnly`) changes the graph. */
  predicate Shows(sys: System, popped: Message, graphOnly: bool) {
    && popped.Got? && Judge(sys, popped.c) == Changed
    && (graphOnly ==> GraphChanged(sys.console, popped.c.outcome.refreshed))
  }

  predicate DrainShows(sys: System, now: int, graphOnly: bool)
    decreases |sys.done|
  {
    && sys.done != []
    && var s := sys.(done := sys.done[1..]);
       Shows(s, sys.done[0], graphOnly) || DrainShows(Drain(s, sys.done[0], now), now, graphOnly)
  }

  /** So the report of a tick is right: content changed if and only if a payload is applied, the graph if and only if it
      is applied and brings another one; and if nothing is applied the console stays as it is. */
  lemma ReportIsRight(sys: System, now: int, luck: Luck)
    requires Inv(sys)
    ensures var s := BeforeDrain(sys, now, luck);
      && (DrainShows(s, now, false) <==> Applies(s))
      && (DrainShows(s, now, true) <==> Applies(s) && GraphChanged(sys.console, s.done[0].c.outcome.refreshed))
      && (!DrainShows(s, now, false) ==> Tick(sys, now, luck).console == sys.console)
  {
    hide BeforeDrain, FlushPending, DrainAll, SyncEdits, ApplyRefreshed, MatchesState, PayloadChanged, GraphChanged,
         Capture;
    BeforeDrainKeepsInv(sys, now, luck);
    var s := BeforeDrain(sys, now, luck);
    DrainAllKeepsInv(s, now);
    FlushKeepsConsole(DrainAll(s, now), CanSchedule(sys.console), now, luck.second);
    if s.done == [] {
      NoneDrained(s, now);
    } else {
      DrainLeavesQueue(s.(done := []), s.done[0], now);
      assert s.done[1..] == [];
    }
  }

  class RuntimeState {
    var nextRequestId: int
    var lastAppliedRequestId: int
    var nextPollDueMs: int
    var pollIntervalMs: int
    var refreshInFlight: bool
    var inFlightRequestId: int
    var inFlightIntent: Intent
    var pendingIntentValid: bool
    var pendingIntent: Intent
    var counters: Counters
    var workerTasks: seq<Task>
    var completionQueue: seq<Message>
    ghost var log: seq<Event>

    ghost function Record(): Runtime
      reads this
    {
      Runtime(nextRequestId, lastAppliedRequestId, nextPollDueMs, pollIntervalMs, refreshInFlight, inFlightRequestId,
              inFlightIntent, pendingIntentValid, pendingIntent, counters)
    }

    /** The protocol state this object and the console stand for. */
    ghost function Snapshot(state: ConsoleState): System
      reads this, state
    {
      System(state.View(), Record(), workerTasks, completionQueue, log)
    }

    constructor (now: int)
      ensures forall c :: Record() == Initial(c, now).rt
      ensures workerTasks == [] && completionQueue == [] && log == []
    {
      nextRequestId, lastAppliedRequestId := 1, 0;
      pollIntervalMs := POLL_DEFAULT_MS;
      nextPollDueMs := now + POLL_DEFAULT_MS;
      refreshInFlight, inFlightRequestId, inFlightIntent := false, 0, NO_INTENT;
      pendingIntentValid, pendingIntent := false, NO_INTENT;
      counters := Counters(0, 0, 0, 0, 0, 0, 0);
      workerTasks, completionQueue, log := [], [], [];
    }

    method ResetPollInterval()
      modifies this`pollIntervalMs
      ensures pollIntervalMs == POLL_DEFAULT_MS
    {
      pollIntervalMs := POLL_DEFAULT_MS;
    }

    method BackoffPollInterval()
      modifies this`pollIntervalMs
      ensures pollIntervalMs == NextBackoff(old(pollIntervalMs))
    {
      pollIntervalMs := NextBackoff(pollIntervalMs);
    }

    /** A write made by the user polls at once. */
    method NoteLocalWrite(state: ConsoleState, now: int)
      modifies this`pollIntervalMs, this`nextPollDueMs
      ensures Snapshot(state) == Next(old(Snapshot(state)), LocalWrite(now))
    {
      ResetPollInterval();
      nextPollDueMs := now;
    }

    method StorePendingIntent(i: Intent)
      modifies this`pendingIntentValid, this`pendingIntent
      ensures pendingIntentValid && pendingIntent == Stored(i)
    {
      pendingIntentValid := true;
      pendingIntent := Stored(i);
    }

    /** One attempt to hand a refresh for the settings `q` to the worker. */
    method ScheduleRefresh(state: ConsoleState, q: Intent, attempt: Attempt) returns (ok: bool)
      modifies this
      ensures old(refreshInFlight) ==> ok && Snapshot(state) == old(Snapshot(state))
      ensures !old(refreshInFlight) ==>
        Snapshot(state) == Schedule(old(Snapshot(state)), q, attempt) && (ok <==> attempt == Accepted)
    {
      hide Capture, Stored;
      if refreshInFlight {
        return true;
      }
      if attempt == OutOfMemory {
        return false;
      }
      var task := Task(nextRequestId, Capture(q));
      nextRequestId := nextRequestId + 1;
      if attempt == Refused {
        return false;
      }
      workerTasks := workerTasks + [task];
      StoreInFlightIntent(task);
      log := log + [Submitted(task.id, task.intent, state.q)];
      ok := true;
    }

    method StoreInFlightIntent(task: Task)
      modifies this`refreshInFlight, this`counters, this`inFlightRequestId, this`inFlightIntent
      ensures Record() == old(Record()).(inFlight := true, inFlightId := task.id, inFlightIntent := Stored(task.intent),
                                         counters := old(counters).(submitted := old(counters).submitted + 1))
    {
      refreshInFlight := true;
      counters := counters.(submitted := counters.submitted + 1);
      inFlightRequestId := task.id;
      inFlightIntent := Stored(task.intent);
    }

    /** The worker takes the oldest task and leaves its completion in the queue. */
    method FinishTask(state: ConsoleState, report: Report)
      modifies this`workerTasks, this`completionQueue
      ensures Snapshot(state) == Finish(old(Snapshot(state)), report)
    {
      if workerTasks == [] {
        return;
      }
      var task := workerTasks[0];
      workerTasks := workerTasks[1..];
      completionQueue := completionQueue +
        [if report.NoMemory? then Nothing else Got(Completion(task.id, task.intent, report.outcome))];
    }

    /** What the loop body does with one popped completion. */
    method HandleCompletion(state: ConsoleState, popped: Message, now: int)
      returns (contentChanged: bool, graphChanged: bool)
      modifies this, state
      ensures Snapshot(state) == Drain(old(Snapshot(state)), popped, now)
      ensures contentChanged <==> Shows(old(Snapshot(state)), popped, false)
      ensures graphChanged <==> Shows(old(Snapshot(state)), popped, true)
      ensures !contentChanged ==> state.View() == old(state.View())
    {
      hide ApplyRefreshed, SyncEdits, MatchesState, PayloadChanged, GraphChanged, OtherChanged;
      refreshInFlight := false;
      contentChanged, graphChanged := false, false;
      if popped.Nothing? {
        log := log + [Drained(inFlightRequestId, inFlightIntent, state.q, Empty)];
        return;
      }
      var c := popped.c;
      if c.id < lastAppliedRequestId || c.id < inFlightRequestId {
        counters := counters.(stale := counters.stale + 1);
        log := log + [Drained(c.id, c.intent, state.q, Stale)];
        return;
      }
      if !MatchesState(c.intent, state.q) {
        counters := counters.(mismatch := counters.mismatch + 1);
        log := log + [Drained(c.id, c.intent, state.q, Mismatch)];
        return;
      }
      if state.titleEditMode != 0 || state.bodyEditMode != 0 || state.searchPending != 0 {
        counters := counters.(editing := counters.editing + 1);
        log := log + [Drained(c.id, c.intent, state.q, Editing)];
        return;
      }
      contentChanged, graphChanged := AcceptCompletion(state, c, now);
    }

    /** A completion for the current settings: an error is counted, a payload taken. */
    method AcceptCompletion(state: ConsoleState, c: Completion, now: int)
      returns (contentChanged: bool, graphChanged: bool)
      requires !refreshInFlight && lastAppliedRequestId <= c.id && inFlightRequestId <= c.id
      requires MatchesState(c.intent, state.q) && CanSchedule(state.View())
      modifies this, state
      ensures Snapshot(state) == Drain(old(Snapshot(state)), Got(c), now)
      ensures contentChanged <==> Shows(old(Snapshot(state)), Got(c), false)
      ensures graphChanged <==> Shows(old(Snapshot(state)), Got(c), true)
      ensures !contentChanged ==> state.View() == old(state.View())
    {
      hide ApplyRefreshed, SyncEdits, MatchesState, PayloadChanged, GraphChanged, Judge;
      JudgeAccepts(Snapshot(state), c);
      lastAppliedRequestId := c.id;
      contentChanged, graphChanged := false, false;
      if c.outcome.LoadError? {
        counters := counters.(errors := counters.errors + 1);
        nextPollDueMs := now + pollIntervalMs;
        log := log + [Drained(c.id, c.intent, state.q, Error)];
        return;
      }
      ghost var differs := PayloadChanged(state.View(), c.outcome.refreshed);
      log := log + [Drained(c.id, c.intent, state.q, if differs then Changed else Unchanged)];
      contentChanged, graphChanged := TakePayload(state, c.outcome.refreshed);
      counters := counters.(applied := counters.applied + 1);
      nextPollDueMs := now + pollIntervalMs;
    }

    /** Applies a payload that differs from what is shown; one that does not only slows the polling down. */
    method TakePayload(state: ConsoleState, r: Console)
      returns (contentChanged: bool, graphChanged: bool)
      modifies this`pollIntervalMs, state
      ensures contentChanged <==> PayloadChanged(old(state.View()), r)
      ensures graphChanged <==> GraphChanged(old(state.View()), r)
      ensures graphChanged ==> contentChanged
      ensures state.View() ==
              if contentChanged then SyncEdits(ApplyRefreshed(old(state.View()), r)) else old(state.View())
      ensures pollIntervalMs == if contentChanged then POLL_DEFAULT_MS else NextBackoff(old(pollIntervalMs))
    {
      hide ApplyRefreshed, SyncEdits;
      graphChanged := GraphDiffers(state, r);
      contentChanged := graphChanged;
      if !contentChanged {
        contentChanged := OtherDiffers(state, r);
      }
      if contentChanged {
        state.ApplyRefreshedState(r);
        state.SyncEditBuffersFromSelection();
        ResetPollInterval();
      } else {
        BackoffPollInterval();
      }
    }

    method GraphDiffers(state: ConsoleState, r: Console) returns (changed: bool)
      ensures changed <==> GraphChanged(state.View(), r)
    {
      changed :=
        || state.graph != r.graph || state.q.edgeLimit != r.q.edgeLimit || state.q.hops != r.q.hops
        || state.q.fullScope != r.q.fullScope || state.q.node != r.q.node;
    }

    method OtherDiffers(state: ConsoleState, r: Console) returns (changed: bool)
      ensures changed <==> OtherChanged(state.View(), r)
    {
      changed :=
        || state.listing != r.listing || state.q.pinnedOnly != r.q.pinnedOnly
        || state.q.canonicalOnly != r.q.canonicalOnly || state.q.kindIndex != r.q.kindIndex
        || state.q.projects != r.q.projects || state.q.selected != r.q.selected
        || state.q.center != r.q.center || state.selection != r.selection;
    }

    /** Remembers a changed intent and polls if it is time. */
    method BeginTick(state: ConsoleState, now: int, canSchedule: bool, luck: Luck)
      requires canSchedule == CanSchedule(state.View())
      modifies this
      ensures Snapshot(state) == TickBegin(old(Snapshot(state)), now, luck)
    {
      hide Capture, IntentMatches, Stored, Schedule;
      var current := Capture(state.q);
      if refreshInFlight && !IntentMatches(current, inFlightIntent) {
        if !pendingIntentValid || !IntentMatches(current, pendingIntent) {
          counters := counters.(coalesced := counters.coalesced + 1);
          StorePendingIntent(current);
        }
      }
      assert Record() == Coalesce(old(Record()), current);
      if !refreshInFlight && canSchedule && now >= nextPollDueMs {
        var ok := ScheduleRefresh(state, state.q, luck.first);
        nextPollDueMs := now + pollIntervalMs;
      }
    }

    /** Pops until the queue is empty. */
    method DrainQueue(state: ConsoleState, now: int)
      returns (contentChanged: bool, graphChanged: bool)
      modifies this, state
      ensures Snapshot(state) == DrainAll(old(Snapshot(state)), now)
      ensures contentChanged <==> DrainShows(old(Snapshot(state)), now, false)
      ensures graphChanged <==> DrainShows(old(Snapshot(state)), now, true)
      ensures !contentChanged ==> state.View() == old(state.View())
    {
      hide Drain, Shows;
      contentChanged, graphChanged := false, false;
      ghost var start := Snapshot(state);
      while completionQueue != []
        invariant DrainAll(Snapshot(state), now) == DrainAll(start, now)
        invariant DrainShows(start, now, false) <==> contentChanged || DrainShows(Snapshot(state), now, false)
        invariant DrainShows(start, now, true) <==> graphChanged || DrainShows(Snapshot(state), now, true)
        invariant !contentChanged ==> state.View() == old(state.View())
        decreases |completionQueue|
      {
        var popped := completionQueue[0];
        ghost var before := Snapshot(state);
        completionQueue := completionQueue[1..];
        DrainLeavesQueue(before.(done := before.done[1..]), popped, now);
        var content, graph := HandleCompletion(state, popped, now);
        contentChanged, graphChanged := contentChanged || content, graphChanged || graph;
      }
    }

    /** Submits what was remembered, if it is still what the console shows. */
    method FlushPendingIntent(state: ConsoleState, now: int, canSchedule: bool, attempt: Attempt)
      modifies this
      ensures Snapshot(state) == FlushPending(old(Snapshot(state)), canSchedule, now, attempt)
    {
      hide Restored, Presented, IntentMatches, Schedule;
      if !refreshInFlight && pendingIntentValid && canSchedule {
        var restored := Restored(pendingIntent);
        if IntentMatches(restored, Presented(state.q)) {
          ResetPollInterval();
          var ok := ScheduleRefresh(state, restored, attempt);
          if ok {
            pendingIntentValid := false;
            nextPollDueMs := now + pollIntervalMs;
          }
        } else {
          pendingIntentValid := false;
        }
      }
    }

    /** One pass of the main loop. `luck` is what the allocator, the pool and the worker do meanwhile. */
    method TickOnce(state: ConsoleState, now: int, luck: Luck)
      returns (contentChanged: bool, graphChanged: bool)
      modifies this, state
      ensures Snapshot(state) == Tick(old(Snapshot(state)), now, luck)
      ensures contentChanged <==> DrainShows(BeforeDrain(old(Snapshot(state)), now, luck), now, false)
      ensures graphChanged <==> DrainShows(BeforeDrain(old(Snapshot(state)), now, luck), now, true)
      ensures !contentChanged ==> state.View() == old(state.View())
    {
      hide TickBegin, DrainAll, FlushPending, Finish, DrainShows;
      var canSchedule := state.titleEditMode == 0 && state.bodyEditMode == 0 && state.searchPending == 0;
      BeginTick(state, now, canSchedule, luck);
      if luck.between.Reports? {
        FinishTask(state, luck.between.report);
      }
      BeforeDrainKeepsConsole(old(Snapshot(state)), now, luck);
      contentChanged, graphChanged := DrainQueue(state, now);
      ghost var drained := Snapshot(state);
      FlushPendingIntent(state, now, canSchedule, luck.second);
      FlushKeepsConsole(drained, canSchedule, now, luck.second);
    }
  }

  lemma JudgeAccepts(sys: System, c: Completion)
    requires sys.rt.lastAppliedId <= c.id && sys.rt.inFlightId <= c.id
    requires MatchesState(c.intent, sys.console.q) && CanSchedule(sys.console)
    ensures Judge(sys, c) ==
            if c.outcome.LoadError? then Error
            else if PayloadChanged(sys.console, c.outcome.refreshed) then Changed else Unchanged
  {
    hide MatchesState, PayloadChanged;
  }

  lemma BeforeDrainKeepsConsole(sys: System, now: int, luck: Luck)
    ensures BeforeDrain(sys, now, luck).console == sys.console
  {
    hide Coalesce, Capture;
  }
}
