/** A console left alone catches up with the database: whatever is in flight or remembered, a few ticks after the poll
    is due land a refresh for the settings on screen. */
module CatchingUp {
  import opened Intents
  import opened RefreshProtocol

  /** Every submission is accepted, and the worker takes its time. */
  const SMOOTH := Luck(Accepted, NotYet, Accepted)

  /** With a refresh for the current settings in flight, a tick does nothing before it drains the queue. */
  lemma CurrentFlightWaits(sys: System, now: int)
    requires Inv(sys) && sys.rt.inFlight && sys.rt.inFlightIntent == Capture(sys.console.q)
    ensures BeforeDrain(sys, now, SMOOTH) == sys
  {
    hide Capture, IntentMatches, Stored, Conserved, HistoryFaithful;
    CaptureTwice(sys.console.q);
    MatchIsEquality(Capture(sys.console.q), sys.rt.inFlightIntent);
  }

  /** The user is not editing, and the settings are within what the completion guard accepts. */
  ghost predicate Ready(sys: System) {
    Inv(sys) && CanSchedule(sys.console) && LimitsInRange(sys.console.q)
  }

  ghost predicate ForCurrent(sys: System) {
    sys.rt.inFlight && sys.rt.inFlightIntent == Capture(sys.console.q)
  }

  /** How many ticks it takes at most until a refresh for the current settings has been drained: one more for settings
      that are not recheckable, if the refresh in flight is outdated, because those wait for the poll. */
  ghost function TicksToGo(sys: System): int {
    if ForCurrent(sys) && sys.done != [] && sys.done[0].Got? then 1
    else if !sys.rt.inFlight || (ForCurrent(sys) && sys.done == []) then 2
    else if ForCurrent(sys) then 3
    else (if sys.done == [] then 3 else 2) + if Recheckable(sys.console.q) then 0 else 1
  }

  /** A refresh for the settings `q` was drained while they were current, and was not dropped. */
  ghost predicate Landed(e: Event, q: Intent) {
    && e.Drained? && e.intent == Capture(q) && e.current == q
    && (e.verdict == Changed || e.verdict == Unchanged || e.verdict == Error)
  }

  ghost predicate LandedSince(before: int, log: seq<Event>, q: Intent) {
    exists i :: 0 <= before <= i < |log| && Landed(log[i], q)
  }

  lemma TickGrowsLog(sys: System, now: int, luck: Luck)
    ensures sys.log <= Tick(sys, now, luck).log
  {
    hide Coalesce, Capture, Restored, Presented, IntentMatches, DrainAll;
    DrainGrowsLog(BeforeDrain(sys, now, luck), now);
  }

  lemma {:induction false} DrainGrowsLog(sys: System, now: int)
    ensures sys.log <= DrainAll(sys, now).log
    decreases |sys.done|
  {
    if sys.done != [] {
      var s := sys.(done := sys.done[1..]);
      DrainLeavesQueue(s, sys.done[0], now);
      DrainOneGrowsLog(s, sys.done[0], now);
      hide Drain;
      DrainGrowsLog(Drain(s, sys.done[0], now), now);
    }
  }

  lemma DrainOneGrowsLog(sys: System, popped: Message, now: int)
    ensures sys.log <= Drain(sys, popped, now).log
  {
    hide ApplyRefreshed, SyncEdits, MatchesState, PayloadChanged;
  }

  /** One tick to go: the completion for the current settings is drained and not dropped. */
  lemma LastTickLands(sys: System, now: int)
    requires Ready(sys) && TicksToGo(sys) == 1
    ensures LandedSince(|sys.log|, Tick(sys, now, SMOOTH).log, sys.console.q)
  {
    hide Conserved, HistoryFaithful, Capture, MatchesState, PayloadChanged, ApplyRefreshed, SyncEdits, BeforeDrain;
    hide FlushPending, DrainAll, LimitsInRange;
    CurrentFlightWaits(sys, now);
    DrainAllKeepsInv(sys, now);
    GuardIsCurrentIntent(sys.done[0].c.intent, sys.console.q);
    var d := DrainAll(sys, now);
    assert Landed(d.log[|sys.log|], sys.console.q);
    FlushGrowsLog(d, CanSchedule(sys.console), now);
  }

  lemma FlushGrowsLog(sys: System, can: bool, now: int)
    ensures sys.log <= FlushPending(sys, can, now, Accepted).log
  {
    hide Capture, Restored, Presented, IntentMatches, Stored;
  }

  /** An idle console submits. */
  lemma IdleSubmits(sys: System, now: int)
    requires Ready(sys) && !sys.rt.inFlight && sys.rt.dueMs <= now
    ensures var t := Tick(sys, now, SMOOTH); t.console == sys.console && ForCurrent(t) && t.done == [] && t.tasks != []
  {
    hide Conserved, HistoryFaithful, Capture, Restored, Presented, IntentMatches, LimitsInRange;
    CaptureTwice(sys.console.q);
  }

  /** A refresh that is still with the worker stays there. */
  lemma FlightWaits(sys: System, now: int)
    requires Ready(sys) && sys.rt.inFlight && sys.done == []
    ensures var t := Tick(sys, now, SMOOTH);
      && t.console == sys.console && t.rt.inFlight && t.rt.inFlightIntent == sys.rt.inFlightIntent
      && t.rt.dueMs == sys.rt.dueMs && t.done == [] && t.tasks != []
  {
    hide Conserved, HistoryFaithful, Capture, Restored, Presented, IntentMatches, LimitsInRange, Stored;
  }

  /** An empty completion leaves the console idle, or, if the current settings had been remembered, submits them. */
  lemma EmptyLeavesIdle(sys: System, now: int)
    requires Ready(sys) && ForCurrent(sys) && sys.done != [] && sys.done[0].Nothing?
    ensures var t := Tick(sys, now, SMOOTH);
      && t.console == sys.console && t.done == []
      && (t.rt.inFlight ==> ForCurrent(t) && t.tasks != [])
      && (!t.rt.inFlight ==> t.tasks == [] && t.rt.dueMs == sys.rt.dueMs)
  {
    hide Conserved, HistoryFaithful, Capture, Restored, Presented, IntentMatches, LimitsInRange, BeforeDrain, DrainAll;
    CurrentFlightWaits(sys, now);
    DrainAllKeepsInv(sys, now);
    if IntentMatches(Restored(sys.rt.pending), Presented(sys.console.q)) {
      PassedCheckIsCurrent(sys.rt.pending, sys.console.q);
      CaptureTwice(sys.console.q);
    }
  }

  /** A round: a tick, and the worker finishing what it has. */
  function Round(sys: System, now: int, outcome: Outcome): System {
    Finish(Tick(sys, now, SMOOTH), Report(outcome))
  }

  /** Every round either lands a refresh for the current settings or brings that one tick nearer. */
  lemma RoundBringsNearer(sys: System, now: int, outcome: Outcome)
    requires Ready(sys) && (TicksToGo(sys) > 1 ==> sys.rt.dueMs <= now)
    ensures var r := Round(sys, now, outcome);
      || LandedSince(|sys.log|, r.log, sys.console.q)
      || (r.console == sys.console && Ready(r) && TicksToGo(r) < TicksToGo(sys)
          && (TicksToGo(r) > 1 ==> r.rt.dueMs == sys.rt.dueMs))
  {
    hide Inv, Recheckable, LimitsInRange, Capture, Tick, LandedSince, BeforeDrain;
    TickKeepsInv(sys, now, SMOOTH);
    var t := Tick(sys, now, SMOOTH);
    FinishKeepsInv(t, Report(outcome));
    if TicksToGo(sys) == 1 {
      LastTickLands(sys, now);
    } else if !sys.rt.inFlight {
      IdleSubmits(sys, now);
    } else if sys.done == [] {
      FlightWaits(sys, now);
    } else if ForCurrent(sys) {
      EmptyLeavesIdle(sys, now);
    } else {
      LatestIntentWins(sys, now, SMOOTH);
    }
    OneTaskAtMost(t);
  }

  lemma OneTaskAtMost(sys: System)
    requires Inv(sys)
    ensures |sys.tasks| + |sys.done| <= 1
  {
  }

  function Rounds(sys: System, rounds: seq<(int, Outcome)>): System
    decreases rounds
  {
    if rounds == [] then sys else Rounds(Round(sys, rounds[0].0, rounds[0].1), rounds[1..])
  }

  lemma {:induction false} RoundsGrowLog(sys: System, rounds: seq<(int, Outcome)>)
    ensures sys.log <= Rounds(sys, rounds).log
    decreases rounds
  {
    hide Tick;
    if rounds != [] {
      TickGrowsLog(sys, rounds[0].0, SMOOTH);
      RoundsGrowLog(Round(sys, rounds[0].0, rounds[0].1), rounds[1..]);
    }
  }

  /** Once the user stops, the pool accepts and the worker finishes, at most four ticks after the poll is due land a
      refresh for the settings on screen: from every reachable state, whatever was in flight or remembered. Recheckable
      settings need at most three. */
  lemma {:induction false} ConsoleCatchesUp(sys: System, rounds: seq<(int, Outcome)>)
    requires Ready(sys) && |rounds| >= TicksToGo(sys)
    requires TicksToGo(sys) > 1 ==> forall i :: 0 <= i < |rounds| ==> sys.rt.dueMs <= rounds[i].0
    ensures TicksToGo(sys) <= if Recheckable(sys.console.q) then 3 else 4
    ensures LandedSince(|sys.log|, Rounds(sys, rounds).log, sys.console.q)
    decreases rounds
  {
    hide Ready, ForCurrent, Tick, Finish, Landed, Recheckable;
    var r := Round(sys, rounds[0].0, rounds[0].1);
    RoundBringsNearer(sys, rounds[0].0, rounds[0].1);
    RoundsGrowLog(r, rounds[1..]);
    TickGrowsLog(sys, rounds[0].0, SMOOTH);
    RoundKeepsLog(sys, rounds[0].0, rounds[0].1);
    if LandedSince(|sys.log|, r.log, sys.console.q) {
      var i :| |sys.log| <= i < |r.log| && Landed(r.log[i], sys.console.q);
      assert Rounds(sys, rounds).log[i] == r.log[i];
    } else {
      ConsoleCatchesUp(r, rounds[1..]);
      var i :| |r.log| <= i < |Rounds(r, rounds[1..]).log| && Landed(Rounds(r, rounds[1..]).log[i], sys.console.q);
      assert |sys.log| <= i;
    }
  }

  lemma RoundKeepsLog(sys: System, now: int, outcome: Outcome)
    ensures Round(sys, now, outcome).log == Tick(sys, now, SMOOTH).log
  {
    hide Tick;
  }

  // ----- and only settings in range ever get there

  /** From position `before` on, only refreshes for settings in range were not dropped. */
  ghost predicate LandsInRange(before: int, log: seq<Event>) {
    forall i, q :: 0 <= before <= i < |log| && Landed(log[i], q) ==> LimitsInRange(q)
  }

  lemma SubmittedStaysInRange(before: int, log: seq<Event>, log': seq<Event>)
    requires LandsInRange(before, log) && log <= log'
    requires forall i :: |log| <= i < |log'| ==> log'[i].Submitted?
    ensures LandsInRange(before, log')
  {
  }

  lemma BeforeDrainOnlySubmits(sys: System, now: int, luck: Luck)
    ensures var log := BeforeDrain(sys, now, luck).log;
            sys.log <= log && forall i :: |sys.log| <= i < |log| ==> log[i].Submitted?
  {
    hide Coalesce, Capture;
  }

  lemma FlushOnlySubmits(sys: System, can: bool, now: int, attempt: Attempt)
    ensures var log := FlushPending(sys, can, now, attempt).log;
            sys.log <= log && forall i :: |sys.log| <= i < |log| ==> log[i].Submitted?
  {
    hide Capture, Restored, Presented, IntentMatches, Stored;
  }

  lemma DrainLandsInRange(before: int, sys: System, now: int)
    requires Inv(sys) && sys.done != [] && LandsInRange(before, sys.log)
    ensures LandsInRange(before, Drain(sys.(done := []), sys.done[0], now).log)
  {
    hide Conserved, HistoryFaithful, Capture, MatchesState, PayloadChanged, ApplyRefreshed, SyncEdits, LimitsInRange;
    if sys.done[0].Got? {
      GuardIsCurrentIntent(sys.done[0].c.intent, sys.console.q);
    }
  }

  lemma TickLandsInRange(before: int, sys: System, now: int, luck: Luck)
    requires Inv(sys) && LandsInRange(before, sys.log)
    ensures LandsInRange(before, Tick(sys, now, luck).log)
  {
    hide Inv, LandsInRange, BeforeDrain, DrainAll, Drain, FlushPending;
    BeforeDrainKeepsInv(sys, now, luck);
    BeforeDrainOnlySubmits(sys, now, luck);
    var s := BeforeDrain(sys, now, luck);
    SubmittedStaysInRange(before, sys.log, s.log);
    DrainAllKeepsInv(s, now);
    if s.done != [] {
      DrainLandsInRange(before, s, now);
    } else {
      NothingToDrain(s, now);
    }
    var d := DrainAll(s, now);
    FlushOnlySubmits(d, CanSchedule(sys.console), now, luck.second);
    SubmittedStaysInRange(before, d.log, FlushPending(d, CanSchedule(sys.console), now, luck.second).log);
  }

  lemma NothingToDrain(sys: System, now: int)
    requires sys.done == []
    ensures DrainAll(sys, now) == sys
  {
  }

  lemma {:induction false} RoundsLandInRange(before: int, sys: System, rounds: seq<(int, Outcome)>)
    requires Inv(sys) && LandsInRange(before, sys.log)
    ensures LandsInRange(before, Rounds(sys, rounds).log)
    decreases rounds
  {
    hide Inv, LandsInRange, Tick, Finish;
    if rounds != [] {
      var now, outcome := rounds[0].0, rounds[0].1;
      TickLandsInRange(before, sys, now, SMOOTH);
      TickKeepsInv(sys, now, SMOOTH);
      FinishKeepsInv(Tick(sys, now, SMOOTH), Report(outcome));
      RoundKeepsLog(sys, now, outcome);
      RoundsLandInRange(before, Round(sys, now, outcome), rounds[1..]);
    }
  }

  /** So with four ticks after the poll is due the console catches up if and only if its settings are in range: a
      refresh for settings out of range is dropped each time it comes back. */
  lemma CatchesUpIffInRange(sys: System, rounds: seq<(int, Outcome)>)
    requires Inv(sys) && CanSchedule(sys.console) && |rounds| >= 4
    requires forall i :: 0 <= i < |rounds| ==> sys.rt.dueMs <= rounds[i].0
    ensures LandedSince(|sys.log|, Rounds(sys, rounds).log, sys.console.q) <==> LimitsInRange(sys.console.q)
  {
    hide Inv, LimitsInRange, Rounds, Landed, Recheckable;
    if LimitsInRange(sys.console.q) {
      ConsoleCatchesUp(sys, rounds);
    }
    RoundsLandInRange(|sys.log|, sys, rounds);
  }
}
