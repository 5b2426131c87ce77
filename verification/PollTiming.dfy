/** When refreshes are asked for: the timers, what a refused submission leaves behind, and what a write of the user's
    own sets off. */
module PollTiming {
  import opened Intents
  import opened RefreshProtocol

  ghost predicate Idle(sys: System) {
    !sys.rt.inFlight && sys.done == []
  }

  /** The user is typing or editing. */
  ghost predicate Busy(c: Console) {
    c.titleEditMode != 0 || c.bodyEditMode != 0 || c.searchPending != 0
  }

  /** The first poll is due 900 ms after the start, with nothing in flight or remembered. */
  lemma FirstPoll(c: Console, start: int)
    ensures var s := Initial(c, start);
      && s.console == c && Idle(s) && s.tasks == [] && s.log == [] && !s.rt.pendingValid
      && s.rt.dueMs == start + 900 && s.rt.pollMs == 900 && s.rt.nextId == 1 && s.rt.lastAppliedId == 0
  {
  }

  /** With nothing in flight and nothing remembered, a tick asks for a refresh if and only if the poll is due, the
      user is not busy and the submission is accepted. Once it is due the next one is an interval away, accepted or
      not. */
  lemma IdleTickPolls(sys: System, now: int, luck: Luck)
    requires Idle(sys) && !sys.rt.pendingValid && luck.between.NotYet?
    ensures var t := Tick(sys, now, luck);
      && t.console == sys.console
      && (t.rt.inFlight <==> sys.rt.dueMs <= now && !Busy(sys.console) && luck.first.Accepted?)
      && (t.rt.inFlight ==> t.rt.inFlightIntent == Capture(sys.console.q) && t.rt.inFlightId == sys.rt.nextId
                            && t.tasks == sys.tasks + [Task(sys.rt.nextId, Capture(sys.console.q))])
      && t.rt.pollMs == sys.rt.pollMs
      && t.rt.dueMs == (if sys.rt.dueMs <= now && !Busy(sys.console) then now + sys.rt.pollMs else sys.rt.dueMs)
  {
    hide Capture, Restored, Presented, IntentMatches;
    CaptureTwice(sys.console.q);
  }

  /** While the user is busy nothing is asked for. */
  lemma BusyTickAsksNothing(sys: System, now: int, luck: Luck)
    requires Busy(sys.console) && luck.between.NotYet?
    ensures var t := Tick(sys, now, luck); t.tasks == sys.tasks && t.rt.nextId == sys.rt.nextId
  {
    hide DrainAll, Coalesce, Capture;
    DrainAsksNothing(BeforeDrain(sys, now, luck), now);
    CoalesceAsksNothing(sys.rt, Capture(sys.console.q));
  }

  lemma CoalesceAsksNothing(rt: Runtime, current: Intent)
    ensures Coalesce(rt, current).nextId == rt.nextId
  {
  }

  lemma {:induction false} DrainAsksNothing(sys: System, now: int)
    ensures var d := DrainAll(sys, now); d.tasks == sys.tasks && d.rt.nextId == sys.rt.nextId
    decreases |sys.done|
  {
    if sys.done != [] {
      var s := sys.(done := sys.done[1..]);
      DrainLeavesQueue(s, sys.done[0], now);
      DrainKeepsIds(s, sys.done[0], now);
      hide Drain;
      DrainAsksNothing(Drain(s, sys.done[0], now), now);
    }
  }

  /** After a write of the user's own the poll is due at once, at the shortest interval, and the next tick that can
      asks for a refresh. Nothing else changes. */
  lemma WriteIsPolledAtOnce(sys: System, written: int, now: int, luck: Luck)
    requires Idle(sys) && !sys.rt.pendingValid && !Busy(sys.console) && written <= now
    requires luck.first.Accepted? && luck.between.NotYet?
    ensures var s := Next(sys, LocalWrite(written));
      && s == sys.(rt := sys.rt.(dueMs := written, pollMs := 900))
      && (var t := Tick(s, now, luck);
          t.rt.inFlight && t.rt.inFlightIntent == Capture(sys.console.q) && t.rt.dueMs == now + 900)
  {
    hide Tick;
    IdleTickPolls(Next(sys, LocalWrite(written)), now, luck);
  }

  /** What becomes of the refresh in flight when it comes back: it is dropped if its intent is no longer the current one
      or the user is busy, in that order; only then does it matter whether it failed, and whether it brings anything
      new. */
  lemma CompletionIsJudged(sys: System, c: Completion)
    requires Inv(sys) && sys.done == [Got(c)]
    ensures var verdict, q := Judge(sys.(done := []), c), sys.console.q;
            var current := c.intent == Capture(q) && LimitsInRange(q);
      && (verdict == Mismatch <==> !current)
      && (verdict == Editing <==> current && Busy(sys.console))
      && (verdict == Error <==> current && !Busy(sys.console) && c.outcome.LoadError?)
      && (verdict == Changed <==>
            current && !Busy(sys.console) && c.outcome.Loaded? && PayloadChanged(sys.console, c.outcome.refreshed))
      && (verdict == Unchanged <==>
            current && !Busy(sys.console) && c.outcome.Loaded? && !PayloadChanged(sys.console, c.outcome.refreshed))
  {
    hide Conserved, HistoryFaithful, MatchesState, Capture, LimitsInRange, PayloadChanged;
    assert sys.done[0] == Got(c);
    GuardIsCurrentIntent(c.intent, sys.console.q);
  }

  /** What each outcome does to the timers: a payload that changes something sets the shortest interval, one that does
      not a longer one, an error waits one interval, and what is dropped leaves the poll where it was. */
  lemma OutcomesSetTimers(sys: System, popped: Message, now: int)
    ensures var rt, d := sys.rt, Drain(sys, popped, now).rt;
      if popped.Nothing? then d.dueMs == rt.dueMs && d.pollMs == rt.pollMs && d.lastAppliedId == rt.lastAppliedId
      else
        var verdict := Judge(sys, popped.c);
        && (verdict == Changed ==> d.pollMs == 900 && d.dueMs == now + 900)
        && (verdict == Unchanged ==> d.pollMs == (if rt.pollMs < 2000 then 2000 else 5000) && d.dueMs == now + d.pollMs)
        && (verdict == Error ==> d.pollMs == rt.pollMs && d.dueMs == now + rt.pollMs)
        && (verdict == Changed || verdict == Unchanged || verdict == Error ==> d.lastAppliedId == popped.c.id)
        && (verdict == Stale || verdict == Mismatch || verdict == Editing ==>
              d.dueMs == rt.dueMs && d.pollMs == rt.pollMs && d.lastAppliedId == rt.lastAppliedId)
  {
    hide MatchesState, PayloadChanged, ApplyRefreshed, SyncEdits;
  }

  /** The settings are remembered, and counted as coalesced, once for each change while a refresh is out. */
  lemma ChangesAreCoalesced(sys: System)
    requires Inv(sys)
    ensures var current, rt := Capture(sys.console.q), Coalesce(sys.rt, Capture(sys.console.q));
      if sys.rt.inFlight && current != sys.rt.inFlightIntent && !(sys.rt.pendingValid && sys.rt.pending == current)
      then rt == sys.rt.(pendingValid := true, pending := current,
                         counters := sys.rt.counters.(coalesced := sys.rt.counters.coalesced + 1))
      else rt == sys.rt
  {
    hide Capture, Conserved, HistoryFaithful, Stored, IntentMatches;
    CaptureTwice(sys.console.q);
    if sys.rt.inFlight {
      MatchIsEquality(Capture(sys.console.q), sys.rt.inFlightIntent);
    }
    if sys.rt.pendingValid {
      MatchIsEquality(Capture(sys.console.q), sys.rt.pending);
    }
  }

  /** A remembered intent that is refused stays remembered: nothing is in flight, the interval is the shortest again,
      and only a refusal by the pool has used up a request id. */
  lemma RefusedStaysRemembered(sys: System, now: int, luck: Luck)
    requires Idle(sys) && sys.rt.pendingValid && sys.rt.pending == Capture(sys.console.q) && Recheckable(sys.console.q)
    requires !Busy(sys.console) && now < sys.rt.dueMs && luck.between.NotYet? && !luck.second.Accepted?
    ensures var t := Tick(sys, now, luck);
      t == sys.(rt := sys.rt.(pollMs := 900, nextId := sys.rt.nextId + if luck.second.Refused? then 1 else 0))
  {
    hide Capture, Restored, Presented, IntentMatches, Recheckable;
    CheckPassesIffRecheckable(sys.console.q);
  }

  /** And the next tick tries again, though the poll is not due: accepted, it is in flight and forgotten. */
  lemma RememberedIsTriedAgain(sys: System, now: int, luck: Luck)
    requires Idle(sys) && sys.rt.pendingValid && sys.rt.pending == Capture(sys.console.q) && Recheckable(sys.console.q)
    requires !Busy(sys.console) && now < sys.rt.dueMs && luck.between.NotYet? && luck.second.Accepted?
    ensures var t := Tick(sys, now, luck);
      && t.console == sys.console && t.rt.inFlight && t.rt.inFlightIntent == Capture(sys.console.q)
      && t.rt.inFlightId == sys.rt.nextId && !t.rt.pendingValid && t.rt.pollMs == 900 && t.rt.dueMs == now + 900
  {
    hide Capture, Restored, Presented, IntentMatches, Recheckable;
    CheckPassesIffRecheckable(sys.console.q);
    PassedCheckIsCurrent(sys.rt.pending, sys.console.q);
    CaptureTwice(sys.console.q);
  }
}
