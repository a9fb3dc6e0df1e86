/**
 * What the supervisor reports: the state and the last error that `snapshot` shows, after each call and
 * over whole runs, said in terms of the steps and not of the functions that carry them out.
 */
module SupervisorReports {
  import opened Prelude
  import opened RestartBudgets
  import opened Supervisor
  import opened SupervisorRuns
  import opened RestartRuns

  // ---- After one section -------------------------------------------------------------------

  /** A supervisor begins stopped, with no error, and takes the server to be live until it is told otherwise. */
  lemma BeginsStopped(budget: Ledger)
    ensures var i := Begin(budget).inner;
            && i.state == Stopped && i.child.None? && i.lastError.None? && i.restartNotBefore.None?
            && i.embeddedServerAlive && !i.spawning && i.budget == budget && Begin(budget).calls == map[]
  {
  }

  /** A spawn that succeeds puts the child into the slot, up as far as the embedded server is. */
  lemma SpawnIsReported(s: System, t: nat, text: string, now: int)
    requires Enabled(s, Commit(t, text, now)) && s.calls[t].result.Some?
    ensures var r := Apply(s, Commit(t, text, now));
            && r.inner.child == s.calls[t].result && r.inner.lastError.None? && !r.inner.spawning
            && r.inner.state == (if s.inner.embeddedServerAlive then Healthy else Degraded)
            && r.inner.spawnedAt == Some(now) && !r.inner.stableRecorded
            && r.calls[t] == Emitting(SpawnedEvent(s.calls[t].result.value))
  {
  }

  /** One that fails leaves its text as the last error, and fails for good unless a restart was under way. */
  lemma FailedSpawnIsReported(s: System, t: nat, text: string, now: int)
    requires Exclusive(s) && Enabled(s, Commit(t, text, now)) && s.calls[t].result.None?
    ensures var r := Apply(s, Commit(t, text, now));
            && r.inner.child.None? && r.inner.lastError == Some(SpawnFailure(text)) && !r.inner.spawning
            && (s.inner.state != Restarting ==> r.inner.state == Failed && t !in r.calls)
            && (s.inner.state == Restarting ==> IsDecided(s, r, t, now))
  {
  }

  /** The budget has been asked for an attempt at `now`, and the call says how it went. */
  ghost predicate IsDecided(s: System, r: System, t: nat, now: int) {
    var delay := Recorded(s.inner.budget, now).1;
    && r.budgetCalls == s.budgetCalls + [Record(now)]
    && if delay.Some? then
         r.inner.state == Restarting && r.inner.restartNotBefore == Some(now + delay.value) && t !in r.calls
       else
         r.inner.state == Failed && t in r.calls && r.calls[t] == Emitting(RestartBudgetExhausted)
  }

  /** A poll finds the child running, finds it dead, meets a due deadline, or changes nothing. */
  lemma PollIsReported(s: System, t: nat, now: int, exitCode: Option<int>)
    requires Exclusive(s) && Scheduled(s) && Enabled(s, PollCall(t, now, exitCode))
    ensures var r := Apply(s, PollCall(t, now, exitCode));
            var due := s.inner.state == Restarting && !s.inner.spawning && s.inner.restartNotBefore.Some?
                       && s.inner.restartNotBefore.value <= now;
            if s.inner.child.Some? && s.inner.child.value in s.live then
              && r.inner.child == s.inner.child && r.calls == s.calls && r.inner.lastError == s.inner.lastError
              && r.inner.state == (if s.inner.embeddedServerAlive then Healthy else Degraded)
            else if s.inner.child.Some? then
              && r.inner.child.None? && r.inner.lastError == Some(FoundationExited(s.inner.child.value, exitCode))
              && r.inner.state == s.inner.state && t in r.calls
              && r.calls[t] == PollReporting(s.inner.child.value, exitCode, now)
            else if due then
              r.inner == s.inner.(spawning := true) && t in r.calls && r.calls[t] == Spawning(Some(now))
            else r == s
  {
  }

  /** After the death of its child has been reported a poll asks the budget. */
  lemma ScheduleIsReported(s: System, t: nat)
    requires Enabled(s, PollSchedule(t))
    ensures IsDecided(s, Apply(s, PollSchedule(t)), t, s.calls[t].now)
    ensures Apply(s, PollSchedule(t)).inner.lastError == s.inner.lastError
  {
  }

  /** A start goes to spawn exactly if no child is tracked and none is being spawned. */
  lemma StartIsReported(s: System, t: nat)
    requires Enabled(s, StartCall(t))
    ensures var r := Apply(s, StartCall(t));
            if s.inner.child.None? && !s.inner.spawning then
              && r.inner == s.inner.(state := Starting, spawning := true)
              && t in r.calls && r.calls[t] == Spawning(None)
            else r == s
  {
  }

  /** A stop clears the slot, or finds it clear; its last section leaves `Stopped` and no deadline. */
  lemma StopIsReported(s: System, t: nat, exitCode: Option<int>)
    requires Enabled(s, StopCall(t, exitCode))
    ensures var r := Apply(s, StopCall(t, exitCode));
            if s.inner.child.Some? then
              && r.inner.child.None? && s.inner.child.value !in r.live && r.inner.state == s.inner.state
              && t in r.calls && r.calls[t] == StopReporting(s.inner.child.value, exitCode)
            else r.inner.state == Stopped && r.inner.child.None? && r.inner.restartNotBefore.None? && r.calls == s.calls
  {
  }

  // ---- Over runs ---------------------------------------------------------------------------

  /** The state says of a tracked child that it is up, and whether the server is. */
  predicate UpIfTracked(i: Inner) {
    i.child.Some? ==> i.state == if i.embeddedServerAlive then Healthy else Degraded
  }

  /** The steps that write a state without looking at the slot. */
  predicate WritesBlindly(step: Step) {
    step.PollSchedule? || step.StopFinish?
  }

  lemma StepKeepsUpIfTracked(s: System, step: Step)
    requires Exclusive(s) && UpIfTracked(s.inner) && Enabled(s, step) && !WritesBlindly(step)
    ensures UpIfTracked(Apply(s, step).inner)
  {
  }

  lemma {:induction false} RunKeepsUpIfTracked(s: System, steps: seq<Step>)
    requires Exclusive(s) && UpIfTracked(s.inner) && Runnable(s, steps)
    requires forall k :: 0 <= k < |steps| ==> !WritesBlindly(steps[k])
    ensures UpIfTracked(After(s, steps).inner)
    decreases |steps|
  {
    if steps != [] {
      StepKeepsExclusive(s, steps[0]);
      StepKeepsUpIfTracked(s, steps[0]);
      RunKeepsUpIfTracked(Apply(s, steps[0]), steps[1..]);
    }
  }

  /** From here the state tells of the slot: a spawn succeeds, or a poll finds the child running. */
  predicate Settles(s: System, step: Step)
    requires Enabled(s, step)
  {
    || (step.Commit? && s.calls[step.t].result.Some?)
    || (step.PollCall? && s.inner.child.Some? && s.inner.child.value in s.live)
  }

  /**
   * A tracked child is reported up, `Healthy` or `Degraded` as the server is, from every successful
   * spawn and every poll that finds it running on, for as long as no other call writes the state from
   * the second section of a `poll` or the last one of a `stop`.
   */
  lemma TrackedMeansUp(budget: Ledger, before: seq<Step>, step: Step, later: seq<Step>)
    requires Runnable(Begin(budget), before) && Enabled(After(Begin(budget), before), step)
    requires Settles(After(Begin(budget), before), step)
    requires Runnable(Apply(After(Begin(budget), before), step), later)
    requires forall k :: 0 <= k < |later| ==> !WritesBlindly(later[k])
    ensures UpIfTracked(After(Apply(After(Begin(budget), before), step), later).inner)
  {
    Reachable(budget, before);
    var s := After(Begin(budget), before);
    StepKeepsExclusive(s, step);
    RunKeepsUpIfTracked(Apply(s, step), later);
  }

  /** A poll has reported its dead child and not yet asked the budget; meanwhile a start goes to spawn. */
  lemma StartComesBetween(maxRestarts: nat, window: nat) returns (steps: seq<Step>, r: System)
    ensures Leads(Begin(Fresh(maxRestarts, window)), steps, r)
    ensures 0 in r.calls && r.calls[0] == Spawning(None) && 1 in r.calls && r.calls[1] == PollScheduling(0)
    ensures r.inner.budget == Fresh(maxRestarts, window)
  {
    var s := Begin(Fresh(maxRestarts, window));
    var a := LifeLeads(s, 0);
    var noticed := [Dies(0), PollCall(1, 0, None), Emit(1), StartCall(0)];
    r := Apply(Apply(Apply(Apply(a, Dies(0)), PollCall(1, 0, None)), Emit(1)), StartCall(0));
    FourSteps(a, Dies(0), PollCall(1, 0, None), Emit(1), StartCall(0));
    LeadsThrough(s, Life(0), a, noticed, r);
    steps := Life(0) + noticed;
  }

  /** The start has its child installed, and then the poll asks the budget. */
  lemma PollComesLate(s: System) returns (r: System)
    requires 0 in s.calls && s.calls[0] == Spawning(None) && 1 in s.calls && s.calls[1] == PollScheduling(0)
    requires Recorded(s.inner.budget, 0).1.Some?
    ensures Leads(s, [SpawnReturns(0, true), Commit(0, "", 0), Emit(0), PollSchedule(1)], r)
    ensures r.inner.child == Some(s.next) && s.next in r.live && r.inner.state == Restarting
  {
    var a := Apply(Apply(s, SpawnReturns(0, true)), Commit(0, "", 0));
    assert a.inner.child == Some(s.next) && s.next in a.live && a.inner.budget == s.inner.budget;
    r := Apply(Apply(a, Emit(0)), PollSchedule(1));
    FourSteps(s, SpawnReturns(0, true), Commit(0, "", 0), Emit(0), PollSchedule(1));
  }

  /** Such a write does come: a start between the sections of a poll has its child reported as restarting. */
  lemma ScheduleOverwrites(maxRestarts: nat, window: nat) returns (steps: seq<Step>, r: System)
    requires 1 <= maxRestarts
    ensures Leads(Begin(Fresh(maxRestarts, window)), steps, r)
    ensures r.inner.child.Some? && r.inner.child.value in r.live && r.inner.state == Restarting
  {
    var first, m := StartComesBetween(maxRestarts, window);
    r := PollComesLate(m);
    steps := first + [SpawnReturns(0, true), Commit(0, "", 0), Emit(0), PollSchedule(1)];
    LeadsThrough(Begin(Fresh(maxRestarts, window)), first, m,
                 [SpawnReturns(0, true), Commit(0, "", 0), Emit(0), PollSchedule(1)], r);
  }

  /** The steps that fail, and the failure that they leave behind. */
  function FailureOf(s: System, step: Step): Option<Failure>
    requires Enabled(s, step)
  {
    match step
    case Commit(t, text, _) => if s.calls[t].result.None? then Some(SpawnFailure(text)) else None
    case PollCall(_, _, exitCode) =>
      if s.inner.child.Some? && s.inner.child.value !in s.live
      then Some(FoundationExited(s.inner.child.value, exitCode)) else None
    case _ => None
  }

  lemma {:induction false} ErrorStays(s: System, steps: seq<Step>, error: Option<Failure>)
    requires Runnable(s, steps) && s.inner.lastError == error && NoNews(s, steps)
    ensures After(s, steps).inner.lastError == error
    decreases |steps|
  {
    if steps != [] {
      ErrorStays(Apply(s, steps[0]), steps[1..], error);
    }
  }

  /** No spawn succeeds, and nothing fails. */
  ghost predicate NoNews(s: System, steps: seq<Step>)
    requires Runnable(s, steps)
    decreases |steps|
  {
    steps != [] ==>
      && !(steps[0].Commit? && s.calls[steps[0].t].result.Some?) && FailureOf(s, steps[0]).None?
      && NoNews(Apply(s, steps[0]), steps[1..])
  }

  /** The last error is that of the last failure, until a spawn succeeds. */
  lemma LastErrorIsLatest(budget: Ledger, before: seq<Step>, step: Step, later: seq<Step>)
    requires Runnable(Begin(budget), before) && Enabled(After(Begin(budget), before), step)
    requires Runnable(Apply(After(Begin(budget), before), step), later)
    requires NoNews(Apply(After(Begin(budget), before), step), later)
    ensures var s := After(Begin(budget), before);
            var error := After(Apply(s, step), later).inner.lastError;
            && (FailureOf(s, step).Some? ==> error == FailureOf(s, step))
            && (step.Commit? && s.calls[step.t].result.Some? ==> error.None?)
  {
    var s := After(Begin(budget), before);
    ErrorStays(Apply(s, step), later, Apply(s, step).inner.lastError);
  }

  // ---- Stability ---------------------------------------------------------------------------

  /** A poll counts the child as stable exactly if it finds it running for 30 s or more, and once a child. */
  lemma StableExactly(s: System, t: nat, now: int, exitCode: Option<int>)
    requires Enabled(s, PollCall(t, now, exitCode))
    ensures var r := Apply(s, PollCall(t, now, exitCode));
            var stable := s.inner.child.Some? && s.inner.child.value in s.live && !s.inner.stableRecorded
                          && s.inner.spawnedAt.Some? && now - s.inner.spawnedAt.value >= 30_000_000_000;
            && r.budgetCalls == (if stable then s.budgetCalls + [Stable] else s.budgetCalls)
            && r.inner.stableRecorded == (s.inner.stableRecorded || stable)
  {
  }

  /** For as long as a child is tracked the supervisor keeps the time of its spawn, and a child once stable stays so. */
  lemma ChildKeepsItsTime(s: System, step: Step)
    requires Exclusive(s) && Enabled(s, step) && s.inner.child.Some? && Apply(s, step).inner.child == s.inner.child
    ensures Apply(s, step).inner.spawnedAt == s.inner.spawnedAt
    ensures s.inner.stableRecorded ==> Apply(s, step).inner.stableRecorded
  {
  }
}
