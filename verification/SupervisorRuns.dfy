/**
 * Interleavings of the supervisor's lock sections. The mutex is free while a child is being spawned
 * and while an event is emitted, so any number of calls can stand between two of their sections.
 */
module SupervisorRuns {
  import opened Prelude
  import opened RestartBudgets
  import opened Supervisor

  /** Where a call stands while it does not hold the mutex; `polled` is the `now` of a poll. */
  datatype Phase =
    | Spawning(polled: Option<int>)
    | SpawnReturned(polled: Option<int>, result: Option<Instance>)
    | PollReporting(pid: Instance, exitCode: Option<int>, now: int)
    | PollScheduling(now: int)
    | StopReporting(pid: Instance, exitCode: Option<int>)
    | StopFinishing
    | Emitting(event: Event)
  {
    predicate InSpawn() { Spawning? || SpawnReturned? }

    /** Between the two sections of a `poll` or a `stop` that found a child to clear. */
    predicate InGap() { PollReporting? || PollScheduling? || StopReporting? || StopFinishing? }

    /** Can still change the state to something other than `Stopped`. */
    predicate Disturbs() { InSpawn() || PollReporting? || PollScheduling? }
  }

  /**
   * The mutex-protected fields, the calls in flight and the events emitted so far; then, for the
   * statements below, the last call that went to spawn, the processes alive, those ever installed,
   * the next fresh instance, the calls made on the budget, the attempts it granted, the spawns made
   * by `poll`, and the last deadline scheduled.
   */
  datatype System = System(
    inner: Inner,
    calls: map<nat, Phase>,
    log: seq<Event>,
    spawner: nat,
    live: set<Instance>,
    installed: set<Instance>,
    next: Instance,
    budgetCalls: seq<Call>,
    granted: seq<int>,
    respawns: seq<Respawning>,
    deadline: Option<int>)

  /** A spawn made by `poll` at its `now`, the deadline it met, and how many attempts had been granted by then. */
  datatype Respawning = Respawning(now: int, due: int, paid: nat)

  datatype Step =
    | StartCall(t: nat)
    | SpawnReturns(t: nat, ok: bool)
    | Commit(t: nat, text: string, now: int)
    | NoteServer(alive: bool)
    | PollCall(t: nat, now: int, exitCode: Option<int>)
    | PollSchedule(t: nat)
    | StopCall(t: nat, exitCode: Option<int>)
    | StopFinish(t: nat)
    | Emit(t: nat)
    | TakeSnapshot(now: int)
    | Dies(pid: Instance)

  predicate Enabled(s: System, step: Step) {
    match step
    case StartCall(t) => t !in s.calls
    case PollCall(t, _, _) => t !in s.calls
    case StopCall(t, _) => t !in s.calls
    case SpawnReturns(t, _) => t in s.calls && s.calls[t].Spawning?
    case Commit(t, _, now) =>
      t in s.calls && s.calls[t].SpawnReturned? && (s.calls[t].polled.Some? ==> now == s.calls[t].polled.value)
    case PollSchedule(t) => t in s.calls && s.calls[t].PollScheduling?
    case StopFinish(t) => t in s.calls && s.calls[t].StopFinishing?
    case Emit(t) => t in s.calls && (s.calls[t].Emitting? || s.calls[t].PollReporting? || s.calls[t].StopReporting?)
    case NoteServer(_) => true
    case TakeSnapshot(_) => true
    case Dies(pid) => pid in s.live
  }

  function Drop(calls: map<nat, Phase>, t: nat): map<nat, Phase> {
    calls - {t}
  }

  /** An attempt on the budget, and what `t` has left to do afterwards. */
  function Attempted(s: System, t: nat, after: Inner, now: int): System {
    s.(inner := after, budgetCalls := s.budgetCalls + [Record(now)],
       calls := if after.state == Failed then s.calls[t := Emitting(RestartBudgetExhausted)] else Drop(s.calls, t),
       granted := if after.state == Restarting then s.granted + [now] else s.granted,
       deadline := if after.state == Restarting then after.restartNotBefore else s.deadline)
  }

  /** The deadline that a respawning poll meets; without one every poll does. */
  function Deadline(i: Inner, now: int): int {
    if i.restartNotBefore.Some? then i.restartNotBefore.value else now
  }

  function Apply(s: System, step: Step): System
    requires Enabled(s, step)
  {
    var i := s.inner;
    match step
    case StartCall(t) =>
      var (j, spawn) := Started(i);
      if spawn then s.(inner := j, calls := s.calls[t := Spawning(None)], spawner := t) else s
    case SpawnReturns(t, ok) =>
      var polled := s.calls[t].polled;
      if ok then s.(calls := s.calls[t := SpawnReturned(polled, Some(s.next))],
                    live := s.live + {s.next}, next := s.next + 1)
      else s.(calls := s.calls[t := SpawnReturned(polled, None)])
    case Commit(t, text, now) =>
      (match s.calls[t].result
       case Some(pid) =>
         s.(inner := CommittedChild(i, pid, now), installed := s.installed + {pid},
            calls := s.calls[t := Emitting(SpawnedEvent(pid))])
       case None =>
         if i.state == Restarting then Attempted(s, t, CommittedFailure(i, text, now), now)
         else s.(inner := CommittedFailure(i, text, now), calls := Drop(s.calls, t)))
    case NoteServer(alive) => s.(inner := NotedEmbeddedServer(i, alive))
    case PollCall(t, now, exitCode) =>
      var running := i.child.Some? && i.child.value in s.live;
      var (j, next) := Polled(i, now, running, exitCode);
      (match next
       case Return =>
         s.(inner := j, budgetCalls := if !i.stableRecorded && j.stableRecorded then s.budgetCalls + [Stable]
                                       else s.budgetCalls)
       case ReportDeath(pid) => s.(inner := j, calls := s.calls[t := PollReporting(pid, exitCode, now)])
       case Respawn =>
         s.(inner := j, calls := s.calls[t := Spawning(Some(now))], spawner := t,
            respawns := s.respawns + [Respawning(now, Deadline(i, now), |s.granted|)]))
    case PollSchedule(t) => Attempted(s, t, RestartOrFail(i, s.calls[t].now), s.calls[t].now)
    case StopCall(t, exitCode) =>
      if i.child.Some? then
        s.(inner := Reaped(i), live := s.live - {i.child.value},
           calls := s.calls[t := StopReporting(i.child.value, exitCode)])
      else s.(inner := MarkedStopped(i))
    case StopFinish(t) => s.(inner := MarkedStopped(i), calls := Drop(s.calls, t))
    case Emit(t) =>
      (match s.calls[t]
       case PollReporting(pid, exitCode, now) =>
         s.(log := s.log + [TerminalEvent(pid, exitCode)], calls := s.calls[t := PollScheduling(now)])
       case StopReporting(pid, exitCode) =>
         s.(log := s.log + [TerminalEvent(pid, exitCode)], calls := s.calls[t := StopFinishing])
       case Emitting(event) => s.(log := s.log + [event], calls := Drop(s.calls, t)))
    case TakeSnapshot(now) =>
      s.(inner := i.(budget := Counted(i.budget, now)), budgetCalls := s.budgetCalls + [Count(now)])
    case Dies(pid) => s.(live := s.live - {pid})
  }

  function Begin(budget: Ledger): System {
    System(Initial(budget), map[], [], 0, {}, {}, 0, [], [], [], None)
  }

  ghost predicate Runnable(s: System, steps: seq<Step>)
    decreases |steps|
  {
    steps != [] ==> Enabled(s, steps[0]) && Runnable(Apply(s, steps[0]), steps[1..])
  }

  ghost function After(s: System, steps: seq<Step>): System
    requires Runnable(s, steps)
    decreases |steps|
  {
    if steps == [] then s else After(Apply(s, steps[0]), steps[1..])
  }

  // ---- One Foundation at a time ---------------------------------------------------------

  /** A spawn is in flight exactly while the flag is set, it is the only one, and the slot is empty. */
  ghost predicate Exclusive(s: System) {
    && (s.inner.spawning <==> s.spawner in s.calls && s.calls[s.spawner].InSpawn())
    && (forall t :: t in s.calls && s.calls[t].InSpawn() ==> t == s.spawner)
    && (s.inner.spawning ==> s.inner.child.None?)
  }

  /** Instances are never reused, and every live process is in the slot or on its way there. */
  ghost predicate Accounted(s: System) {
    && (s.inner.child.Some? ==> s.inner.child.value in s.installed)
    && (forall pid :: pid in s.installed ==> pid < s.next)
    && (OnItsWay(s).Some? ==> OnItsWay(s).value < s.next && OnItsWay(s).value !in s.installed)
    && (forall pid :: pid in s.live ==> s.inner.child == Some(pid) || OnItsWay(s) == Some(pid))
  }

  /** A child spawned and not yet committed. */
  function OnItsWay(s: System): Option<Instance> {
    if s.spawner in s.calls && s.calls[s.spawner].SpawnReturned? then s.calls[s.spawner].result else None
  }

  lemma StepKeepsExclusive(s: System, step: Step)
    requires Exclusive(s) && Enabled(s, step)
    ensures Exclusive(Apply(s, step))
  {
  }

  lemma StepKeepsAccounted(s: System, step: Step)
    requires Exclusive(s) && Accounted(s) && Enabled(s, step)
    ensures Accounted(Apply(s, step))
  {
  }

  /** The Foundation processes that exist, are being created, or fill the slot. */
  ghost function Foundations(s: System): nat {
    |set t | t in s.calls && s.calls[t].InSpawn()| + if s.inner.child.Some? then 1 else 0
  }

  lemma ExclusiveMeansOne(s: System)
    requires Exclusive(s) && Accounted(s)
    ensures Foundations(s) <= 1 && |s.live| <= 1
  {
    var spawns := set t | t in s.calls && s.calls[t].InSpawn();
    assert spawns == if s.inner.spawning then {s.spawner} else {};
    if pid :| pid in s.live {
      forall q | q in s.live
        ensures q == pid
      {
      }
      SubsetCardinality(s.live, {pid});
    }
  }

  // ---- What the reported state means -----------------------------------------------------

  ghost predicate InGap(s: System) {
    exists t :: t in s.calls && s.calls[t].InGap()
  }

  ghost predicate Scheduled(s: System) {
    && (s.inner.state == Starting ==> s.inner.spawning)
    && (s.inner.state == Restarting ==> s.inner.restartNotBefore.Some?)
    && (s.inner.restartNotBefore.Some? ==> s.inner.restartNotBefore == s.deadline)
    && (s.inner.spawnedAt.Some? <==> s.inner.child.Some?)
  }

  ghost predicate UpMeansUp(s: System) {
    s.inner.state == Healthy || s.inner.state == Degraded ==>
      if s.inner.child.Some? then s.inner.state == s.inner.UpState() else InGap(s)
  }

  ghost predicate Truthful(s: System) {
    Scheduled(s) && UpMeansUp(s)
  }

  /** A call that is in its gap, or enters it, is in it after the step. */
  lemma GapStays(s: System, step: Step)
    requires Exclusive(s) && Truthful(s) && Enabled(s, step)
    requires var r := Apply(s, step).inner; r.child.None? && (r.state == Healthy || r.state == Degraded)
    ensures InGap(Apply(s, step))
  {
    var r := Apply(s, step);
    if s.inner.child.None? {
      var t :| t in s.calls && s.calls[t].InGap();
      assert t in r.calls && r.calls[t].InGap();
    } else {
      assert step.t in r.calls && r.calls[step.t].InGap();
    }
  }

  lemma CommitKeepsScheduled(s: System, step: Step)
    requires Exclusive(s) && Scheduled(s) && Enabled(s, step) && step.Commit?
    ensures Scheduled(Apply(s, step))
  {
  }

  lemma ScheduleKeepsScheduled(s: System, step: Step)
    requires Exclusive(s) && Scheduled(s) && Enabled(s, step) && step.PollSchedule?
    ensures Scheduled(Apply(s, step))
  {
  }

  lemma PollKeepsScheduled(s: System, step: Step)
    requires Exclusive(s) && Scheduled(s) && Enabled(s, step) && step.PollCall?
    ensures Scheduled(Apply(s, step))
  {
  }

  lemma StepKeepsScheduled(s: System, step: Step)
    requires Exclusive(s) && Scheduled(s) && Enabled(s, step)
    ensures Scheduled(Apply(s, step))
  {
    if step.Commit? {
      CommitKeepsScheduled(s, step);
    } else if step.PollSchedule? {
      ScheduleKeepsScheduled(s, step);
    } else if step.PollCall? {
      PollKeepsScheduled(s, step);
    }
  }

  lemma StepKeepsUp(s: System, step: Step)
    requires Exclusive(s) && Truthful(s) && Enabled(s, step)
    ensures UpMeansUp(Apply(s, step))
  {
    var r := Apply(s, step).inner;
    if r.child.None? && (r.state == Healthy || r.state == Degraded) {
      GapStays(s, step);
    }
  }

  lemma StepKeepsTruthful(s: System, step: Step)
    requires Exclusive(s) && Truthful(s) && Enabled(s, step)
    ensures Truthful(Apply(s, step))
  {
    StepKeepsScheduled(s, step);
    StepKeepsUp(s, step);
  }

  // ---- Restarts are paid for --------------------------------------------------------------

  ghost predicate PollSpawnInFlight(s: System) {
    s.spawner in s.calls && s.calls[s.spawner].InSpawn() && s.calls[s.spawner].polled.Some?
  }

  /** The budget, and the attempts it granted, are what the calls made on it lead to. */
  ghost predicate OnTheBooks(s: System, budget: Ledger) {
    var run := Run(budget, s.budgetCalls);
    s.inner.budget == run.ledger && s.granted == run.grants
  }

  /** The deadline is that of an attempt granted at this time. */
  ghost predicate DelayedFrom(grant: int, due: int) {
    grant + SHORTEST <= due <= grant + LONGEST
  }

  /** The deadline met is that of the last attempt granted before the spawn. */
  ghost predicate Covered(granted: seq<int>, r: Respawning) {
    1 <= r.paid <= |granted| && DelayedFrom(granted[r.paid - 1], r.due) && r.due <= r.now
  }

  /** Before each spawn made by `poll`, and after the one before, an attempt was granted. */
  ghost predicate PaidInTurn(respawns: seq<Respawning>) {
    && (forall k :: 0 <= k < |respawns| ==> respawns[k].paid > k)
    && (forall j, k :: 0 <= j < k < |respawns| ==> respawns[k].paid - respawns[j].paid >= k - j)
  }

  /** A state of `Restarting` holds an attempt in reserve, and the deadline is that of the last. */
  ghost predicate Reserved(s: System) {
    s.inner.state == Restarting && !PollSpawnInFlight(s) ==>
      && s.granted != [] && s.inner.restartNotBefore.Some?
      && DelayedFrom(Last(s.granted), s.inner.restartNotBefore.value)
      && (s.respawns != [] ==> Last(s.respawns).paid < |s.granted|)
  }

  /** Each spawn made by `poll` used a grant of its own. */
  ghost predicate PaidFor(s: System) {
    (forall k :: 0 <= k < |s.respawns| ==> Covered(s.granted, s.respawns[k])) && PaidInTurn(s.respawns) && Reserved(s)
  }

  lemma RunExtends(budget: Ledger, calls: seq<Call>, call: Call)
    ensures Run(budget, calls + [call]) == Extend(Run(budget, calls), call)
  {
    assert Front(calls + [call]) == calls;
  }

  /** The call a step makes on the budget, if any. */
  function BudgetCall(s: System, step: Step): Option<Call>
    requires Enabled(s, step)
  {
    match step
    case Commit(t, _, now) => if s.calls[t].result.None? && s.inner.state == Restarting then Some(Record(now)) else None
    case PollSchedule(t) => Some(Record(s.calls[t].now))
    case TakeSnapshot(now) => Some(Count(now))
    case PollCall(t, now, exitCode) =>
      var running := s.inner.child.Some? && s.inner.child.value in s.live;
      if !s.inner.stableRecorded && Polled(s.inner, now, running, exitCode).0.stableRecorded then Some(Stable) else None
    case _ => None
  }

  lemma RunExtendsByStep(s: System, step: Step, budget: Ledger)
    requires Enabled(s, step)
    ensures Run(budget, Apply(s, step).budgetCalls)
            == var call := BudgetCall(s, step);
               if call.Some? then Extend(Run(budget, s.budgetCalls), call.value) else Run(budget, s.budgetCalls)
  {
    var call := BudgetCall(s, step);
    assert Apply(s, step).budgetCalls == if call.Some? then s.budgetCalls + [call.value] else s.budgetCalls;
    if call.Some? {
      RunExtends(budget, s.budgetCalls, call.value);
    }
  }

  /** The budget of the supervisor changes by the call the step makes on it. */
  lemma StepCallsBudget(s: System, step: Step, t: Trace)
    requires Enabled(s, step) && t.ledger == s.inner.budget
    ensures BudgetCall(s, step).None? ==> Apply(s, step).inner.budget == t.ledger
    ensures BudgetCall(s, step).Some? ==> Apply(s, step).inner.budget == Extend(t, BudgetCall(s, step).value).ledger
  {
  }

  lemma StepIsGranted(s: System, step: Step, t: Trace)
    requires Enabled(s, step) && t.ledger == s.inner.budget && t.grants == s.granted
    ensures BudgetCall(s, step).None? ==> Apply(s, step).granted == s.granted
    ensures BudgetCall(s, step).Some? ==> Apply(s, step).granted == Extend(t, BudgetCall(s, step).value).grants
  {
  }

  lemma StepKeepsBooks(s: System, step: Step, budget: Ledger)
    requires OnTheBooks(s, budget) && Enabled(s, step)
    ensures OnTheBooks(Apply(s, step), budget)
  {
    RunExtendsByStep(s, step, budget);
    StepCallsBudget(s, step, Run(budget, s.budgetCalls));
    StepIsGranted(s, step, Run(budget, s.budgetCalls));
  }

  /** A grant adds to the attempts, and only a poll in its `Restarting` state adds to the spawns. */
  lemma StepAdds(s: System, step: Step)
    requires Enabled(s, step)
    ensures s.granted <= Apply(s, step).granted
    ensures var r := Apply(s, step);
            r.respawns == s.respawns
            || (step.PollCall? && s.inner.state == Restarting && !s.inner.spawning && r.granted == s.granted
                && (s.inner.restartNotBefore.Some? ==> s.inner.restartNotBefore.value <= step.now)
                && r.respawns == s.respawns + [Respawning(step.now, Deadline(s.inner, step.now), |s.granted|)])
  {
  }

  /** The steps that can ask the budget for another attempt. */
  predicate Asks(step: Step) {
    step.Commit? || step.PollSchedule?
  }

  lemma AskingKeepsReserved(s: System, step: Step)
    requires Exclusive(s) && PaidFor(s) && Enabled(s, step) && Asks(step)
    ensures Reserved(Apply(s, step))
  {
    BackoffIsBounded(s.inner.budget.consecutive);
    BackoffIsBounded(U32_MAX - 1);
    assert s.respawns != [] ==> Covered(s.granted, s.respawns[|s.respawns| - 1]);
  }

  lemma PollKeepsReserved(s: System, step: Step)
    requires Exclusive(s) && PaidFor(s) && Enabled(s, step) && step.PollCall?
    ensures Reserved(Apply(s, step))
  {
  }

  lemma StepKeepsReserved(s: System, step: Step)
    requires Exclusive(s) && PaidFor(s) && Enabled(s, step)
    ensures Reserved(Apply(s, step))
  {
    if Asks(step) {
      AskingKeepsReserved(s, step);
    } else if step.PollCall? {
      PollKeepsReserved(s, step);
    }
  }

  lemma StepKeepsPaidFor(s: System, step: Step)
    requires Exclusive(s) && PaidFor(s) && Enabled(s, step)
    ensures PaidFor(Apply(s, step))
  {
    StepAdds(s, step);
    StepKeepsReserved(s, step);
    if Apply(s, step).respawns != s.respawns {
      assert !PollSpawnInFlight(s);
      assert s.respawns != [] ==> Last(s.respawns).paid == s.respawns[|s.respawns| - 1].paid;
    }
  }

  // ---- Events -----------------------------------------------------------------------------

  /** An event up to its exit code. */
  datatype Mark = Birth(pid: Instance) | Death(pid: Instance) | GivenUp

  function MarkOf(event: Event): Mark {
    match event
    case SpawnedEvent(pid) => Birth(pid)
    case TerminalEvent(pid, _) => Death(pid)
    case RestartBudgetExhausted => GivenUp
  }

  /** The event a call has yet to emit. */
  function Owed(phase: Phase): Option<Mark> {
    match phase
    case Emitting(event) => Some(MarkOf(event))
    case PollReporting(pid, _, _) => Some(Death(pid))
    case StopReporting(pid, _) => Some(Death(pid))
    case _ => None
  }

  ghost function Emitted(log: seq<Event>, mark: Mark): nat {
    if log == [] then 0 else Emitted(Front(log), mark) + if MarkOf(Last(log)) == mark then 1 else 0
  }

  ghost function Owing(calls: map<nat, Phase>, mark: Mark): set<nat> {
    set t | t in calls && Owed(calls[t]) == Some(mark)
  }

  /** Events of this kind, emitted or about to be. */
  ghost function Total(s: System, mark: Mark): nat {
    Emitted(s.log, mark) + |Owing(s.calls, mark)|
  }

  /**
   * Every installed child has exactly one `Spawned`; it has exactly one `Terminal` once it is out of
   * the slot and none before; and every refusal of the budget has one `RestartBudgetExhausted`.
   */
  ghost predicate EventsMatch(s: System, budget: Ledger) {
    && (forall pid :: Total(s, Birth(pid)) == if pid in s.installed then 1 else 0)
    && (forall pid :: Total(s, Death(pid)) == if pid in s.installed && s.inner.child != Some(pid) then 1 else 0)
    && Total(s, GivenUp) == Run(budget, s.budgetCalls).refusals
  }

  lemma OwingWithout(calls: map<nat, Phase>, t: nat, mark: Mark)
    ensures |Owing(Drop(calls, t), mark)|
         == |Owing(calls, mark)| - if t in calls && Owed(calls[t]) == Some(mark) then 1 else 0
  {
    assert Owing(Drop(calls, t), mark) == Owing(calls, mark) - {t};
  }

  lemma OwingUpdate(calls: map<nat, Phase>, t: nat, phase: Phase, mark: Mark)
    ensures |Owing(calls[t := phase], mark)|
         == |Owing(Drop(calls, t), mark)| + if Owed(phase) == Some(mark) then 1 else 0
  {
    var kept := Owing(Drop(calls, t), mark);
    assert Owing(calls[t := phase], mark) == if Owed(phase) == Some(mark) then kept + {t} else kept;
  }

  lemma EmittedGrows(log: seq<Event>, event: Event, mark: Mark)
    ensures Emitted(log + [event], mark) == Emitted(log, mark) + if MarkOf(event) == mark then 1 else 0
  {
    assert Front(log + [event]) == log;
  }

  /** The change one step makes to the number of events of one kind. */
  function Change(s: System, step: Step, mark: Mark): int
    requires Enabled(s, step)
  {
    match step
    case Commit(t, text, now) =>
      if s.calls[t].result.Some? then (if mark == Birth(s.calls[t].result.value) then 1 else 0)
      else if s.inner.state == Restarting && CommittedFailure(s.inner, text, now).state == Failed
              && mark == GivenUp then 1 else 0
    case PollCall(t, now, exitCode) =>
      if s.inner.child.Some? && s.inner.child.value !in s.live && mark == Death(s.inner.child.value) then 1 else 0
    case StopCall(t, exitCode) => if s.inner.child.Some? && mark == Death(s.inner.child.value) then 1 else 0
    case PollSchedule(t) => if RestartOrFail(s.inner, s.calls[t].now).state == Failed && mark == GivenUp then 1 else 0
    case _ => 0
  }

  /** What call `t` owes of one kind of event. */
  function Due(calls: map<nat, Phase>, t: nat, mark: Mark): nat {
    if t in calls && Owed(calls[t]) == Some(mark) then 1 else 0
  }

  /** The step of a call changes what that call owes and nothing else. */
  lemma OwingChanges(s: System, step: Step, mark: Mark)
    requires Enabled(s, step) && !step.NoteServer? && !step.TakeSnapshot? && !step.Dies?
    ensures var r := Apply(s, step);
            |Owing(r.calls, mark)| == |Owing(s.calls, mark)| - Due(s.calls, step.t, mark) + Due(r.calls, step.t, mark)
  {
    var r := Apply(s, step);
    OwingWithout(s.calls, step.t, mark);
    if step.t in r.calls {
      OwingUpdate(s.calls, step.t, r.calls[step.t], mark);
      assert r.calls == s.calls[step.t := r.calls[step.t]];
    } else {
      assert r.calls == Drop(s.calls, step.t);
    }
  }

  lemma StepOwes(s: System, step: Step, mark: Mark)
    requires Enabled(s, step) && !step.NoteServer? && !step.TakeSnapshot? && !step.Dies? && !step.Emit?
    ensures Due(Apply(s, step).calls, step.t, mark) == Due(s.calls, step.t, mark) + Change(s, step, mark)
    ensures Apply(s, step).log == s.log
  {
  }

  /** The event emitted is the one owed. */
  lemma EmitPays(s: System, step: Step, mark: Mark) returns (event: Event)
    requires Enabled(s, step) && step.Emit?
    ensures Apply(s, step).log == s.log + [event]
    ensures Due(s.calls, step.t, mark) == (if MarkOf(event) == mark then 1 else 0)
    ensures Due(Apply(s, step).calls, step.t, mark) == 0
  {
    match s.calls[step.t] {
      case PollReporting(pid, exitCode, _) => event := TerminalEvent(pid, exitCode);
      case StopReporting(pid, exitCode) => event := TerminalEvent(pid, exitCode);
      case Emitting(e) => event := e;
    }
  }

  lemma StepChangesTotal(s: System, step: Step, mark: Mark)
    requires Enabled(s, step)
    ensures Total(Apply(s, step), mark) == Total(s, mark) + Change(s, step, mark)
  {
    if !(step.NoteServer? || step.TakeSnapshot? || step.Dies?) {
      OwingChanges(s, step, mark);
      if step.Emit? {
        var event := EmitPays(s, step, mark);
        EmittedGrows(s.log, event, mark);
      } else {
        StepOwes(s, step, mark);
      }
    }
  }

  lemma BirthsChange(s: System, step: Step, pid: Instance)
    requires Exclusive(s) && Accounted(s) && Enabled(s, step)
    ensures Change(s, step, Birth(pid))
         == (if pid in Apply(s, step).installed then 1 else 0) - if pid in s.installed then 1 else 0
  {
  }

  predicate Departed(s: System, pid: Instance) {
    pid in s.installed && s.inner.child != Some(pid)
  }

  lemma DeathsChange(s: System, step: Step, pid: Instance)
    requires Exclusive(s) && Accounted(s) && Enabled(s, step)
    ensures Change(s, step, Death(pid))
         == (if Departed(Apply(s, step), pid) then 1 else 0) - if Departed(s, pid) then 1 else 0
  {
  }

  /** The budget refuses. */
  predicate Refuses(b: Ledger, call: Option<Call>) {
    call.Some? && call.value.Record? && Recorded(b, call.value.now).1.None?
  }

  lemma RefusalIsReported(s: System, step: Step)
    requires Enabled(s, step)
    ensures Change(s, step, GivenUp) == if Refuses(s.inner.budget, BudgetCall(s, step)) then 1 else 0
  {
  }

  lemma RefusalsCount(t: Trace, call: Call)
    ensures Extend(t, call).refusals == t.refusals + if Refuses(t.ledger, Some(call)) then 1 else 0
  {
  }

  lemma RefusalsChange(s: System, step: Step, budget: Ledger)
    requires OnTheBooks(s, budget) && Enabled(s, step)
    ensures Change(s, step, GivenUp)
         == Run(budget, Apply(s, step).budgetCalls).refusals - Run(budget, s.budgetCalls).refusals
  {
    RunExtendsByStep(s, step, budget);
    RefusalIsReported(s, step);
    if BudgetCall(s, step).Some? {
      RefusalsCount(Run(budget, s.budgetCalls), BudgetCall(s, step).value);
    }
  }

  lemma StepKeepsEvents(s: System, step: Step, budget: Ledger)
    requires Exclusive(s) && Accounted(s) && OnTheBooks(s, budget) && EventsMatch(s, budget) && Enabled(s, step)
    ensures EventsMatch(Apply(s, step), budget)
  {
    var r := Apply(s, step);
    RefusalsChange(s, step, budget);
    StepChangesTotal(s, step, GivenUp);
    forall pid: Instance
      ensures Total(r, Birth(pid)) == if pid in r.installed then 1 else 0
    {
      BirthsChange(s, step, pid);
      StepChangesTotal(s, step, Birth(pid));
    }
    forall pid: Instance
      ensures Total(r, Death(pid)) == if Departed(r, pid) then 1 else 0
    {
      DeathsChange(s, step, pid);
      StepChangesTotal(s, step, Death(pid));
    }
  }

  // ---- Every interleaving ------------------------------------------------------------------

  ghost predicate Invariant(s: System, budget: Ledger) {
    Exclusive(s) && Accounted(s) && Truthful(s) && OnTheBooks(s, budget) && PaidFor(s) && EventsMatch(s, budget)
  }

  lemma StepKeepsInvariant(s: System, step: Step, budget: Ledger)
    requires Invariant(s, budget) && Enabled(s, step)
    ensures Invariant(Apply(s, step), budget)
  {
    StepKeepsExclusive(s, step);
    StepKeepsAccounted(s, step);
    StepKeepsTruthful(s, step);
    StepKeepsBooks(s, step, budget);
    StepKeepsPaidFor(s, step);
    StepKeepsEvents(s, step, budget);
  }

  lemma {:induction false} RunKeepsInvariant(s: System, steps: seq<Step>, budget: Ledger)
    requires Invariant(s, budget) && Runnable(s, steps)
    ensures Invariant(After(s, steps), budget)
    decreases |steps|
  {
    if steps != [] {
      StepKeepsInvariant(s, steps[0], budget);
      RunKeepsInvariant(Apply(s, steps[0]), steps[1..], budget);
    }
  }

  lemma Reachable(budget: Ledger, steps: seq<Step>)
    requires Runnable(Begin(budget), steps)
    ensures Invariant(After(Begin(budget), steps), budget)
  {
    RunKeepsInvariant(Begin(budget), steps, budget);
  }

  /**
   * Over every interleaving at most one Foundation is tracked or being created, at most one
   * process is alive, and a commit never overwrites a tracked child.
   */
  lemma AtMostOneFoundation(budget: Ledger, steps: seq<Step>)
    requires Runnable(Begin(budget), steps)
    ensures var s := After(Begin(budget), steps);
            && Foundations(s) <= 1 && |s.live| <= 1
            && (s.inner.spawning <==> exists t :: t in s.calls && s.calls[t].InSpawn())
            && (forall t :: t in s.calls && s.calls[t].SpawnReturned? ==> s.inner.child.None?)
  {
    Reachable(budget, steps);
    ExclusiveMeansOne(After(Begin(budget), steps));
  }

  /**
   * Over every interleaving each installed child has one `Spawned` and at most one `Terminal`,
   * counting those about to be emitted, and their difference is the occupancy of the slot.
   */
  lemma EachChildHasOneLife(budget: Ledger, steps: seq<Step>, pid: Instance)
    requires Runnable(Begin(budget), steps)
    ensures var s := After(Begin(budget), steps);
            && Total(s, Birth(pid)) == (if pid in s.installed then 1 else 0)
            && Total(s, Birth(pid)) - Total(s, Death(pid)) == (if s.inner.child == Some(pid) then 1 else 0)
            && Total(s, GivenUp) == Run(budget, s.budgetCalls).refusals
  {
    Reachable(budget, steps);
  }

  /**
   * `Healthy` and `Degraded` are told apart by the embedded server for as long as a child is tracked,
   * and without one neither is claimed but inside the named gap.
   */
  lemma HealthyIsTruthful(budget: Ledger, steps: seq<Step>)
    requires Runnable(Begin(budget), steps)
    ensures var s := After(Begin(budget), steps);
            s.inner.state == Healthy || s.inner.state == Degraded ==>
              if s.inner.child.Some? then s.inner.state == Healthy <==> s.inner.embeddedServerAlive else InGap(s)
  {
    Reachable(budget, steps);
  }

  /** A poll that goes on to spawn was made no earlier than the deadline of the last granted attempt. */
  lemma RespawnWaitsForDeadline(budget: Ledger, steps: seq<Step>, step: Step)
    requires Runnable(Begin(budget), steps)
    requires Enabled(After(Begin(budget), steps), step)
    requires Apply(After(Begin(budget), steps), step).respawns != After(Begin(budget), steps).respawns
    ensures var s := After(Begin(budget), steps);
            step.PollCall? && s.inner.state == Restarting && s.deadline.Some? && s.deadline.value <= step.now
  {
    Reachable(budget, steps);
  }

  // ---- When `stop` is final ----------------------------------------------------------------

  predicate Quiet(s: System) {
    s.inner.state == Stopped && s.inner.child.None?
  }

  ghost predicate Undisturbed(s: System) {
    forall t :: t in s.calls ==> !s.calls[t].Disturbs()
  }

  ghost predicate NoStart(steps: seq<Step>) {
    forall k :: 0 <= k < |steps| ==> !steps[k].StartCall?
  }

  /** Nothing but a new `start` can bring the supervisor back. */
  ghost predicate Final(s: System) {
    forall steps :: Runnable(s, steps) && NoStart(steps) ==> Quiet(After(s, steps))
  }

  lemma {:induction false} QuietLasts(s: System, steps: seq<Step>)
    requires Exclusive(s) && Quiet(s) && Undisturbed(s)
    requires Runnable(s, steps) && NoStart(steps)
    ensures Quiet(After(s, steps))
    decreases |steps|
  {
    if steps != [] {
      StepKeepsExclusive(s, steps[0]);
      assert Quiet(Apply(s, steps[0])) && Undisturbed(Apply(s, steps[0]));
      QuietLasts(Apply(s, steps[0]), steps[1..]);
    }
  }

  /** The steps with which a call in flight ends the quiet. */
  function Disturbance(s: System, t: nat): seq<Step>
    requires t in s.calls && s.calls[t].Disturbs()
  {
    match s.calls[t]
    case Spawning(polled) => [SpawnReturns(t, true), Commit(t, "", if polled.Some? then polled.value else 0)]
    case SpawnReturned(polled, _) => [Commit(t, "", if polled.Some? then polled.value else 0)]
    case PollReporting(_, _, _) => [Emit(t), PollSchedule(t)]
    case _ => [PollSchedule(t)]
  }

  lemma DisturbanceDisturbs(s: System, t: nat)
    requires Exclusive(s) && Quiet(s) && t in s.calls && s.calls[t].Disturbs()
    ensures var steps := Disturbance(s, t);
            Runnable(s, steps) && NoStart(steps) && !Quiet(After(s, steps))
  {
    var steps := Disturbance(s, t);
    var r := Apply(s, steps[0]);
    if |steps| == 2 {
      assert steps[1..][0] == steps[1] && steps[1..][1..] == [];
      assert Runnable(Apply(r, steps[1]), []);
      assert After(r, steps[1..]) == Apply(r, steps[1]);
    } else {
      assert steps[1..] == [];
    }
  }

  /**
   * The documented promise that `stop` leaves the supervisor stopped with no child holds exactly
   * when the slot is still empty at the end and no `start` or `poll` is part-way through.
   */
  lemma StopIsFinalExactly(s: System)
    requires Exclusive(s)
    ensures Final(s) <==> Quiet(s) && Undisturbed(s)
  {
    if Quiet(s) && Undisturbed(s) {
      forall steps | Runnable(s, steps) && NoStart(steps)
        ensures Quiet(After(s, steps))
      {
        QuietLasts(s, steps);
      }
    } else if Final(s) {
      assert Runnable(s, []) && NoStart([]) && After(s, []) == s;
      var t :| t in s.calls && s.calls[t].Disturbs();
      DisturbanceDisturbs(s, t);
      assert false;
    }
  }

  /** A `stop` that returns while a `start` is still spawning leaves a child behind. */
  lemma StopRacingStart(budget: Ledger)
    ensures var steps := [StartCall(0), StopCall(1, None), SpawnReturns(0, true), Commit(0, "", 0)];
            && Runnable(Begin(budget), steps)
            && 1 !in After(Begin(budget), steps[..2]).calls && Quiet(After(Begin(budget), steps[..2]))
            && After(Begin(budget), steps).inner.child == Some(0)
  {
    var s0 := Begin(budget);
    var s1 := Apply(s0, StartCall(0));
    var s2 := Apply(s1, StopCall(1, None));
    assert [StartCall(0), StopCall(1, None)][1..] == [StopCall(1, None)];
    assert After(s1, [StopCall(1, None)]) == s2;
    var steps := [StartCall(0), StopCall(1, None), SpawnReturns(0, true), Commit(0, "", 0)];
    assert steps[..2] == [StartCall(0), StopCall(1, None)];
    assert steps[1..] == [StopCall(1, None), SpawnReturns(0, true), Commit(0, "", 0)];
    assert steps[1..][1..] == Disturbance(s2, 0);
    DisturbanceDisturbs(s2, 0);
    var s3 := Apply(s2, SpawnReturns(0, true));
    assert Disturbance(s2, 0)[1..] == [Commit(0, "", 0)];
    assert After(s3, [Commit(0, "", 0)]) == Apply(s3, Commit(0, "", 0));
  }

  /** `stop` alone on the supervisor, as the host role runs it once its monitor thread is joined. */
  function StopAlone(s: System, exitCode: Option<int>): seq<Step> {
    if s.inner.child.Some? then [StopCall(0, exitCode), Emit(0), StopFinish(0)] else [StopCall(0, exitCode)]
  }

  lemma StopAfterJoinIsFinal(budget: Ledger, steps: seq<Step>, exitCode: Option<int>)
    requires Runnable(Begin(budget), steps) && After(Begin(budget), steps).calls == map[]
    ensures var s := After(Begin(budget), steps);
            && Runnable(s, StopAlone(s, exitCode))
            && Final(After(s, StopAlone(s, exitCode)))
            && After(s, StopAlone(s, exitCode)).live == {}
  {
    Reachable(budget, steps);
    var s := After(Begin(budget), steps);
    var stop := StopAlone(s, exitCode);
    var a := Apply(s, stop[0]);
    if s.inner.child.Some? {
      assert stop[1..] == [Emit(0), StopFinish(0)] && stop[1..][1..] == [StopFinish(0)];
      var b := Apply(a, Emit(0));
      var c := Apply(b, StopFinish(0));
      assert Runnable(c, []) && Runnable(b, [StopFinish(0)]) && Runnable(a, stop[1..]);
      assert After(b, [StopFinish(0)]) == c && After(a, stop[1..]) == c && After(s, stop) == c;
      StepKeepsExclusive(s, stop[0]);
      StepKeepsExclusive(a, Emit(0));
      StepKeepsExclusive(b, StopFinish(0));
      StopIsFinalExactly(c);
    } else {
      assert stop[1..] == [];
      StepKeepsExclusive(s, stop[0]);
      StopIsFinalExactly(a);
    }
  }
}
