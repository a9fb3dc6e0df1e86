/**
 * The Foundation supervisor of app-native/src/supervisor.rs.
 *
 * Every call is a series of lock sections. `FoundationSupervisor` holds the mutex-protected fields
 * and has one method per section; the functions before it say what a section does to the fields.
 * `SupervisorRuns` interleaves the sections of any number of calls.
 */
module Supervisor {
  import opened Prelude
  import opened RestartBudgets

  const STABILITY_WINDOW := 30_000 * MILLISECOND

  datatype SupervisorState = Stopped | Starting | Healthy | Degraded | Restarting | Failed

  /** One process instance; it stands for the pid the source reports. */
  type Instance = nat

  datatype Event =
    | SpawnedEvent(pid: Instance)
    | TerminalEvent(pid: Instance, exitCode: Option<int>)
    | RestartBudgetExhausted

  datatype Failure = SpawnFailure(text: string) | FoundationExited(pid: Instance, exitCode: Option<int>)

  datatype HealthSnapshot = HealthSnapshot(
    state: SupervisorState, foundationPid: Option<Instance>, restartsInWindow: nat, lastError: Option<Failure>)

  /** The fields behind the mutex. */
  datatype Inner = Inner(
    state: SupervisorState,
    child: Option<Instance>,
    budget: Ledger,
    lastError: Option<Failure>,
    embeddedServerAlive: bool,
    restartNotBefore: Option<int>,
    spawnedAt: Option<int>,
    stableRecorded: bool,
    spawning: bool)
  {
    function UpState(): SupervisorState {
      if embeddedServerAlive then Healthy else Degraded
    }
  }

  function Initial(budget: Ledger): Inner {
    Inner(Stopped, None, budget, None, true, None, None, false, false)
  }

  /** First section of `start`; the flag says whether to go on and spawn. */
  function Started(i: Inner): (Inner, bool) {
    if i.child.Some? || i.spawning then (i, false) else (i.(spawning := true, state := Starting), true)
  }

  /** `commit_spawn_result` of a spawned child. */
  function CommittedChild(i: Inner, pid: Instance, now: int): Inner {
    i.(spawning := false, child := Some(pid), lastError := None, spawnedAt := Some(now),
       stableRecorded := false, state := i.UpState())
  }

  /** A granted attempt schedules the restart; a refused one gives up. */
  function RestartOrFail(i: Inner, now: int): Inner {
    var (b, delay) := Recorded(i.budget, now);
    if delay.None? then i.(budget := b, state := Failed)
    else i.(budget := b, state := Restarting, restartNotBefore := Some(now + delay.value))
  }

  /** `commit_spawn_result` of a failed spawn. */
  function CommittedFailure(i: Inner, text: string, now: int): Inner {
    var j := i.(spawning := false, lastError := Some(SpawnFailure(text)));
    if j.state == Restarting then RestartOrFail(j, now) else j.(state := Failed)
  }

  function NotedEmbeddedServer(i: Inner, alive: bool): Inner {
    var j := i.(embeddedServerAlive := alive);
    if j.child.Some? && (j.state == Healthy || j.state == Degraded) then j.(state := j.UpState()) else j
  }

  /** What `poll_at` does after its first section: return, report a dead child, or spawn. */
  datatype PollNext = Return | ReportDeath(pid: Instance) | Respawn

  function Polled(i: Inner, now: int, running: bool, exitCode: Option<int>): (Inner, PollNext) {
    if i.child.Some? then
      if running then
        var stable := !i.stableRecorded && i.spawnedAt.Some?
                      && DurationSince(now, i.spawnedAt.value) >= STABILITY_WINDOW;
        var j := if stable then i.(budget := Stabilised(i.budget), stableRecorded := true) else i;
        (j.(state := j.UpState()), Return)
      else
        (i.(child := None, spawnedAt := None, lastError := Some(FoundationExited(i.child.value, exitCode))),
         ReportDeath(i.child.value))
    else if i.state != Restarting || i.spawning then (i, Return)
    else if i.restartNotBefore.Some? && now < i.restartNotBefore.value then (i, Return)
    else (i.(spawning := true), Respawn)
  }

  /** First section of `stop`, when a child is tracked. */
  function Reaped(i: Inner): Inner {
    i.(child := None, spawnedAt := None)
  }

  /** Last section of `stop`. */
  function MarkedStopped(i: Inner): Inner {
    i.(state := Stopped, restartNotBefore := None)
  }

  class FoundationSupervisor {
    var state: SupervisorState
    var child: Option<Instance>
    const budget: RestartBudget
    var lastError: Option<Failure>
    var embeddedServerAlive: bool
    var restartNotBefore: Option<int>
    var spawnedAt: Option<int>
    var stableRecorded: bool
    var spawning: bool

    ghost predicate Valid()
      reads this, budget
    {
      budget.Value().Valid()
    }

    function Fields(): Inner
      reads this, budget
    {
      Inner(state, child, budget.Value(), lastError, embeddedServerAlive, restartNotBefore, spawnedAt,
            stableRecorded, spawning)
    }

    constructor (budget: RestartBudget)
      requires budget.Value().Valid()
      ensures Valid() && this.budget == budget && Fields() == Initial(old(budget.Value()))
    {
      this.budget := budget;
      state, child, lastError, embeddedServerAlive := Stopped, None, None, true;
      restartNotBefore, spawnedAt, stableRecorded, spawning := None, None, false, false;
    }

    method StartSection() returns (spawn: bool)
      requires Valid()
      modifies this
      ensures Valid() && (Fields(), spawn) == Started(old(Fields()))
    {
      if child.Some? || spawning {
        return false;
      }
      spawning := true;
      state := Starting;
      spawn := true;
    }

    method CommitSection(result: Option<Instance>, text: string, now: int) returns (emits: Option<Event>)
      requires Valid()
      modifies this, budget
      ensures Valid()
      ensures Fields() == match result
                          case Some(pid) => CommittedChild(old(Fields()), pid, now)
                          case None => CommittedFailure(old(Fields()), text, now)
      ensures emits == match result
                       case Some(pid) => Some(SpawnedEvent(pid))
                       case None => if old(state) == Restarting && state == Failed
                                    then Some(RestartBudgetExhausted) else None
    {
      spawning := false;
      emits := None;
      match result {
        case Some(pid) =>
          child := result;
          lastError := None;
          spawnedAt := Some(now);
          stableRecorded := false;
          state := if embeddedServerAlive then Healthy else Degraded;
          emits := Some(SpawnedEvent(pid));
        case None =>
          lastError := Some(SpawnFailure(text));
          if state == Restarting {
            emits := Schedule(now);
          } else {
            state := Failed;
          }
      }
    }

    /** The shared tail of `poll_at` and of a failed respawn. */
    method Schedule(now: int) returns (emits: Option<Event>)
      requires Valid()
      modifies this, budget
      ensures Valid() && Fields() == RestartOrFail(old(Fields()), now)
      ensures emits == if state == Failed then Some(RestartBudgetExhausted) else None
    {
      var delay := budget.RecordAndCheck(now);
      match delay {
        case Some(backoff) =>
          state := Restarting;
          restartNotBefore := Some(now + backoff);
          emits := None;
        case None =>
          state := Failed;
          emits := Some(RestartBudgetExhausted);
      }
    }

    method NoteEmbeddedServerAlive(alive: bool)
      requires Valid()
      modifies this
      ensures Valid() && Fields() == NotedEmbeddedServer(old(Fields()), alive)
    {
      embeddedServerAlive := alive;
      if child.Some? && (state == Healthy || state == Degraded) {
        state := if embeddedServerAlive then Healthy else Degraded;
      }
    }

    method PollSection(now: int, running: bool, exitCode: Option<int>) returns (next: PollNext)
      requires Valid()
      modifies this, budget
      ensures Valid() && (Fields(), next) == Polled(old(Fields()), now, running, exitCode)
    {
      if child.Some? {
        if running {
          if !stableRecorded && spawnedAt.Some? && DurationSince(now, spawnedAt.value) >= STABILITY_WINDOW {
            budget.NoteStable();
            stableRecorded := true;
          }
          state := if embeddedServerAlive then Healthy else Degraded;
          return Return;
        }
        var pid := child.value;
        child := None;
        spawnedAt := None;
        lastError := Some(FoundationExited(pid, exitCode));
        return ReportDeath(pid);
      }
      if state != Restarting || spawning {
        return Return;
      }
      if restartNotBefore.Some? && now < restartNotBefore.value {
        return Return;
      }
      spawning := true;
      next := Respawn;
    }

    method StopSection() returns (reaped: Option<Instance>)
      requires Valid()
      modifies this
      ensures Valid() && reaped == old(child)
      ensures Fields() == if reaped.Some? then Reaped(old(Fields())) else MarkedStopped(old(Fields()))
    {
      reaped := child;
      if child.Some? {
        child := None;
        spawnedAt := None;
        return;
      }
      MarkStopped();
    }

    method MarkStopped()
      requires Valid()
      modifies this
      ensures Valid() && Fields() == MarkedStopped(old(Fields()))
    {
      state := Stopped;
      restartNotBefore := None;
    }

    method Snapshot(now: int) returns (h: HealthSnapshot)
      requires Valid()
      modifies budget
      ensures Valid()
      ensures Fields() == old(Fields()).(budget := Counted(old(budget.Value()), now))
      ensures h == HealthSnapshot(state, child, |budget.attempts|, lastError)
    {
      var n := budget.CountInWindow(now);
      h := HealthSnapshot(state, child, n, lastError);
    }
  }
}
