/**
 * Who may produce keys: the ownership protocol between the calls `install_broker_capture` and
 * `uninstall_broker_capture` and the broker worker (app-native/src/input.rs). One step is one atomic
 * access, one lock or join, or one move of a worker.
 */
module BrokerOwnership {
  import opened Prelude

  datatype Phase = Inactive | Starting | Active | Stopping

  datatype Place = Opening | Owned | Pumping | Releasing | Done

  /** `owner`: it set `ownership_started`. `armed`: its `ARM` may stand without an acknowledged `DISARM`. */
  datatype Worker = Worker(place: Place, owner: bool, armed: bool, saidReady: bool)
  {
    predicate CanSend() { place == Pumping || place == Releasing }
    predicate Gone() { place == Done && !armed }
  }

  /** Where a call stands; an install holds the state lock from `Marking` on. */
  datatype Call =
    | Installing
    | Locking
    | Marking
    | Flagging
    | Spawning
    | Waiting(w: nat)
    | Granted
    | Joining(w: nat)
    | Uninstalling
    | Taking(previous: Phase)
    | Collecting(previous: Phase, taken: Option<nat>)

  /** The statics, the calls in flight, and every worker ever spawned. */
  datatype Protocol = Protocol(
    phase: Phase, acknowledged: bool, state: Option<nat>, locked: bool, calls: map<nat, Call>, workers: seq<Worker>)

  datatype Step =
    | BeginInstall(t: nat)
    | BeginUninstall(t: nat)
    | Advance(t: nat)
    | SpawnFails(t: nat)
    | GiveUp(t: nat)
    | TakeOwnership(w: nat)
    | Arm(w: nat, ok: bool)
    | SayReady(w: nat)
    | Disarm(w: nat, ok: bool)
    | Finish(w: nat)

  const IDLE := Protocol(Inactive, false, None, false, map[], [])

  /** `limit` bounds the calls in flight at one time; the application makes them on one thread. */
  predicate Enabled(s: Protocol, step: Step, limit: nat) {
    match step
    case BeginInstall(t) => t !in s.calls && |s.calls| < limit
    case BeginUninstall(t) => t !in s.calls && |s.calls| < limit
    case SpawnFails(t) => t in s.calls && s.calls[t].Spawning?
    case GiveUp(t) => t in s.calls && s.calls[t].Waiting? && s.calls[t].w < |s.workers|
    case TakeOwnership(w) => w < |s.workers| && s.workers[w].place == Opening
    case Arm(w, _) => w < |s.workers| && s.workers[w].place == Owned
    case SayReady(w) => w < |s.workers| && s.workers[w].place == Pumping
    case Disarm(w, _) => w < |s.workers| && s.workers[w].place == Pumping
    case Finish(w) => w < |s.workers| && (s.workers[w].place == Opening || s.workers[w].place == Releasing)
    case Advance(t) =>
      t in s.calls
      && match s.calls[t]
         case Locking => !s.locked
         case Waiting(w) => w < |s.workers| && s.workers[w].saidReady
         case Joining(w) => w < |s.workers| && s.workers[w].place == Done
         case Taking(_) => !s.locked
         case Collecting(_, taken) => taken.Some? ==> taken.value < |s.workers| && s.workers[taken.value].place == Done
         case _ => true
  }

  function Return(s: Protocol, t: nat): Protocol {
    s.(calls := s.calls - {t})
  }

  /** The next access of a call. */
  function Advanced(s: Protocol, t: nat): Protocol
    requires t in s.calls && Enabled(s, Advance(t), 0)
  {
    match s.calls[t]
    case Installing =>
      if s.phase == Stopping && !s.acknowledged then Return(s, t) else s.(calls := s.calls[t := Locking])
    case Locking => if s.state.Some? then Return(s, t) else s.(locked := true, calls := s.calls[t := Marking])
    case Marking => s.(phase := Starting, calls := s.calls[t := Flagging])
    case Flagging => s.(acknowledged := false, calls := s.calls[t := Spawning])
    case Spawning => s.(workers := s.workers + [Worker(Opening, false, false, false)],
                        calls := s.calls[t := Waiting(|s.workers|)])
    case Waiting(w) => s.(state := Some(w), calls := s.calls[t := Granted])
    case Granted => Return(s.(phase := Active, locked := false), t)
    case Joining(w) =>
      if !s.workers[w].owner || s.acknowledged then Return(s.(phase := Inactive, locked := false), t)
      else Return(s.(locked := false), t)
    case Uninstalling => s.(phase := Stopping, calls := s.calls[t := Taking(s.phase)])
    case Taking(previous) => s.(state := None, calls := s.calls[t := Collecting(previous, s.state)])
    case Collecting(previous, taken) =>
      if s.acknowledged || (taken.None? && previous != Stopping) then Return(s.(phase := Inactive), t) else Return(s, t)
  }

  function Apply(s: Protocol, step: Step, limit: nat): Protocol
    requires Enabled(s, step, limit)
  {
    match step
    case BeginInstall(t) => s.(calls := s.calls[t := Installing])
    case BeginUninstall(t) => s.(calls := s.calls[t := Uninstalling])
    case Advance(t) => Advanced(s, t)
    case SpawnFails(t) => Return(s.(phase := Inactive, locked := false), t)
    case GiveUp(t) => s.(phase := Stopping, calls := s.calls[t := Joining(s.calls[t].w)])
    case TakeOwnership(w) => s.(workers := s.workers[w := s.workers[w].(place := Owned, owner := true, armed := true)])
    case Arm(w, ok) => s.(workers := s.workers[w := s.workers[w].(place := if ok then Pumping else Done)])
    case SayReady(w) => s.(workers := s.workers[w := s.workers[w].(saidReady := true)])
    case Disarm(w, ok) =>
      s.(acknowledged := s.acknowledged || ok,
         workers := s.workers[w := s.workers[w].(place := Releasing, armed := s.workers[w].armed && !ok)])
    case Finish(w) => s.(workers := s.workers[w := s.workers[w].(place := Done)])
  }

  ghost predicate Runnable(s: Protocol, steps: seq<Step>, limit: nat)
    decreases |steps|
  {
    steps != [] ==> Enabled(s, steps[0], limit) && Runnable(Apply(s, steps[0], limit), steps[1..], limit)
  }

  ghost function After(s: Protocol, steps: seq<Step>, limit: nat): Protocol
    requires Runnable(s, steps, limit)
    decreases |steps|
  {
    if steps == [] then s else After(Apply(s, steps[0], limit), steps[1..], limit)
  }

  /** With the broker inactive the window procedure and the hook produce keys: no worker may. */
  ghost predicate OneProducer(s: Protocol) {
    s.phase == Inactive ==> forall w :: 0 <= w < |s.workers| ==> s.workers[w].Gone() && !s.workers[w].CanSend()
  }

  // ---- One call at a time ------------------------------------------------------------------

  ghost predicate AllGone(ws: seq<Worker>) {
    forall w :: 0 <= w < |ws| ==> ws[w].Gone()
  }

  /** The flag tells whether the newest worker was disarmed; the older ones are gone. */
  ghost predicate Current(s: Protocol, w: nat) {
    && w == |s.workers| - 1 && AllGone(s.workers[..w])
    && var x := s.workers[w];
       && (x.place == Opening ==> !x.owner && !x.saidReady)
       && (x.place == Owned || x.place == Pumping || x.place == Releasing ==> x.owner)
       && (x.place == Owned || x.place == Pumping ==> x.armed)
       && (x.saidReady ==> x.owner)
       && (x.armed ==> x.owner)
       && (s.acknowledged <==> x.owner && !x.armed)
  }

  ghost predicate Clear(s: Protocol) {
    s.phase == Inactive && s.state.None? && AllGone(s.workers)
  }

  ghost predicate Live(s: Protocol) {
    s.phase == Active && s.state.Some? && Current(s, s.state.value) && s.workers[s.state.value].owner
  }

  /** An unacknowledged worker ended: the phase stays `Stopping` for good. */
  ghost predicate Latched(s: Protocol) {
    && s.phase == Stopping && !s.acknowledged && s.state.None?
    && forall w :: 0 <= w < |s.workers| ==> s.workers[w].place == Done
  }

  ghost predicate Settled(s: Protocol) {
    !s.locked && (Clear(s) || Live(s) || Latched(s))
  }

  /** What holds while a call stands at a given point. */
  ghost predicate During(s: Protocol, call: Call) {
    match call
    case Installing => Settled(s)
    case Uninstalling => Settled(s)
    case Locking => !s.locked && (Clear(s) || Live(s))
    case Marking => s.locked && Clear(s)
    case Flagging => s.locked && s.phase == Starting && s.state.None? && AllGone(s.workers)
    case Spawning => s.locked && s.phase == Starting && s.state.None? && AllGone(s.workers) && !s.acknowledged
    case Waiting(w) => s.locked && s.phase == Starting && s.state.None? && Current(s, w)
    case Granted => s.locked && s.phase == Starting && s.state.Some? && Current(s, s.state.value)
                      && s.workers[s.state.value].owner
    case Joining(w) => s.locked && s.phase == Stopping && s.state.None? && Current(s, w)
    case Taking(previous) =>
      !s.locked && s.phase == Stopping && previous != Starting
      && (Clear(s.(phase := previous)) || Live(s.(phase := previous)) || Latched(s.(phase := previous)))
    case Collecting(previous, taken) =>
      !s.locked && s.phase == Stopping && s.state.None?
      && if taken.Some? then Current(s, taken.value) && s.workers[taken.value].owner
         else Clear(s.(phase := previous)) || Latched(s.(phase := previous))
  }

  ghost predicate Serial(s: Protocol) {
    || (s.calls == map[] && Settled(s))
    || (exists t :: t in s.calls && s.calls.Keys == {t} && During(s, s.calls[t]))
  }

  lemma SerialMeansOneProducer(s: Protocol)
    requires Serial(s)
    ensures OneProducer(s)
  {
  }

  predicate IsWorkerStep(step: Step) {
    step.TakeOwnership? || step.Arm? || step.SayReady? || step.Disarm? || step.Finish?
  }

  /** A worker that can move is the newest one, and its moves keep the flag telling the truth. */
  lemma WorkerKeepsCurrent(s: Protocol, step: Step, w: nat)
    requires Current(s, w) && IsWorkerStep(step) && Enabled(s, step, 1)
    ensures Current(Apply(s, step, 1), w) && (s.workers[w].owner ==> Apply(s, step, 1).workers[w].owner)
  {
    var r := Apply(s, step, 1);
    assert step.w == w by {
      assert step.w < w ==> s.workers[..w][step.w].Gone();
    }
    assert r.workers[..w] == s.workers[..w];
  }

  lemma WorkerKeepsSettled(s: Protocol, step: Step)
    requires Settled(s) && IsWorkerStep(step) && Enabled(s, step, 1)
    ensures Settled(Apply(s, step, 1)) && Live(s) && Live(Apply(s, step, 1))
  {
    assert s.workers[step.w].place != Done;
    WorkerKeepsCurrent(s, step, s.state.value);
  }

  lemma WorkerKeepsDuring(s: Protocol, step: Step, call: Call)
    requires During(s, call) && IsWorkerStep(step) && Enabled(s, step, 1)
    ensures During(Apply(s, step, 1), call)
  {
    assert s.workers[step.w].place != Done;
    match call {
      case Installing => WorkerKeepsSettled(s, step);
      case Uninstalling => WorkerKeepsSettled(s, step);
      case Locking => WorkerKeepsSettled(s, step);
      case Taking(previous) =>
        WorkerKeepsSettled(s.(phase := previous), step);
        assert Apply(s.(phase := previous), step, 1) == Apply(s, step, 1).(phase := previous);
      case Waiting(w) => WorkerKeepsCurrent(s, step, w);
      case Joining(w) => WorkerKeepsCurrent(s, step, w);
      case Granted => WorkerKeepsCurrent(s, step, s.state.value);
      case Collecting(_, taken) => WorkerKeepsCurrent(s, step, taken.value);
      case _ =>
    }
  }

  /** The call in flight moves on or gives up. */
  lemma CallMovesOn(s: Protocol, step: Step, t: nat)
    requires t in s.calls && s.calls.Keys == {t} && During(s, s.calls[t])
    requires !IsWorkerStep(step) && Enabled(s, step, 1) && step.t == t && t in Apply(s, step, 1).calls
    ensures During(Apply(s, step, 1), Apply(s, step, 1).calls[t])
  {
    var r := Apply(s, step, 1);
    if s.calls[t].Spawning? {
      assert r.workers[..|s.workers|] == s.workers;
      assert Current(r, |s.workers|);
    }
  }

  /** The call in flight returns. */
  lemma CallReturns(s: Protocol, step: Step, t: nat)
    requires t in s.calls && s.calls.Keys == {t} && During(s, s.calls[t])
    requires !IsWorkerStep(step) && Enabled(s, step, 1) && step.t == t && t !in Apply(s, step, 1).calls
    ensures Settled(Apply(s, step, 1))
  {
    if s.calls[t].Joining? {
      AllGoneOrLatched(s, s.calls[t].w);
    } else if s.calls[t].Collecting? && s.calls[t].taken.Some? {
      AllGoneOrLatched(s, s.calls[t].taken.value);
    }
  }

  lemma CallKeepsSerial(s: Protocol, step: Step, t: nat)
    requires t in s.calls && s.calls.Keys == {t} && During(s, s.calls[t])
    requires !IsWorkerStep(step) && Enabled(s, step, 1)
    ensures Serial(Apply(s, step, 1))
  {
    var r := Apply(s, step, 1);
    assert |s.calls| == 1 by {
      assert |s.calls.Keys| == 1;
    }
    assert step.t == t;
    if t in r.calls {
      CallMovesOn(s, step, t);
      assert r.calls.Keys == {t};
    } else {
      CallReturns(s, step, t);
      assert r.calls == map[];
    }
  }

  lemma AllGoneOrLatched(s: Protocol, w: nat)
    requires Current(s, w) && s.workers[w].place == Done
    ensures s.acknowledged || !s.workers[w].owner ==> AllGone(s.workers)
    ensures forall i :: 0 <= i < |s.workers| ==> s.workers[i].place == Done
  {
    forall i | 0 <= i < |s.workers|
      ensures s.workers[i].place == Done && (i < w ==> s.workers[i].Gone())
    {
      assert i < w ==> s.workers[..w][i].Gone();
    }
  }

  lemma StepKeepsSerial(s: Protocol, step: Step)
    requires Serial(s) && Enabled(s, step, 1)
    ensures Serial(Apply(s, step, 1))
  {
    var r := Apply(s, step, 1);
    if s.calls == map[] {
      if IsWorkerStep(step) {
        WorkerKeepsDuring(s, step, Installing);
      } else {
        assert step.t in r.calls && r.calls.Keys == {step.t} && During(r, r.calls[step.t]);
      }
    } else {
      var t :| t in s.calls && s.calls.Keys == {t} && During(s, s.calls[t]);
      if IsWorkerStep(step) {
        WorkerKeepsDuring(s, step, s.calls[t]);
        assert t in r.calls && r.calls.Keys == {t} && During(r, r.calls[t]);
      } else {
        CallKeepsSerial(s, step, t);
      }
    }
  }

  lemma {:induction false} RunKeepsSerial(s: Protocol, steps: seq<Step>)
    requires Serial(s) && Runnable(s, steps, 1)
    ensures Serial(After(s, steps, 1))
    decreases |steps|
  {
    if steps != [] {
      StepKeepsSerial(s, steps[0]);
      RunKeepsSerial(Apply(s, steps[0], 1), steps[1..]);
    }
  }

  lemma {:induction false} FewerCallsRunToo(s: Protocol, steps: seq<Step>, limit: nat)
    requires limit <= 1 && Runnable(s, steps, limit)
    ensures Runnable(s, steps, 1) && After(s, steps, 1) == After(s, steps, limit)
    decreases |steps|
  {
    if steps != [] {
      FewerCallsRunToo(Apply(s, steps[0], limit), steps[1..], limit);
    }
  }

  ghost predicate Reaches(limit: nat, s: Protocol) {
    exists steps :: Runnable(IDLE, steps, limit) && After(IDLE, steps, limit) == s
  }

  lemma {:induction false} RunOneMore(s: Protocol, steps: seq<Step>, step: Step, limit: nat)
    requires Runnable(s, steps, limit) && Enabled(After(s, steps, limit), step, limit)
    ensures Runnable(s, steps + [step], limit)
    ensures After(s, steps + [step], limit) == Apply(After(s, steps, limit), step, limit)
    decreases |steps|
  {
    if steps == [] {
      assert [] + [step] == [step] && [step][1..] == [];
    } else {
      assert (steps + [step])[1..] == steps[1..] + [step];
      RunOneMore(Apply(s, steps[0], limit), steps[1..], step, limit);
    }
  }

  lemma ReachesNext(limit: nat, s: Protocol, step: Step, next: Protocol)
    requires Reaches(limit, s) && Enabled(s, step, limit) && Apply(s, step, limit) == next
    ensures Reaches(limit, next)
  {
    var steps :| Runnable(IDLE, steps, limit) && After(IDLE, steps, limit) == s;
    RunOneMore(IDLE, steps, step, limit);
  }

  const NEWBORN := Worker(Opening, false, false, false)

  /** The state while call 0 is the only one. */
  function Alone(phase: Phase, locked: bool, call: Call, workers: seq<Worker>): Protocol {
    Protocol(phase, false, None, locked, map[0 := call], workers)
  }

  lemma InstallGoesOn(limit: nat, s: Protocol, next: Protocol)
    requires Reaches(limit, s) && 0 in s.calls && Enabled(s, Advance(0), limit)
    requires next == Apply(s, Advance(0), limit).(calls := next.calls)
    requires Apply(s, Advance(0), limit).calls == next.calls
    ensures Reaches(limit, next)
  {
    ReachesNext(limit, s, Advance(0), next);
  }

  /** An install reaches the point where it waits for its worker. */
  lemma InstallWaits(limit: nat)
    requires limit >= 2
    ensures Reaches(limit, Alone(Starting, true, Waiting(0), [NEWBORN]))
  {
    assert Runnable(IDLE, [], limit) && After(IDLE, [], limit) == IDLE;
    ReachesNext(limit, IDLE, BeginInstall(0), Alone(Inactive, false, Installing, []));
    InstallGoesOn(limit, Alone(Inactive, false, Installing, []), Alone(Inactive, false, Locking, []));
    InstallGoesOn(limit, Alone(Inactive, false, Locking, []), Alone(Inactive, true, Marking, []));
    InstallGoesOn(limit, Alone(Inactive, true, Marking, []), Alone(Starting, true, Flagging, []));
    InstallGoesOn(limit, Alone(Starting, true, Flagging, []), Alone(Starting, true, Spawning, []));
    InstallGoesOn(limit, Alone(Starting, true, Spawning, []), Alone(Starting, true, Waiting(0), [NEWBORN]));
  }

  /** The state while an uninstall on another thread has read `Starting`. */
  function Overlapped(call: Call, worker: Worker): Protocol {
    Protocol(Stopping, false, None, true, map[0 := call, 1 := Taking(Starting)], [worker])
  }

  /** Meanwhile an uninstall on another thread swaps the phase, and the worker's `ARM` fails half-way. */
  lemma UninstallOverlaps(limit: nat)
    requires limit >= 2
    ensures Reaches(limit, Overlapped(Joining(0), NEWBORN.(place := Done, owner := true, armed := true)))
  {
    InstallWaits(limit);
    var s := Alone(Starting, true, Waiting(0), [NEWBORN]);
    assert s.calls.Keys == {0};
    assert |s.calls| == |s.calls.Keys|;
    var t := s.(calls := s.calls[1 := Uninstalling]);
    ReachesNext(limit, s, BeginUninstall(1), t);
    ReachesNext(limit, t, Advance(1), Overlapped(Waiting(0), NEWBORN));
    var owned := NEWBORN.(place := Owned, owner := true, armed := true);
    ReachesNext(limit, Overlapped(Waiting(0), NEWBORN), TakeOwnership(0), Overlapped(Waiting(0), owned));
    ReachesNext(limit, Overlapped(Waiting(0), owned), Arm(0, false), Overlapped(Waiting(0), owned.(place := Done)));
    ReachesNext(limit, Overlapped(Waiting(0), owned.(place := Done)), GiveUp(0),
                Overlapped(Joining(0), owned.(place := Done)));
  }

  /**
   * The install gives up and leaves the phase latched; the uninstall, having read `Starting` and found
   * no worker, then declares the broker inactive although `ARM` was never answered.
   */
  lemma OverlapLosesTheDriver(limit: nat)
    requires limit >= 2
    ensures exists s :: Reaches(limit, s) && !OneProducer(s)
  {
    UninstallOverlaps(limit);
    var dead := NEWBORN.(place := Done, owner := true, armed := true);
    var s := Overlapped(Joining(0), dead);
    var left := Protocol(Stopping, false, None, false, map[1 := Taking(Starting)], [dead]);
    assert Apply(s, Advance(0), limit).calls == left.calls;
    ReachesNext(limit, s, Advance(0), left);
    var found := left.(calls := map[1 := Collecting(Starting, None)]);
    assert Apply(left, Advance(1), limit).calls == found.calls;
    ReachesNext(limit, left, Advance(1), found);
    var end := found.(phase := Inactive, calls := map[]);
    assert Apply(found, Advance(1), limit).calls == end.calls;
    ReachesNext(limit, found, Advance(1), end);
    assert end.workers[0].armed;
  }

  /**
   * There is never a second keyboard producer, over every run of installs, uninstalls and workers, if
   * and only if the installs and uninstalls are made one at a time.
   */
  lemma OneProducerExactlyWhenSerial(limit: nat)
    ensures (forall s :: Reaches(limit, s) ==> OneProducer(s)) <==> limit <= 1
  {
    if limit <= 1 {
      forall s | Reaches(limit, s)
        ensures OneProducer(s)
      {
        var steps :| Runnable(IDLE, steps, limit) && After(IDLE, steps, limit) == s;
        FewerCallsRunToo(IDLE, steps, limit);
        RunKeepsSerial(IDLE, steps);
        SerialMeansOneProducer(s);
      }
    } else {
      OverlapLosesTheDriver(limit);
    }
  }

  // ---- What the calls achieve --------------------------------------------------------------

  /** The steps lead from one state to the other, with one call at a time. */
  ghost predicate Leads(s: Protocol, steps: seq<Step>, r: Protocol) {
    Runnable(s, steps, 1) && After(s, steps, 1) == r
  }

  lemma OneMore(s: Protocol, steps: seq<Step>, m: Protocol, step: Step, r: Protocol) returns (more: seq<Step>)
    requires Leads(s, steps, m) && Enabled(m, step, 1) && Apply(m, step, 1) == r
    ensures more == steps + [step] && Leads(s, more, r)
  {
    more := steps + [step];
    RunOneMore(s, steps, step, 1);
  }

  lemma NoSteps(s: Protocol) returns (steps: seq<Step>)
    ensures steps == [] && Leads(s, steps, s)
  {
    steps := [];
  }

  /** An install that finds the broker inactive takes the lock. */
  lemma InstallLocks(s: Protocol, t: nat) returns (steps: seq<Step>)
    requires Settled(s) && Clear(s) && s.calls == map[]
    ensures steps == [BeginInstall(t)] + seq(2, _ => Advance(t))
    ensures Leads(s, steps, s.(calls := map[t := Marking], locked := true))
  {
    var a := s.(calls := map[t := Installing]);
    var b := s.(calls := map[t := Locking]);
    steps := NoSteps(s);
    steps := OneMore(s, steps, s, BeginInstall(t), a);
    steps := OneMore(s, steps, a, Advance(t), b);
    steps := OneMore(s, steps, b, Advance(t), b.(calls := map[t := Marking], locked := true));
  }

  /** It then comes to wait for a worker of its own. */
  lemma InstallSpawns(s: Protocol, t: nat) returns (steps: seq<Step>)
    requires Settled(s) && Clear(s) && s.calls == map[]
    ensures steps == [BeginInstall(t)] + seq(5, _ => Advance(t))
    ensures var waiting := map[t := Waiting(|s.workers|)];
            Leads(s, steps, Protocol(Starting, false, None, true, waiting, s.workers + [NEWBORN]))
  {
    var c := s.(calls := map[t := Marking], locked := true);
    var d := c.(calls := map[t := Flagging], phase := Starting);
    var e := d.(calls := map[t := Spawning], acknowledged := false);
    var f := e.(calls := map[t := Waiting(|s.workers|)], workers := s.workers + [NEWBORN]);
    steps := InstallLocks(s, t);
    steps := OneMore(s, steps, c, Advance(t), d);
    steps := OneMore(s, steps, d, Advance(t), e);
    steps := OneMore(s, steps, e, Advance(t), f);
  }

  const PUMPING := Worker(Pumping, true, true, true)

  /** With its worker through the handshake, it leaves the broker active. */
  lemma InstallArms(s: Protocol, t: nat) returns (steps: seq<Step>)
    requires Settled(s) && Clear(s) && s.calls == map[]
    ensures var w := |s.workers|;
            && steps == [BeginInstall(t)] + seq(5, _ => Advance(t))
                        + [TakeOwnership(w), Arm(w, true), SayReady(w), Advance(t), Advance(t)]
            && Leads(s, steps, Protocol(Active, false, Some(w), false, map[], s.workers + [PUMPING]))
  {
    var w := |s.workers|;
    var waiting := map[t := Waiting(w)];
    var a := Protocol(Starting, false, None, true, waiting, s.workers + [NEWBORN]);
    var b := a.(workers := s.workers + [Worker(Owned, true, true, false)]);
    var c := a.(workers := s.workers + [Worker(Pumping, true, true, false)]);
    var d := a.(workers := s.workers + [PUMPING]);
    var e := d.(state := Some(w), calls := map[t := Granted]);
    var f := e.(phase := Active, locked := false, calls := map[]);
    steps := InstallSpawns(s, t);
    steps := OneMore(s, steps, a, TakeOwnership(w), b);
    steps := OneMore(s, steps, b, Arm(w, true), c);
    steps := OneMore(s, steps, c, SayReady(w), d);
    steps := OneMore(s, steps, d, Advance(t), e);
    assert e.calls - {t} == map[];
    steps := OneMore(s, steps, e, Advance(t), f);
  }

  /** If its worker never reaches the driver, it gives up and leaves the broker inactive. */
  lemma InstallGivesUp(s: Protocol, t: nat) returns (steps: seq<Step>)
    requires Settled(s) && Clear(s) && s.calls == map[]
    ensures steps == [BeginInstall(t)] + seq(5, _ => Advance(t)) + [Finish(|s.workers|), GiveUp(t), Advance(t)]
    ensures var gone := Worker(Done, false, false, false);
            Leads(s, steps, Protocol(Inactive, false, None, false, map[], s.workers + [gone]))
  {
    var w := |s.workers|;
    var a := Protocol(Starting, false, None, true, map[t := Waiting(w)], s.workers + [NEWBORN]);
    var b := a.(workers := s.workers + [Worker(Done, false, false, false)]);
    var c := b.(phase := Stopping, calls := map[t := Joining(w)]);
    var d := c.(phase := Inactive, locked := false, calls := map[]);
    steps := InstallSpawns(s, t);
    steps := OneMore(s, steps, a, Finish(w), b);
    steps := OneMore(s, steps, b, GiveUp(t), c);
    assert c.calls - {t} == map[];
    steps := OneMore(s, steps, c, Advance(t), d);
  }

  /** An uninstall gives the keys back if the `DISARM` is acknowledged, and leaves the broker stopping otherwise. */
  lemma UninstallReturns(s: Protocol, t: nat, ok: bool) returns (steps: seq<Step>)
    requires Settled(s) && Live(s) && s.calls == map[] && s.workers[s.state.value] == PUMPING
    ensures var w := s.state.value;
            && steps == [BeginUninstall(t), Advance(t), Advance(t), Disarm(w, ok), Finish(w), Advance(t)]
            && Leads(s, steps, Protocol(if ok then Inactive else Stopping, ok, None, false, map[],
                                        s.workers[w := Worker(Done, true, !ok, true)]))
  {
    var w := s.state.value;
    var a := s.(calls := map[t := Uninstalling]);
    var b := s.(phase := Stopping, calls := map[t := Taking(Active)]);
    var c := b.(state := None, calls := map[t := Collecting(Active, Some(w))]);
    var d := c.(acknowledged := ok, workers := s.workers[w := Worker(Releasing, true, !ok, true)]);
    var e := d.(workers := s.workers[w := Worker(Done, true, !ok, true)]);
    var f := e.(phase := if ok then Inactive else Stopping, calls := map[]);
    steps := NoSteps(s);
    steps := OneMore(s, steps, s, BeginUninstall(t), a);
    steps := OneMore(s, steps, a, Advance(t), b);
    steps := OneMore(s, steps, b, Advance(t), c);
    steps := OneMore(s, steps, c, Disarm(w, ok), d);
    steps := OneMore(s, steps, d, Finish(w), e);
    assert e.calls - {t} == map[];
    steps := OneMore(s, steps, e, Advance(t), f);
  }

  /** Once an unacknowledged worker has ended no install changes anything: the broker stays stopping. */
  lemma InstallWhileLatched(s: Protocol, t: nat) returns (steps: seq<Step>)
    requires Settled(s) && Latched(s) && s.calls == map[]
    ensures steps == [BeginInstall(t), Advance(t)] && Leads(s, steps, s)
  {
    var a := s.(calls := map[t := Installing]);
    assert a.calls - {t} == map[];
    steps := NoSteps(s);
    steps := OneMore(s, steps, s, BeginInstall(t), a);
    steps := OneMore(s, steps, a, Advance(t), s);
  }

  /** Nor does an uninstall. */
  lemma UninstallWhileLatched(s: Protocol, t: nat) returns (steps: seq<Step>)
    requires Settled(s) && Latched(s) && s.calls == map[]
    ensures steps == [BeginUninstall(t), Advance(t), Advance(t), Advance(t)] && Leads(s, steps, s)
  {
    var a := s.(calls := map[t := Uninstalling]);
    var b := s.(calls := map[t := Taking(Stopping)]);
    var c := s.(calls := map[t := Collecting(Stopping, None)]);
    steps := NoSteps(s);
    steps := OneMore(s, steps, s, BeginUninstall(t), a);
    steps := OneMore(s, steps, a, Advance(t), b);
    steps := OneMore(s, steps, b, Advance(t), c);
    assert c.calls - {t} == map[];
    steps := OneMore(s, steps, c, Advance(t), s);
  }

  /** An install while the broker is active changes nothing. */
  lemma InstallWhileLive(s: Protocol, t: nat) returns (steps: seq<Step>)
    requires Settled(s) && Live(s) && s.calls == map[]
    ensures steps == [BeginInstall(t), Advance(t), Advance(t)] && Leads(s, steps, s)
  {
    var a := s.(calls := map[t := Installing]);
    var b := s.(calls := map[t := Locking]);
    steps := NoSteps(s);
    steps := OneMore(s, steps, s, BeginInstall(t), a);
    steps := OneMore(s, steps, a, Advance(t), b);
    assert b.calls - {t} == map[];
    steps := OneMore(s, steps, b, Advance(t), s);
  }

  /** An uninstall while it is inactive changes nothing either. */
  lemma UninstallWhileClear(s: Protocol, t: nat) returns (steps: seq<Step>)
    requires Settled(s) && Clear(s) && s.calls == map[]
    ensures steps == [BeginUninstall(t), Advance(t), Advance(t), Advance(t)] && Leads(s, steps, s)
  {
    var a := s.(calls := map[t := Uninstalling]);
    var b := s.(phase := Stopping, calls := map[t := Taking(Inactive)]);
    var c := b.(calls := map[t := Collecting(Inactive, None)]);
    steps := NoSteps(s);
    steps := OneMore(s, steps, s, BeginUninstall(t), a);
    steps := OneMore(s, steps, a, Advance(t), b);
    steps := OneMore(s, steps, b, Advance(t), c);
    assert c.calls - {t} == map[];
    steps := OneMore(s, steps, c, Advance(t), s);
  }
}
