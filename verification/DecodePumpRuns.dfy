/**
 * Whole runs of the frame pump (app-native/src/main.rs) against a receive thread that pushes at any
 * moment: between a pop and the decode, and between looking at the open recovery and closing it.
 */
module DecodePumpRuns {
  import opened Prelude
  import opened FrameQueues
  import opened DecodePump

  /** Where the pump is; `next` is the frame it has already popped and goes on with. */
  datatype Phase =
    | Idle
    | Draining(newest: nat, poisoned: bool)
    | Feeding(unit: nat, next: Option<nat>)
    | Deciding(unit: nat, picture: nat, key: bool, next: Option<nat>)
    | Acking(unit: nat, picture: nat, key: bool, generation: nat, next: Option<nat>)

  /**
   * A unit handed to the decoder, whether the latch was armed then, the last reset popped before it,
   * and whether the stream had been broken since the unit before.
   */
  datatype Submission = Submission(unit: nat, armed: bool, after: Option<nat>, broken: bool)

  datatype Closing = Closing(generation: nat, epoch: nat, unit: nat, picture: nat, key: bool)

  /**
   * `popped` is one past the last event popped. `feeds` and `closings` are the history; `broken` says
   * that the last submission ended in an error, or that a stall or a lost device has come since.
   */
  datatype System = System(q: Queue, d: Decode, phase: Phase, popped: nat,
                           feeds: seq<Submission>, closings: seq<Closing>, broken: bool)

  function Start(decoder: bool): System {
    System(EMPTY, Fresh(decoder), Idle, 0, [], [], false)
  }

  datatype Action =
    | PushFrame(epoch: nat, key: bool)
    | PushDiscontinuity(epoch: nat)
    | CloseQueue
    | Stall
    | Pop
    | Demote(replaced: bool)
    | Feed(outcome: Outcome)
    | Check
    | Acknowledge

  /**
   * A stall and a lost device come after the first unit has been admitted: the watchdog's decode
   * clock starts with the first decoded picture (watchdog.rs:355, 377, session.rs:1042-1045), which
   * is reported after `admit_epoch` (main.rs:498, 571), and a device is found lost only while a
   * decoded picture is shown (present.rs:1396, 1434, 1472, 1488) or after a decode error.
   */
  ghost predicate Enabled(s: System, a: Action) {
    match a
    case Stall => s.phase.Idle? && s.d.epoch.Some?
    case Pop => s.phase.Idle? || s.phase.Draining?
    case Demote(_) => s.phase.Feeding? && s.d.epoch.Some?
    case Feed(outcome) => s.phase.Feeding? && (outcome.Picture? ==> outcome.picture in s.d.fed + {s.phase.unit})
    case Check => s.phase.Deciding?
    case Acknowledge => s.phase.Acking?
    case _ => true
  }

  /** On with the drain, or back to waiting. */
  function Resume(next: Option<nat>): Phase {
    if next.Some? then Draining(next.value, false) else Idle
  }

  /** The last reset that the pump has popped. */
  ghost function LastPopped(s: System): Option<nat>
    requires s.popped <= |s.q.log|
  {
    LastReset(s.q.log, s.popped)
  }

  ghost function Popped(s: System): System
    requires s.q.front <= |s.q.log| && (s.phase.Idle? || s.phase.Draining?)
  {
    var k := s.q.front;
    if k == |s.q.log| then
      s.(phase := if s.phase.Draining? && !s.phase.poisoned then Feeding(s.phase.newest, None) else Idle)
    else
      var t := s.(q := s.q.(front := k + 1), popped := k + 1);
      match s.q.log[k]
      case Reset(g, e) =>
        t.(d := Rearmed(s.d, g, e), phase := if s.phase.Draining? then Draining(s.phase.newest, true) else Idle)
      case Frame(_, _) =>
        t.(phase := if s.phase.Draining? && !s.phase.poisoned then Feeding(s.phase.newest, Some(k))
                    else Draining(k, false))
  }

  ghost function Submitted(s: System, outcome: Outcome): System
    requires s.phase.Feeding? && s.phase.unit < |s.q.log| && s.q.log[s.phase.unit].Frame? && s.popped <= |s.q.log|
  {
    var u, next := s.phase.unit, s.phase.next;
    var e := s.q.log[u];
    var t := s.(d := Fed(s.d, u, e.epoch, e.key, outcome), phase := Resume(next));
    if !Submits(s.d, e.epoch, e.key) then t
    else
      t.(feeds := s.feeds + [Submission(u, Admitting(s.d, e.epoch).waitForKey.Some?, LastPopped(s), s.broken)],
         broken := outcome.Error?,
         phase := if outcome.Picture? then Deciding(u, outcome.picture, outcome.key, next) else Resume(next))
  }

  /** `on_meta` up to its look at the open recovery. */
  function Checked(s: System): System
    requires s.phase.Deciding? && s.phase.unit < |s.q.log|
  {
    var p := s.phase;
    var epoch := s.q.log[p.unit].epoch;
    if !ClearsRecovery(s.d.waitForKey, epoch, p.key) then s.(phase := Resume(p.next))
    else if s.d.recoveryGeneration.Some? && s.q.recovery == Some(Open(s.d.recoveryGeneration.value, epoch)) then
      s.(phase := Acking(p.unit, p.picture, p.key, s.d.recoveryGeneration.value, p.next))
    else s.(d := Released(s.d), phase := Resume(p.next))
  }

  /** The acknowledgement, which a reset pushed in the meantime makes a no-op. */
  function Answered(s: System): System
    requires s.phase.Acking? && s.phase.unit < |s.q.log|
  {
    var p := s.phase;
    var open := Open(p.generation, s.q.log[p.unit].epoch);
    if s.q.recovery != Some(open) then s.(phase := Resume(p.next))
    else
      s.(q := Acknowledged(s.q, open), d := Released(s.d), phase := Resume(p.next),
         closings := s.closings + [Closing(open.generation, open.epoch, p.unit, p.picture, p.key)])
  }

  ghost function Apply(cap: nat, s: System, a: Action): System
    requires Placed(s) && Enabled(s, a)
  {
    match a
    case PushFrame(epoch, key) => s.(q := PushedFrame(s.q, cap, epoch, key))
    case PushDiscontinuity(epoch) => s.(q := PushedDiscontinuity(s.q, cap, epoch))
    case CloseQueue => s.(q := s.q.(closed := true))
    case Stall => s.(d := Stalled(s.d), broken := true)
    case Demote(replaced) => s.(d := Demoted(s.d, replaced), broken := true)
    case Pop => Popped(s)
    case Feed(outcome) => Submitted(s, outcome)
    case Check => Checked(s)
    case Acknowledge => Answered(s)
  }

  ghost predicate Reaches(cap: nat, s: System, actions: seq<Action>, t: System)
    decreases |actions|
  {
    if actions == [] then s == t
    else Placed(s) && Enabled(s, actions[0]) && Reaches(cap, Apply(cap, s, actions[0]), actions[1..], t)
  }

  // ---- Invariants --------------------------------------------------------------------------

  /** Frame `u` follows the last reset popped, and `next` is the only event popped after it. */
  ghost predicate InHand(log: seq<Event>, popped: nat, u: nat, next: Option<nat>)
    requires popped <= |log|
  {
    && u < popped && log[u].Frame?
    && (LastReset(log, popped).Some? ==> LastReset(log, popped).value < u)
    && if next.Some? then next.value == u + 1 && u + 2 == popped && log[u + 1].Frame? else u + 1 == popped
  }

  /** A held frame is poisoned exactly when a reset has been popped after it. */
  ghost predicate Holds(log: seq<Event>, popped: nat, phase: Phase)
    requires popped <= |log|
  {
    match phase
    case Idle => true
    case Draining(n, poisoned) =>
      if poisoned then n < popped && LastReset(log, popped).Some? && n < LastReset(log, popped).value
      else InHand(log, popped, n, None)
    case Feeding(u, next) => InHand(log, popped, u, next)
    case Deciding(u, _, _, next) => InHand(log, popped, u, next)
    case Acking(u, _, _, _, next) => InHand(log, popped, u, next)
  }

  /** Events are popped one after the other; where some were cleared, a reset is next. */
  ghost predicate Placed(s: System) {
    && Numbered(s.q)
    && s.popped <= s.q.front && (s.popped < s.q.front ==> s.q.front < |s.q.log| && s.q.log[s.q.front].Reset?)
    && Holds(s.q.log, s.popped, s.phase)
  }

  /** Unit `u` belongs to the current epoch and follows every reset popped so far. */
  ghost predicate Current(log: seq<Event>, popped: nat, epoch: Option<nat>, u: nat)
    requires popped <= |log|
  {
    && u < popped && log[u].Frame? && Some(log[u].epoch) == epoch
    && (LastReset(log, popped).Some? ==> LastReset(log, popped).value < u)
  }

  /** The latch follows the last reset popped, and the decoder holds nothing from before it. */
  ghost predicate Latched(log: seq<Event>, popped: nat, d: Decode)
    requires popped <= |log|
  {
    var r := LastReset(log, popped);
    && (r.Some? ==> d.epoch == Some(log[r.value].epoch))
    && (d.recoveryGeneration.Some? ==>
          d.waitForKey.Some? && r.Some? && log[r.value].generation == d.recoveryGeneration.value)
    && (d.waitForKey.Some? && d.epoch.Some? ==> d.waitForKey == d.epoch)
    && (forall u :: u in d.fed ==> Current(log, popped, d.epoch, u))
  }

  /** A picture under consideration is of a unit that the decoder still holds. */
  ghost predicate Considers(d: Decode, phase: Phase) {
    && (phase.Deciding? ==> phase.unit in d.fed && phase.picture in d.fed)
    && (phase.Acking? ==> phase.key && phase.unit in d.fed && phase.picture in d.fed
                          && d.recoveryGeneration == Some(phase.generation))
  }

  /** The latch is armed for the open recovery, or its reset is still to be popped. */
  ghost predicate Tracked(s: System)
    requires Placed(s)
  {
    s.q.recovery.Some? ==>
      || LastReset(s.q.log, |s.q.log|).value >= s.q.front
      || (s.d.recoveryGeneration == Some(s.q.recovery.value.generation)
          && s.d.waitForKey == Some(s.q.recovery.value.epoch))
  }

  /** The unit went to the decoder after this very reset had been popped and before any later one. */
  ghost predicate WasFed(feeds: seq<Submission>, u: nat, reset: Option<nat>) {
    exists i :: 0 <= i < |feeds| && feeds[i].unit == u && feeds[i].after == reset
  }

  /**
   * The unit and its picture follow the reset at `r`, which opened this recovery, are of its epoch,
   * and went to the decoder after its flush.
   */
  ghost predicate Follows(log: seq<Event>, feeds: seq<Submission>, c: Closing, r: int) {
    && 0 <= r < c.picture < |log| && r < c.unit < |log| && log[r] == Reset(c.generation, c.epoch)
    && log[c.unit].Frame? && log[c.unit].epoch == c.epoch && log[c.picture].Frame? && log[c.picture].epoch == c.epoch
    && WasFed(feeds, c.unit, Some(r)) && WasFed(feeds, c.picture, Some(r))
  }

  /** The recovery was closed by a decoded key of its epoch, from a unit that follows its reset. */
  ghost predicate RightlyClosed(log: seq<Event>, feeds: seq<Submission>, c: Closing) {
    c.key && exists r :: Follows(log, feeds, c, r)
  }

  ghost predicate Closed(s: System) {
    forall i :: 0 <= i < |s.closings| ==> RightlyClosed(s.q.log, s.feeds, s.closings[i])
  }

  /** Whatever the decoder holds went to it after the last reset popped. */
  ghost predicate Logged(s: System)
    requires s.popped <= |s.q.log|
  {
    forall u :: u in s.d.fed ==> WasFed(s.feeds, u, LastPopped(s))
  }

  lemma PushKeepsPlaced(s: System, p: Queue)
    requires Placed(s) && Numbered(p) && Grows(s.q, p)
    ensures Placed(s.(q := p)) && LastPopped(s.(q := p)) == LastPopped(s)
  {
    LastResetOfPrefix(s.q.log, p.log, s.popped);
  }

  lemma PushIsFine(cap: nat, s: System, a: Action)
    requires cap >= 1 && Placed(s) && (a.PushFrame? || a.PushDiscontinuity?)
    ensures var t := Apply(cap, s, a);
            Numbered(t.q) && Grows(s.q, t.q) && t == s.(q := t.q)
  {
    if a.PushFrame? {
      PushingFrameGrows(s.q, cap, a.epoch, a.key);
    } else {
      PushingDiscontinuityGrows(s.q, cap, a.epoch);
    }
  }

  lemma Resumes(log: seq<Event>, popped: nat, u: nat, next: Option<nat>)
    requires popped <= |log| && InHand(log, popped, u, next)
    ensures Holds(log, popped, Resume(next))
  {
  }

  lemma PopKeepsPlaced(s: System)
    requires Placed(s) && (s.phase.Idle? || s.phase.Draining?)
    ensures Placed(Popped(s))
  {
    var k := s.q.front;
    if k < |s.q.log| {
      assert LastReset(s.q.log, k + 1) == if s.q.log[k].Reset? then Some(k) else LastReset(s.q.log, k);
      assert s.q.log[k].Frame? ==> k == s.popped;
    }
  }

  /** Apart from popping, the pump does no more to the queue than close its recovery. */
  ghost predicate QueueKept(s: System, t: System) {
    && t.q.log == s.q.log && t.q.front == s.q.front && t.popped == s.popped && t.q.generation == s.q.generation
    && (t.q.recovery == s.q.recovery || t.q.recovery == None)
  }

  lemma PumpKeepsQueue(cap: nat, s: System, a: Action)
    requires Placed(s) && Enabled(s, a) && !a.PushFrame? && !a.PushDiscontinuity? && !a.Pop?
    ensures QueueKept(s, Apply(cap, s, a))
  {
  }

  lemma KeptMeansNumbered(s: System, t: System)
    requires Numbered(s.q) && QueueKept(s, t)
    ensures Numbered(t.q)
  {
  }

  lemma PumpKeepsHold(cap: nat, s: System, a: Action)
    requires Placed(s) && Enabled(s, a) && !a.PushFrame? && !a.PushDiscontinuity? && !a.Pop?
    ensures Holds(s.q.log, s.popped, Apply(cap, s, a).phase)
  {
    if a.Feed? || a.Check? || a.Acknowledge? {
      Resumes(s.q.log, s.popped, s.phase.unit, s.phase.next);
    }
  }

  lemma PumpKeepsPlaced(cap: nat, s: System, a: Action)
    requires Placed(s) && Enabled(s, a) && !a.PushFrame? && !a.PushDiscontinuity? && !a.Pop?
    ensures QueueKept(s, Apply(cap, s, a)) && Placed(Apply(cap, s, a))
  {
    PumpKeepsQueue(cap, s, a);
    KeptMeansNumbered(s, Apply(cap, s, a));
    PumpKeepsHold(cap, s, a);
  }

  lemma StepKeepsPlaced(cap: nat, s: System, a: Action)
    requires cap >= 1 && Placed(s) && Enabled(s, a)
    ensures Placed(Apply(cap, s, a))
  {
    if a.PushFrame? || a.PushDiscontinuity? {
      PushIsFine(cap, s, a);
      PushKeepsPlaced(s, Apply(cap, s, a).q);
    } else if a.Pop? {
      PopKeepsPlaced(s);
    } else {
      PumpKeepsPlaced(cap, s, a);
    }
  }

  ghost predicate Sound(s: System) {
    Placed(s) && Latched(s.q.log, s.popped, s.d) && Considers(s.d, s.phase) && Tracked(s)
  }

  lemma PushKeepsLatched(log: seq<Event>, more: seq<Event>, popped: nat, d: Decode)
    requires log <= more && popped <= |log| && Latched(log, popped, d)
    ensures Latched(more, popped, d)
  {
    LastResetOfPrefix(log, more, popped);
  }

  lemma PushKeepsTracked(s: System, p: Queue)
    requires Placed(s) && Tracked(s) && Numbered(p) && Grows(s.q, p) && Placed(s.(q := p))
    ensures Tracked(s.(q := p))
  {
    LastResetOfPrefix(s.q.log, p.log, |s.q.log|);
    assert p.recovery.Some? ==> LastReset(p.log, |p.log|).Some?;
  }

  lemma PopKeepsLatched(s: System)
    requires Placed(s) && (s.phase.Idle? || s.phase.Draining?) && Latched(s.q.log, s.popped, s.d)
    ensures var t := Popped(s); t.popped <= |t.q.log| && Latched(t.q.log, t.popped, t.d)
  {
    var k := s.q.front;
    if k < |s.q.log| && s.q.log[k].Frame? {
      assert k == s.popped && LastReset(s.q.log, k + 1) == LastReset(s.q.log, k);
    } else if k < |s.q.log| {
      assert LastReset(s.q.log, k + 1) == Some(k);
    }
  }

  lemma PopKeepsTracked(s: System)
    requires Sound(s) && (s.phase.Idle? || s.phase.Draining?) && Placed(Popped(s))
    ensures Tracked(Popped(s)) && Considers(Popped(s).d, Popped(s).phase)
  {
  }

  lemma FeedKeepsLatched(log: seq<Event>, popped: nat, d: Decode, u: nat, outcome: Outcome)
    requires popped <= |log| && Latched(log, popped, d)
    requires u < popped && log[u].Frame? && (LastReset(log, popped).Some? ==> LastReset(log, popped).value < u)
    ensures Latched(log, popped, Fed(d, u, log[u].epoch, log[u].key, outcome))
    ensures d.recoveryGeneration.Some? ==>
              var e := Fed(d, u, log[u].epoch, log[u].key, outcome);
              e.recoveryGeneration == d.recoveryGeneration && e.waitForKey == d.waitForKey
  {
  }

  lemma PumpKeepsSound(cap: nat, s: System, a: Action)
    requires Sound(s) && Enabled(s, a) && (a.Feed? || a.Stall? || a.Demote? || a.CloseQueue?)
    ensures Sound(Apply(cap, s, a))
  {
    PumpKeepsPlaced(cap, s, a);
    if a.Feed? {
      FeedKeepsLatched(s.q.log, s.popped, s.d, s.phase.unit, a.outcome);
    }
  }

  lemma ClosingKeepsSound(cap: nat, s: System, a: Action)
    requires Sound(s) && Enabled(s, a) && (a.Check? || a.Acknowledge?)
    ensures Sound(Apply(cap, s, a))
  {
    PumpKeepsPlaced(cap, s, a);
  }

  lemma StepKeepsSound(cap: nat, s: System, a: Action)
    requires cap >= 1 && Sound(s) && Enabled(s, a)
    ensures Sound(Apply(cap, s, a))
  {
    StepKeepsPlaced(cap, s, a);
    if a.PushFrame? || a.PushDiscontinuity? {
      PushIsFine(cap, s, a);
      var p := Apply(cap, s, a).q;
      PushKeepsLatched(s.q.log, p.log, s.popped, s.d);
      PushKeepsTracked(s, p);
    } else if a.Pop? {
      PopKeepsLatched(s);
      PopKeepsTracked(s);
    } else if a.Check? || a.Acknowledge? {
      ClosingKeepsSound(cap, s, a);
    } else {
      PumpKeepsSound(cap, s, a);
    }
  }

  // ---- The history -------------------------------------------------------------------------

  lemma PushKeepsClosed(s: System, p: Queue)
    requires Closed(s) && s.q.log <= p.log
    ensures Closed(s.(q := p))
  {
    forall i | 0 <= i < |s.closings|
      ensures RightlyClosed(p.log, s.feeds, s.closings[i])
    {
      var r :| Follows(s.q.log, s.feeds, s.closings[i], r);
      assert Follows(p.log, s.feeds, s.closings[i], r);
    }
  }

  lemma FedStays(feeds: seq<Submission>, more: seq<Submission>, u: nat, reset: Option<nat>)
    requires feeds <= more && WasFed(feeds, u, reset)
    ensures WasFed(more, u, reset)
  {
    var i :| 0 <= i < |feeds| && feeds[i].unit == u && feeds[i].after == reset;
    assert more[i].unit == u;
  }

  lemma FeedKeepsClosed(s: System, outcome: Outcome)
    requires Sound(s) && s.phase.Feeding? && Closed(s)
    ensures Closed(Submitted(s, outcome))
  {
    var t := Submitted(s, outcome);
    forall i | 0 <= i < |s.closings|
      ensures RightlyClosed(t.q.log, t.feeds, s.closings[i])
    {
      var c := s.closings[i];
      var r :| Follows(s.q.log, s.feeds, c, r);
      FedStays(s.feeds, t.feeds, c.unit, Some(r));
      FedStays(s.feeds, t.feeds, c.picture, Some(r));
      assert Follows(t.q.log, t.feeds, c, r);
    }
  }

  lemma FeedKeepsLogged(s: System, outcome: Outcome)
    requires Sound(s) && s.phase.Feeding? && Logged(s)
    ensures Submitted(s, outcome).popped == s.popped && Submitted(s, outcome).q == s.q && Logged(Submitted(s, outcome))
  {
    var t := Submitted(s, outcome);
    forall u | u in t.d.fed
      ensures WasFed(t.feeds, u, LastPopped(s))
    {
      if u in s.d.fed {
        FedStays(s.feeds, t.feeds, u, LastPopped(s));
      } else {
        assert u == s.phase.unit && Last(t.feeds).unit == u;
      }
    }
  }

  lemma PopKeepsLogged(s: System)
    requires Sound(s) && (s.phase.Idle? || s.phase.Draining?) && Logged(s) && Placed(Popped(s))
    ensures Logged(Popped(s))
  {
    var k := s.q.front;
    if k < |s.q.log| && s.q.log[k].Frame? {
      assert k == s.popped && LastReset(s.q.log, k + 1) == LastReset(s.q.log, k);
    }
  }

  lemma AnswerKeepsClosed(s: System)
    requires Sound(s) && s.phase.Acking? && Closed(s) && Logged(s)
    ensures Closed(Answered(s))
  {
    var t := Answered(s);
    if t.closings != s.closings {
      var r := LastReset(s.q.log, s.popped).value;
      assert Current(s.q.log, s.popped, s.d.epoch, s.phase.unit)
             && Current(s.q.log, s.popped, s.d.epoch, s.phase.picture);
      assert s.q.log[r] == Reset(s.phase.generation, s.q.log[s.phase.unit].epoch);
      assert Follows(t.q.log, t.feeds, Last(t.closings), r);
    }
  }

  /** Nothing before this position will be submitted any more. */
  function Cursor(s: System): nat {
    match s.phase
    case Idle => s.popped
    case Draining(n, _) => n
    case Feeding(u, _) => u
    case Deciding(u, _, _, _) => u + 1
    case Acking(u, _, _, _, _) => u + 1
  }

  /** Between the two positions there are only frames, and none of this epoch. */
  ghost predicate NoneBetween(log: seq<Event>, lo: nat, hi: nat, epoch: Option<nat>)
    requires hi <= |log|
  {
    forall k :: lo < k < hi ==> log[k].Frame? && Some(log[k].epoch) != epoch
  }

  /** Key units alone under the latch or on a broken stream, and no unit from before a reset that has been popped. */
  ghost predicate Proper(log: seq<Event>, f: Submission) {
    && f.unit < |log| && log[f.unit].Frame? && (f.armed || f.broken ==> log[f.unit].key)
    && (f.after.Some? ==> f.after.value < f.unit && log[f.after.value].Reset?
                          && log[f.after.value].epoch == log[f.unit].epoch)
  }

  /** A unit submitted without the latch continues the one before it: no reset, gap or unit of the epoch between. */
  ghost predicate Continues(log: seq<Event>, f: Submission, g: Submission) {
    f.unit < g.unit < |log| && log[g.unit].Frame?
    && (!g.armed ==> NoneBetween(log, f.unit, g.unit, Some(log[g.unit].epoch)))
  }

  ghost predicate Chained(s: System) {
    && (forall i :: 0 <= i < |s.feeds| ==> Proper(s.q.log, s.feeds[i]))
    && (forall i :: 0 < i < |s.feeds| ==> Continues(s.q.log, s.feeds[i - 1], s.feeds[i]))
  }

  /** Before the first submission the latch is armed. */
  ghost predicate Gated(s: System) {
    && (if s.feeds == [] then s.d.waitForKey.Some? else s.feeds[0].armed)
    && (s.d.epoch.None? ==> s.feeds == [] && s.d.recoveryGeneration.None?)
    && (s.phase.Deciding? || s.phase.Acking? ==> s.feeds != [] && Last(s.feeds).unit == s.phase.unit)
    && (s.phase.Draining? && s.phase.poisoned ==> s.d.waitForKey.Some?)
    && (s.broken ==> s.d.waitForKey.Some? && !s.phase.Deciding? && !s.phase.Acking?)
  }

  /** Without the latch, everything popped since the last submission is of another epoch. */
  ghost predicate Trailing(s: System)
    requires s.popped <= |s.q.log| && Cursor(s) <= s.popped
  {
    && (s.feeds != [] ==> Last(s.feeds).unit < Cursor(s))
    && (s.feeds != [] && s.d.present && s.d.waitForKey.None? ==>
          NoneBetween(s.q.log, Last(s.feeds).unit, Cursor(s), s.d.epoch))
  }

  ghost predicate InStep(s: System)
    requires Placed(s)
  {
    Gated(s) && Trailing(s)
  }

  ghost predicate Orderly(s: System) {
    Sound(s) && Closed(s) && Logged(s) && Chained(s) && InStep(s)
  }

  lemma PushKeepsChained(s: System, p: Queue)
    requires Placed(s) && Chained(s) && s.q.log <= p.log
    ensures Chained(s.(q := p))
  {
    forall i | 0 < i < |s.feeds|
      ensures Continues(p.log, s.feeds[i - 1], s.feeds[i])
    {
      assert Continues(s.q.log, s.feeds[i - 1], s.feeds[i]);
    }
  }

  lemma FeedKeepsChained(s: System, outcome: Outcome)
    requires Sound(s) && s.phase.Feeding? && Chained(s) && InStep(s)
    ensures Chained(Submitted(s, outcome))
  {
    var t := Submitted(s, outcome);
    if t.feeds != s.feeds {
      var f := Last(t.feeds);
      assert Proper(s.q.log, f);
      if s.feeds != [] {
        assert Continues(s.q.log, Last(s.feeds), f);
      }
    }
  }

  lemma FeedKeepsGated(s: System, outcome: Outcome)
    requires Sound(s) && s.phase.Feeding? && Gated(s)
    ensures Gated(Submitted(s, outcome))
  {
  }

  lemma FeedKeepsTrailing(s: System, outcome: Outcome)
    requires Sound(s) && s.phase.Feeding? && InStep(s) && Placed(Submitted(s, outcome))
    ensures Trailing(Submitted(s, outcome))
  {
    var t := Submitted(s, outcome);
    assert Cursor(t) == s.phase.unit + 1;
    if t.feeds == s.feeds && s.feeds != [] && t.d.present && t.d.waitForKey.None? {
      assert t.d == s.d;
    }
  }

  lemma PopKeepsInStep(s: System)
    requires Sound(s) && (s.phase.Idle? || s.phase.Draining?) && InStep(s) && Placed(Popped(s))
    ensures InStep(Popped(s))
  {
    var k := s.q.front;
    if k < |s.q.log| {
      assert s.q.log[k].Frame? ==> k == s.popped;
    }
  }

  lemma CheckKeepsInStep(s: System)
    requires Sound(s) && s.phase.Deciding? && InStep(s) && Placed(Checked(s))
    ensures InStep(Checked(s)) && Checked(s).q == s.q && Checked(s).feeds == s.feeds
            && Checked(s).closings == s.closings
  {
    assert Cursor(Checked(s)) == s.phase.unit + 1;
  }

  lemma AnswerKeepsInStep(s: System)
    requires Sound(s) && s.phase.Acking? && InStep(s) && Placed(Answered(s))
    ensures InStep(Answered(s)) && Answered(s).q.log == s.q.log && Answered(s).feeds == s.feeds
  {
    assert Cursor(Answered(s)) == s.phase.unit + 1;
  }

  lemma LosingKeepsInStep(cap: nat, s: System, a: Action)
    requires Sound(s) && Enabled(s, a) && (a.Stall? || a.Demote? || a.CloseQueue?)
             && InStep(s) && Placed(Apply(cap, s, a))
    ensures InStep(Apply(cap, s, a))
  {
  }

  lemma PopAddsNothing(s: System)
    requires Placed(s) && (s.phase.Idle? || s.phase.Draining?)
    ensures Popped(s).q.log == s.q.log && Popped(s).feeds == s.feeds && Popped(s).closings == s.closings
  {
  }

  lemma SameHistory(s: System, t: System)
    requires Closed(s) && Chained(s) && t.q.log == s.q.log && t.feeds == s.feeds && t.closings == s.closings
    ensures Closed(t) && Chained(t)
  {
  }

  lemma PopKeepsOrderly(cap: nat, s: System)
    requires cap >= 1 && Orderly(s) && Enabled(s, Pop)
    ensures Orderly(Apply(cap, s, Pop))
  {
    StepKeepsSound(cap, s, Pop);
    PopAddsNothing(s);
    SameHistory(s, Popped(s));
    PopKeepsInStep(s);
    PopKeepsLogged(s);
  }

  lemma LosingKeepsOrderly(cap: nat, s: System, a: Action)
    requires cap >= 1 && Orderly(s) && Enabled(s, a) && (a.Stall? || a.Demote? || a.CloseQueue?)
    ensures Orderly(Apply(cap, s, a))
  {
    StepKeepsSound(cap, s, a);
    LosingKeepsInStep(cap, s, a);
  }

  lemma PushKeepsOrderly(cap: nat, s: System, a: Action)
    requires cap >= 1 && Orderly(s) && (a.PushFrame? || a.PushDiscontinuity?)
    ensures Orderly(Apply(cap, s, a))
  {
    StepKeepsSound(cap, s, a);
    PushIsFine(cap, s, a);
    PushKeepsChained(s, Apply(cap, s, a).q);
    PushKeepsClosed(s, Apply(cap, s, a).q);
    LastResetOfPrefix(s.q.log, Apply(cap, s, a).q.log, s.popped);
  }

  lemma PumpKeepsOrderly(cap: nat, s: System, a: Action)
    requires cap >= 1 && Orderly(s) && Enabled(s, a) && (a.Check? || a.Acknowledge? || a.Feed?)
    ensures Orderly(Apply(cap, s, a))
  {
    StepKeepsSound(cap, s, a);
    if a.Feed? {
      FeedKeepsClosed(s, a.outcome);
      FeedKeepsLogged(s, a.outcome);
      FeedKeepsChained(s, a.outcome);
      FeedKeepsGated(s, a.outcome);
      FeedKeepsTrailing(s, a.outcome);
    } else if a.Check? {
      CheckKeepsInStep(s);
    } else {
      AnswerKeepsInStep(s);
      AnswerKeepsClosed(s);
    }
  }

  lemma StepKeepsOrderly(cap: nat, s: System, a: Action)
    requires cap >= 1 && Orderly(s) && Enabled(s, a)
    ensures Orderly(Apply(cap, s, a))
  {
    if a.PushFrame? || a.PushDiscontinuity? {
      PushKeepsOrderly(cap, s, a);
    } else if a.Check? || a.Acknowledge? || a.Feed? {
      PumpKeepsOrderly(cap, s, a);
    } else if a.Pop? {
      PopKeepsOrderly(cap, s);
    } else {
      LosingKeepsOrderly(cap, s, a);
    }
  }

  lemma {:induction false} RunKeepsOrderly(cap: nat, s: System, actions: seq<Action>, t: System)
    requires cap >= 1 && Orderly(s) && Reaches(cap, s, actions, t)
    ensures Orderly(t)
    decreases |actions|
  {
    if actions != [] {
      StepKeepsOrderly(cap, s, actions[0]);
      RunKeepsOrderly(cap, Apply(cap, s, actions[0]), actions[1..], t);
    }
  }

  ghost predicate Bounded(cap: nat, q: Queue) {
    q.front <= |q.log| && (|Events(q)| <= cap || |Events(q)| == 2)
  }

  lemma StepKeepsBounded(cap: nat, s: System, a: Action)
    requires cap >= 1 && Bounded(cap, s.q) && Placed(s) && Enabled(s, a)
    ensures Bounded(cap, Apply(cap, s, a).q)
  {
    if a.PushFrame? {
      QueueStaysBounded(s.q, cap, a.epoch, a.key);
    } else if a.PushDiscontinuity? {
      QueueStaysBounded(s.q, cap, a.epoch, false);
    } else if !a.Pop? {
      PumpKeepsQueue(cap, s, a);
    }
  }

  lemma {:induction false} RunKeepsBounded(cap: nat, s: System, actions: seq<Action>, t: System)
    requires cap >= 1 && Bounded(cap, s.q) && Reaches(cap, s, actions, t)
    ensures Bounded(cap, t.q)
    decreases |actions|
  {
    if actions != [] {
      StepKeepsBounded(cap, s, actions[0]);
      RunKeepsBounded(cap, Apply(cap, s, actions[0]), actions[1..], t);
    }
  }

  // ---- The queue over a run ----------------------------------------------------------------

  ghost function ResetCount(log: seq<Event>): nat {
    if log == [] then 0 else ResetCount(Front(log)) + if Last(log).Reset? then 1 else 0
  }

  lemma ResetCountAdds(log: seq<Event>, e: Event)
    ensures ResetCount(log + [e]) == ResetCount(log) + if e.Reset? then 1 else 0
  {
    assert Front(log + [e]) == log;
  }

  /** The resets are numbered from one on in the order they are pushed, and the queue knows how many there are. */
  ghost predicate CountedUp(q: Queue) {
    && q.generation == ResetCount(q.log)
    && forall i :: 0 <= i < |q.log| && q.log[i].Reset? ==> q.log[i].generation == ResetCount(q.log[..i + 1])
  }

  lemma AddingCountsUp(q: Queue, p: Queue, e: Event)
    requires CountedUp(q) && p.log == q.log + [e] && (e.Reset? ==> e.generation == q.generation + 1)
    requires p.generation == q.generation + if e.Reset? then 1 else 0
    ensures CountedUp(p)
  {
    ResetCountAdds(q.log, e);
    forall i | 0 <= i < |p.log| && p.log[i].Reset?
      ensures p.log[i].generation == ResetCount(p.log[..i + 1])
    {
      assert p.log[..i + 1] == if i < |q.log| then q.log[..i + 1] else p.log;
    }
  }

  lemma DiscontinuityCountsUp(q: Queue, cap: nat, epoch: nat)
    requires q.front <= |q.log| && CountedUp(q)
    ensures CountedUp(PushedDiscontinuity(q, cap, epoch))
  {
    if !q.closed {
      AddingCountsUp(q, PushedDiscontinuity(q, cap, epoch), Reset(q.generation + 1, epoch));
    }
  }

  lemma FrameCountsUp(q: Queue, cap: nat, epoch: nat, key: bool)
    requires q.front <= |q.log| && CountedUp(q)
    ensures CountedUp(PushedFrame(q, cap, epoch, key))
  {
    var m := if |Events(q)| >= cap then Opened(Cleared(q), epoch) else q;
    if |Events(q)| >= cap {
      AddingCountsUp(q, m, Reset(q.generation + 1, epoch));
    }
    if !q.closed {
      AddingCountsUp(m, PushedFrame(q, cap, epoch, key), Frame(epoch, key));
    }
  }

  lemma {:induction false} RunCountsUp(cap: nat, s: System, actions: seq<Action>, t: System)
    requires cap >= 1 && CountedUp(s.q) && Reaches(cap, s, actions, t)
    ensures CountedUp(t.q)
    decreases |actions|
  {
    if actions != [] {
      var a := actions[0];
      if a.PushFrame? {
        FrameCountsUp(s.q, cap, a.epoch, a.key);
      } else if a.PushDiscontinuity? {
        DiscontinuityCountsUp(s.q, cap, a.epoch);
      } else if !a.Pop? {
        PumpKeepsQueue(cap, s, a);
      }
      RunCountsUp(cap, Apply(cap, s, a), actions[1..], t);
    }
  }

  /** Once the queue is closed nothing more gets into it. */
  lemma {:induction false} ClosedStaysShut(cap: nat, s: System, actions: seq<Action>, t: System)
    requires s.q.closed && Reaches(cap, s, actions, t)
    ensures t.q.closed && t.q.log == s.q.log
    decreases |actions|
  {
    if actions != [] {
      ClosedStaysShut(cap, Apply(cap, s, actions[0]), actions[1..], t);
    }
  }

  /** A push to an open queue is the last event of it, after a reset if there was no room. */
  lemma PushIsQueued(cap: nat, s: System, a: Action)
    requires Placed(s) && (a.PushFrame? || a.PushDiscontinuity?) && !s.q.closed
    ensures var t := Apply(cap, s, a);
            var full := |s.q.log| - s.q.front >= cap;
            var last := if a.PushFrame? then Frame(a.epoch, a.key) else Reset(s.q.generation + 1, a.epoch);
            && t.q.overflowed == (s.q.overflowed || full)
            && t.q.front == (if full then |s.q.log| else s.q.front)
            && t.q.log == s.q.log + (if full && a.PushFrame? then [Reset(s.q.generation + 1, a.epoch)] else []) + [last]
  {
  }

  // ---- The pump's drain --------------------------------------------------------------------

  /** A drain as the pump goes through it: its steps, and the events it has seen with their positions. */
  datatype Record = Record(steps: seq<Step>, events: seq<Event>, at: seq<nat>)

  /** What an action of the pump reports: a frame is dropped when it is decoded, and poisoned instead. */
  function Reported(s: System, a: Action): seq<Step> {
    if a.Feed? && s.phase.Feeding? && s.phase.next.Some? then [Dropped(s.phase.unit)]
    else if !a.Pop? || !s.phase.Draining? then []
    else if s.q.front < |s.q.log| && s.q.log[s.q.front].Reset? then [Flushed(s.q.front)]
    else if s.phase.poisoned then [Poisoned(s.phase.newest)]
    else []
  }

  function Noted(r: Record, s: System, a: Action): Record {
    if a.Pop? && s.q.front < |s.q.log| then
      Record(r.steps + Reported(s, a), r.events + [s.q.log[s.q.front]], r.at + [s.q.front])
    else r.(steps := r.steps + Reported(s, a))
  }

  /** The drain goes on. */
  predicate InDrain(phase: Phase) {
    match phase
    case Idle => false
    case Draining(_, _) => true
    case Feeding(_, next) => next.Some?
    case Deciding(_, _, _, next) => next.Some?
    case Acking(_, _, _, _, next) => next.Some?
  }

  /** A run within one drain, with whatever the receive thread pushes meanwhile. */
  ghost predicate Drains(cap: nat, s: System, r: Record, actions: seq<Action>, t: System, done: Record)
    decreases |actions|
  {
    if actions == [] then s == t && r == done
    else
      && InDrain(s.phase) && Placed(s) && Enabled(s, actions[0])
      && Drains(cap, Apply(cap, s, actions[0]), Noted(r, s, actions[0]), actions[1..], t, done)
  }

  /** The pump is where the drain is; a superseded frame in hand is still to be reported. */
  ghost predicate Agrees(phase: Phase, steps: seq<Step>, d: Drain) {
    match phase
    case Idle => d.poisoned && steps == Finished(d)
    case Draining(n, poisoned) => n == d.newest && poisoned == d.poisoned && steps == d.steps
    case Feeding(u, None) => !d.poisoned && u == d.newest && steps == Finished(d)
    case Feeding(u, Some(k)) => !d.poisoned && k == d.newest && steps + [Dropped(u)] == d.steps
    case Deciding(_, _, _, next) => !d.poisoned && next == Some(d.newest) && steps == d.steps
    case Acking(_, _, _, _, next) => !d.poisoned && next == Some(d.newest) && steps == d.steps
  }

  ghost predicate Follow(phase: Phase, r: Record) {
    |r.events| == |r.at| > 0 && r.events[0].Frame? && Agrees(phase, r.steps, Script(r.events, r.at))
  }

  lemma PopFollows(s: System, r: Record)
    requires Placed(s) && s.phase.Draining? && Follow(s.phase, r)
    ensures Follow(Popped(s).phase, Noted(r, s, Pop))
  {
    var k := s.q.front;
    if k < |s.q.log| {
      ScriptTurns(r.events, r.at, s.q.log[k], k);
    }
  }

  lemma StepFollows(cap: nat, s: System, r: Record, a: Action)
    requires cap >= 1 && Placed(s) && InDrain(s.phase) && Enabled(s, a) && Follow(s.phase, r)
    ensures Follow(Apply(cap, s, a).phase, Noted(r, s, a))
  {
    if a.Pop? {
      PopFollows(s, r);
    }
  }

  lemma {:induction false} RunFollows(cap: nat, s: System, r: Record, actions: seq<Action>, t: System, done: Record)
    requires cap >= 1 && Follow(s.phase, r) && Drains(cap, s, r, actions, t, done)
    ensures Follow(t.phase, done)
    decreases |actions|
  {
    if actions != [] {
      StepFollows(cap, s, r, actions[0]);
      RunFollows(cap, Apply(cap, s, actions[0]), Noted(r, s, actions[0]), actions[1..], t, done);
    }
  }

  /**
   * The pump's drain is `drain_newest`, whatever is pushed while it goes on: once it is over, what
   * it has reported and the frame it returns are those of `DrainNewest` on the events it has popped.
   */
  lemma PumpDrains(cap: nat, s: System, actions: seq<Action>, t: System, done: Record)
    requires cap >= 1 && Placed(s) && s.phase.Draining? && !s.phase.poisoned
    requires Drains(cap, s, Record([], [s.q.log[s.phase.newest]], [s.phase.newest]), actions, t, done)
    ensures |done.events| == |done.at| > 0 && done.events[0].Frame?
    ensures Names(Script(done.events, Upto(|done.events|)), done.at, Script(done.events, done.at))
    ensures !InDrain(t.phase) ==> done.steps == Finished(Script(done.events, done.at))
    ensures t.phase.Idle? ==> Script(done.events, done.at).poisoned
    ensures t.phase.Feeding? && t.phase.next.None? ==>
              !Script(done.events, done.at).poisoned && t.phase.unit == Script(done.events, done.at).newest
  {
    RunFollows(cap, s, Record([], [s.q.log[s.phase.newest]], [s.phase.newest]), actions, t, done);
    ScriptRenames(done.events, done.at);
  }

  // ---- Whole runs --------------------------------------------------------------------------

  lemma StartIsOrderly(decoder: bool)
    ensures Orderly(Start(decoder))
  {
  }

  /**
   * In every run: the recovery (g, e) is closed only by a decoded key of epoch e, from a unit
   * popped after the reset g and fed to the decoder after that reset's flush.
   */
  lemma RecoveryClosedByFreshKey(cap: nat, decoder: bool, actions: seq<Action>, s: System, i: nat)
    requires cap >= 1 && Reaches(cap, Start(decoder), actions, s) && i < |s.closings|
    ensures RightlyClosed(s.q.log, s.feeds, s.closings[i])
  {
    StartIsOrderly(decoder);
    RunKeepsOrderly(cap, Start(decoder), actions, s);
  }

  /** An open recovery is never forgotten: its reset is still queued, or the latch is armed for exactly it. */
  lemma OpenRecoveryIsTracked(cap: nat, decoder: bool, actions: seq<Action>, s: System)
    requires cap >= 1 && Reaches(cap, Start(decoder), actions, s) && s.q.recovery.Some?
    ensures var o := s.q.recovery.value;
            || (exists k :: s.q.front <= k < |s.q.log| && s.q.log[k] == Reset(o.generation, o.epoch))
            || (s.d.recoveryGeneration == Some(o.generation) && s.d.waitForKey == Some(o.epoch))
  {
    StartIsOrderly(decoder);
    RunKeepsOrderly(cap, Start(decoder), actions, s);
    var k := LastReset(s.q.log, |s.q.log|).value;
    assert s.q.log[k].Reset?;
  }

  /**
   * Units reach the decoder in order; under the latch only keys do, and none from before a reset
   * that has been popped. A unit submitted without the latch follows on the one before: between the
   * two in the queue there was no reset, nothing was lost, and nothing of its epoch was skipped.
   */
  lemma DecoderInputIsUnbroken(cap: nat, decoder: bool, actions: seq<Action>, s: System)
    requires cap >= 1 && Reaches(cap, Start(decoder), actions, s)
    ensures forall i :: 0 <= i < |s.feeds| ==> Proper(s.q.log, s.feeds[i])
    ensures forall i :: 0 < i < |s.feeds| ==> Continues(s.q.log, s.feeds[i - 1], s.feeds[i])
  {
    StartIsOrderly(decoder);
    RunKeepsOrderly(cap, Start(decoder), actions, s);
  }

  /**
   * After a decode error, a stall or a lost device the decoder gets no unit but a key: in every run,
   * whatever comes in between, the first unit submitted afterwards is one.
   */
  lemma BrokenStreamWaitsForKey(cap: nat, decoder: bool, actions: seq<Action>, s: System, a: Action,
                                more: seq<Action>, t: System)
    requires cap >= 1 && Reaches(cap, Start(decoder), actions, s) && Placed(s) && Enabled(s, a)
    requires a.Stall? || a.Demote? || (a.Feed? && a.outcome.Error? && Apply(cap, s, a).feeds != s.feeds)
    requires Reaches(cap, Apply(cap, s, a), more, t) && |t.feeds| > |Apply(cap, s, a).feeds|
    ensures var first := t.feeds[|Apply(cap, s, a).feeds|].unit;
            first < |t.q.log| && t.q.log[first].Frame? && t.q.log[first].key
  {
    StartIsOrderly(decoder);
    RunKeepsOrderly(cap, Start(decoder), actions, s);
    StepKeepsOrderly(cap, s, a);
    var r := Apply(cap, s, a);
    assert r.broken;
    RunKeepsOrderly(cap, r, more, t);
    NextIsMarked(cap, r, more, t);
    assert Proper(t.q.log, t.feeds[|r.feeds|]);
  }

  /** The first submission from a broken state carries the mark. */
  lemma {:induction false} NextIsMarked(cap: nat, s: System, actions: seq<Action>, t: System)
    requires s.broken && Reaches(cap, s, actions, t)
    ensures s.feeds <= t.feeds && (|t.feeds| > |s.feeds| ==> t.feeds[|s.feeds|].broken)
    decreases |actions|
  {
    if actions != [] {
      var r := Apply(cap, s, actions[0]);
      if |r.feeds| > |s.feeds| {
        FeedsGrow(cap, r, actions[1..], t);
      } else {
        NextIsMarked(cap, r, actions[1..], t);
      }
    }
  }

  lemma {:induction false} FeedsGrow(cap: nat, s: System, actions: seq<Action>, t: System)
    requires Reaches(cap, s, actions, t)
    ensures s.feeds <= t.feeds
    decreases |actions|
  {
    if actions != [] {
      FeedsGrow(cap, Apply(cap, s, actions[0]), actions[1..], t);
    }
  }

  /** The step empties the decoder: a reset, a stall, or a device that is gone. */
  ghost predicate Flushes(cap: nat, s: System, a: Action)
    requires Placed(s) && Enabled(s, a)
  {
    || a.Stall? || a.Demote?
    || (a.Pop? && s.q.front < |s.q.log| && s.q.log[s.q.front].Reset?)
    || (a.Feed? && a.outcome.Error? && a.outcome.removed && Apply(cap, s, a).feeds != s.feeds)
  }

  /** The decoder holds only units submitted from the `n`-th submission on. */
  ghost predicate HoldsFrom(s: System, n: nat) {
    forall u :: u in s.d.fed ==> exists i :: n <= i < |s.feeds| && s.feeds[i].unit == u
  }

  lemma FeedHoldsFrom(cap: nat, s: System, outcome: Outcome, n: nat)
    requires Placed(s) && Enabled(s, Feed(outcome)) && HoldsFrom(s, n) && n <= |s.feeds|
    ensures HoldsFrom(Apply(cap, s, Feed(outcome)), n)
  {
    var t := Apply(cap, s, Feed(outcome));
    forall u | u in t.d.fed
      ensures exists i :: n <= i < |t.feeds| && t.feeds[i].unit == u
    {
      if u in s.d.fed {
        var i :| n <= i < |s.feeds| && s.feeds[i].unit == u;
        assert t.feeds[i] == s.feeds[i];
      } else {
        assert t.feeds[|s.feeds|].unit == u;
      }
    }
  }

  lemma OthersFeedNothing(cap: nat, s: System, a: Action)
    requires Placed(s) && Enabled(s, a) && !a.Feed?
    ensures Apply(cap, s, a).d.fed <= s.d.fed && Apply(cap, s, a).feeds == s.feeds
  {
  }

  lemma StepHoldsFrom(cap: nat, s: System, a: Action, n: nat)
    requires Placed(s) && Enabled(s, a) && HoldsFrom(s, n) && n <= |s.feeds|
    ensures HoldsFrom(Apply(cap, s, a), n) && n <= |Apply(cap, s, a).feeds|
  {
    if a.Feed? {
      FeedHoldsFrom(cap, s, a.outcome, n);
    } else {
      OthersFeedNothing(cap, s, a);
    }
  }

  lemma {:induction false} RunHoldsFrom(cap: nat, s: System, n: nat, actions: seq<Action>, t: System)
    requires HoldsFrom(s, n) && n <= |s.feeds| && Reaches(cap, s, actions, t)
    ensures HoldsFrom(t, n)
    decreases |actions|
  {
    if actions != [] {
      StepHoldsFrom(cap, s, actions[0], n);
      RunHoldsFrom(cap, Apply(cap, s, actions[0]), n, actions[1..], t);
    }
  }

  /**
   * After a reset, a stall or a lost device, in every run, the decoder holds nothing that was
   * submitted before it, and no picture it yields can come from there.
   */
  lemma FlushForgets(cap: nat, s: System, a: Action, actions: seq<Action>, t: System)
    requires Placed(s) && Enabled(s, a) && Flushes(cap, s, a)
    requires Reaches(cap, Apply(cap, s, a), actions, t)
    ensures HoldsFrom(t, |Apply(cap, s, a).feeds|)
  {
    RunHoldsFrom(cap, Apply(cap, s, a), |Apply(cap, s, a).feeds|, actions, t);
  }

  /** What each of them leaves of the decoder's state: the latch is armed for the current epoch. */
  lemma FlushArms(cap: nat, s: System, a: Action)
    requires Placed(s) && Enabled(s, a) && Flushes(cap, s, a)
    ensures var d, e := s.d, Apply(cap, s, a).d;
            && e.fed == {} && e.epoch.Some? && e.waitForKey == e.epoch
            && (a.Pop? ==> e.epoch == Some(s.q.log[s.q.front].epoch)
                           && e.recoveryGeneration == Some(s.q.log[s.q.front].generation) && e.present == d.present)
            && (!a.Pop? ==> e.recoveryGeneration == d.recoveryGeneration && (d.epoch.Some? ==> e.epoch == d.epoch))
            && (a.Stall? ==> e.present == d.present)
            && (a.Demote? ==> e.present == a.replaced)
            && (a.Feed? ==> e.present == a.outcome.replaced)
  {
  }

  /**
   * Whatever is pushed and however slowly it is popped, no more is ever queued than the capacity,
   * or one reset and one frame.
   */
  lemma QueueIsBounded(cap: nat, decoder: bool, actions: seq<Action>, s: System)
    requires cap >= 1 && Reaches(cap, Start(decoder), actions, s)
    ensures s.q.front <= |s.q.log| && |Events(s.q)| <= if cap >= 2 then cap else 2
  {
    RunKeepsBounded(cap, Start(decoder), actions, s);
  }

  /** Resets are told apart by number: in every run the n-th one pushed carries generation n. */
  lemma ResetsCountUp(cap: nat, decoder: bool, actions: seq<Action>, s: System, i: nat)
    requires cap >= 1 && Reaches(cap, Start(decoder), actions, s) && i < |s.q.log| && s.q.log[i].Reset?
    ensures s.q.log[i].generation == ResetCount(s.q.log[..i + 1])
  {
    RunCountsUp(cap, Start(decoder), actions, s);
  }

  /**
   * A unit reaches the decoder exactly if there is one, the unit is of the current epoch or the first
   * of all, and is a key where one is waited for.
   */
  lemma SubmittedExactly(cap: nat, s: System, outcome: Outcome)
    requires Placed(s) && s.phase.Feeding? && Enabled(s, Feed(outcome))
    ensures var e := s.q.log[s.phase.unit];
            Apply(cap, s, Feed(outcome)).feeds != s.feeds
            <==> s.d.present && (s.d.epoch.None? || s.d.epoch == Some(e.epoch)) && (s.d.waitForKey.Some? ==> e.key)
  {
  }

  /**
   * A decoded key of the epoch waited for opens the latch, and with it closes the recovery it is
   * tracked for if that is still the open one; no other picture does either.
   */
  lemma KeyOpensLatchExactly(cap: nat, s: System)
    requires Placed(s) && s.phase.Deciding?
    ensures var p := s.phase;
            var epoch := s.q.log[p.unit].epoch;
            var m := Apply(cap, s, Check);
            var t := if m.phase.Acking? then Apply(cap, m, Acknowledge) else m;
            var due := s.d.recoveryGeneration.Some? && s.q.recovery == Some(Open(s.d.recoveryGeneration.value, epoch));
            if p.key && s.d.waitForKey == Some(epoch) then
              && t.d.waitForKey.None? && t.d.recoveryGeneration.None?
              && t.q.recovery == (if due then None else s.q.recovery)
              && |t.closings| == |s.closings| + if due then 1 else 0
            else t.d == s.d && t.q == s.q && t.closings == s.closings
  {
  }

  /** The mid-stream join: the first unit ever submitted to the decoder is a key. */
  lemma JoinStartsAtKey(cap: nat, decoder: bool, actions: seq<Action>, s: System)
    requires cap >= 1 && Reaches(cap, Start(decoder), actions, s) && s.feeds != []
    ensures var first := s.feeds[0]; first.unit < |s.q.log| && s.q.log[first.unit].Frame? && s.q.log[first.unit].key
  {
    StartIsOrderly(decoder);
    RunKeepsOrderly(cap, Start(decoder), actions, s);
    assert Proper(s.q.log, s.feeds[0]);
  }
}
