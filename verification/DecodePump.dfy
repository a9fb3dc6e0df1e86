/**
 * The decoder side of app-native/src/main.rs: the recovery latch of `DecodeState` and the backlog
 * drain of the frame pump.
 */
module DecodePump {
  import opened Prelude
  import opened FrameQueues

  /** `fed` holds the units submitted to the decoder since it was last flushed or replaced. */
  datatype Decode = Decode(present: bool, waitForKey: Option<nat>, recoveryGeneration: Option<nat>,
                           epoch: Option<nat>, fed: set<nat>)

  /** What the decoder made of a unit; a picture comes from some unit fed to it, not always the last. */
  datatype Outcome = NoPicture | Picture(picture: nat, key: bool) | Error(removed: bool, replaced: bool)

  function Fresh(present: bool): Decode {
    Decode(present, Some(0), None, None, {})
  }

  /** `on_discontinuity`. */
  function Rearmed(d: Decode, generation: nat, epoch: nat): Decode {
    d.(epoch := Some(epoch), waitForKey := Some(epoch), recoveryGeneration := Some(generation), fed := {})
  }

  /** `on_decode_stall`. */
  function Stalled(d: Decode): Decode {
    d.(waitForKey := d.epoch, fed := {})
  }

  /** `demote_removed_device`, once the device is gone. */
  function Demoted(d: Decode, replaced: bool): Decode {
    d.(present := replaced, waitForKey := d.epoch, fed := {})
  }

  /** `admit_epoch`: the state, once a unit of this epoch has been considered. */
  function Admitting(d: Decode, epoch: nat): Decode {
    if d.epoch.None? then d.(epoch := Some(epoch), waitForKey := if d.waitForKey.Some? then Some(epoch) else None)
    else d
  }

  /** The unit goes to the decoder. */
  predicate Submits(d: Decode, epoch: nat, key: bool) {
    && d.present
    && Admitting(d, epoch).epoch == Some(epoch)
    && (Admitting(d, epoch).waitForKey.Some? ==> key)
  }

  /** `on_unit` and `drop_unit` up to the decoder's answer, errors included. */
  function Fed(d: Decode, unit: nat, epoch: nat, key: bool, outcome: Outcome): Decode {
    if !d.present then d
    else
      var a := Admitting(d, epoch);
      if !Submits(d, epoch, key) then a
      else if outcome.Error? then
        if outcome.removed then Demoted(a, outcome.replaced)
        else a.(waitForKey := a.epoch, fed := a.fed + {unit})
      else a.(fed := a.fed + {unit})
  }

  /** `clears_recovery`. */
  predicate ClearsRecovery(armed: Option<nat>, epoch: nat, key: bool) {
    armed == Some(epoch) && key
  }

  function Released(d: Decode): Decode {
    d.(waitForKey := None, recoveryGeneration := None)
  }

  class DecodeState {
    var present: bool
    var waitForKey: Option<nat>
    var recoveryGeneration: Option<nat>
    var epoch: Option<nat>
    ghost var fed: set<nat>

    constructor (present: bool)
      ensures Model() == Fresh(present)
    {
      this.present, waitForKey, recoveryGeneration, epoch, fed := present, Some(0), None, None, {};
    }

    ghost function Model(): Decode
      reads this
    {
      Decode(present, waitForKey, recoveryGeneration, epoch, fed)
    }

    method OnDiscontinuity(generation: nat, epoch: nat)
      modifies this
      ensures Model() == Rearmed(old(Model()), generation, epoch)
    {
      this.epoch := Some(epoch);
      fed := {};
      waitForKey := Some(epoch);
      recoveryGeneration := Some(generation);
    }

    method AdmitEpoch(epoch: nat) returns (admitted: bool)
      modifies this`epoch, this`waitForKey
      ensures Model() == Admitting(old(Model()), epoch)
      ensures admitted <==> Model().epoch == Some(epoch)
    {
      if this.epoch.None? {
        this.epoch := Some(epoch);
        if waitForKey.Some? {
          waitForKey := Some(epoch);
        }
        return true;
      }
      admitted := this.epoch == Some(epoch);
    }

    method OnDecodeStall()
      modifies this
      ensures Model() == Stalled(old(Model()))
    {
      fed := {};
      waitForKey := epoch;
    }

    method DemoteRemovedDevice(replaced: bool)
      modifies this
      ensures Model() == Demoted(old(Model()), replaced)
    {
      present := replaced;
      fed := {};
      waitForKey := epoch;
    }

    /** Everything of `on_unit` and `drop_unit` but what they do with a picture. */
    method OnUnit(unit: nat, epoch: nat, key: bool, outcome: Outcome) returns (submitted: bool)
      modifies this
      ensures Model() == Fed(old(Model()), unit, epoch, key, outcome)
      ensures submitted <==> Submits(old(Model()), epoch, key)
    {
      if !present {
        return false;
      }
      var admitted := AdmitEpoch(epoch);
      if !admitted {
        return false;
      }
      if waitForKey.Some? && !key {
        return false;
      }
      submitted := true;
      fed := fed + {unit};
      if outcome.Error? {
        if outcome.removed {
          DemoteRemovedDevice(outcome.replaced);
        } else {
          waitForKey := this.epoch;
        }
      }
    }

    /** `on_meta`, with the queue to itself. */
    method OnMeta(core: FrameQueue, epoch: nat, key: bool)
      requires core.Valid()
      modifies this, core`recovery
      ensures core.Valid()
      ensures !ClearsRecovery(old(waitForKey), epoch, key) ==>
                Model() == old(Model()) && core.Model() == old(core.Model())
      ensures ClearsRecovery(old(waitForKey), epoch, key) ==>
                Model() == Released(old(Model()))
      ensures ClearsRecovery(old(waitForKey), epoch, key) ==>
                core.Model() == if old(recoveryGeneration).None? then old(core.Model())
                                else Acknowledged(old(core.Model()), Open(old(recoveryGeneration).value, epoch))
    {
      if !ClearsRecovery(waitForKey, epoch, key) {
        return;
      }
      if recoveryGeneration.Some? && core.recovery == Some(Open(recoveryGeneration.value, epoch)) {
        var acknowledged := core.AcknowledgeRecovery(recoveryGeneration.value, epoch);
        if acknowledged {
          waitForKey, recoveryGeneration := None, None;
        }
      } else {
        waitForKey, recoveryGeneration := None, None;
      }
    }
  }

  // ---- The drain ---------------------------------------------------------------------------

  /** One call of the drain's callback, by the position of its event in the backlog. */
  datatype Step = Dropped(at: nat) | Poisoned(at: nat) | Flushed(at: nat)

  /** The drain between two of its events: what it has reported, and the frame it holds. */
  datatype Drain = Drain(steps: seq<Step>, newest: nat, poisoned: bool)

  /** What a held frame becomes when a frame follows it. */
  function Replaced(newest: nat, poisoned: bool): Step {
    if poisoned then Poisoned(newest) else Dropped(newest)
  }

  /** One turn of the drain, on the event `e` at `k`. */
  function Turn(d: Drain, e: Event, k: nat): Drain {
    if e.Frame? then Drain(d.steps + [Replaced(d.newest, d.poisoned)], k, false)
    else Drain(d.steps + [Flushed(k)], d.newest, true)
  }

  /** The drain on the events `s`, which have the positions `at`. */
  function Script(s: seq<Event>, at: seq<nat>): Drain
    requires |s| == |at| > 0
    decreases |s|
  {
    if |s| == 1 then Drain([], at[0], false) else Turn(Script(Front(s), Front(at)), Last(s), Last(at))
  }

  function Finished(d: Drain): seq<Step> {
    if d.poisoned then d.steps + [Poisoned(d.newest)] else d.steps
  }

  /** The positions of a backlog that starts at 0. */
  function Upto(n: nat): (r: seq<nat>)
    ensures |r| == n && forall i :: 0 <= i < n ==> r[i] == i
  {
    seq(n, i => i)
  }

  function Renamed(step: Step, at: seq<nat>): Step
    requires step.at < |at|
  {
    match step
    case Dropped(k) => Dropped(at[k])
    case Poisoned(k) => Poisoned(at[k])
    case Flushed(k) => Flushed(at[k])
  }

  /** The second run of the drain is the first one with every position `k` read as `at[k]`. */
  ghost predicate Names(d: Drain, at: seq<nat>, e: Drain) {
    && d.newest < |at| && e.newest == at[d.newest] && e.poisoned == d.poisoned
    && |e.steps| == |d.steps|
    && forall i :: 0 <= i < |d.steps| ==> d.steps[i].at < |at| && e.steps[i] == Renamed(d.steps[i], at)
  }

  /** Positions are only names to the drain. */
  lemma {:induction false} ScriptRenames(s: seq<Event>, at: seq<nat>)
    requires |s| == |at| > 0
    ensures Names(Script(s, Upto(|s|)), at, Script(s, at))
    decreases |s|
  {
    if |s| > 1 {
      ScriptRenames(Front(s), Front(at));
      assert Front(Upto(|s|)) == Upto(|s| - 1);
    }
  }

  lemma ScriptTurns(s: seq<Event>, at: seq<nat>, e: Event, k: nat)
    requires |s| == |at| > 0
    ensures Script(s + [e], at + [k]) == Turn(Script(s, at), e, k)
  {
    assert Front(s + [e]) == s && Front(at + [k]) == at;
  }

  lemma ScriptExtends(s: seq<Event>, e: Event)
    requires s != []
    ensures Script(s + [e], Upto(|s| + 1)) == Turn(Script(s, Upto(|s|)), e, |s|)
  {
    assert Upto(|s| + 1) == Upto(|s|) + [|s|];
    ScriptTurns(s, Upto(|s|), e, |s|);
  }

  /** The positions of the frames, in order. */
  function FramesIn(s: seq<Event>): seq<nat> {
    if s == [] then [] else FramesIn(Front(s)) + if Last(s).Frame? then [|s| - 1] else []
  }

  function ResetsIn(s: seq<Event>): seq<nat> {
    if s == [] then [] else ResetsIn(Front(s)) + if Last(s).Reset? then [|s| - 1] else []
  }

  function FramesOf(steps: seq<Step>): seq<nat> {
    if steps == [] then [] else FramesOf(Front(steps)) + if Last(steps).Flushed? then [] else [Last(steps).at]
  }

  function ResetsOf(steps: seq<Step>): seq<nat> {
    if steps == [] then [] else ResetsOf(Front(steps)) + if Last(steps).Flushed? then [Last(steps).at] else []
  }

  lemma AddStep(steps: seq<Step>, step: Step)
    ensures FramesOf(steps + [step]) == FramesOf(steps) + if step.Flushed? then [] else [step.at]
    ensures ResetsOf(steps + [step]) == ResetsOf(steps) + if step.Flushed? then [step.at] else []
  {
    assert Front(steps + [step]) == steps;
  }

  lemma AddEvent(s: seq<Event>, e: Event)
    ensures FramesIn(s + [e]) == FramesIn(s) + if e.Frame? then [|s|] else []
    ensures ResetsIn(s + [e]) == ResetsIn(s) + if e.Reset? then [|s|] else []
  {
    assert Front(s + [e]) == s;
  }

  /** The frame at `k` is followed by another frame, or by a reset. */
  predicate Superseded(s: seq<Event>, k: nat) {
    k + 1 < |s| && s[k].Frame? && s[k + 1].Frame?
  }

  predicate Killed(s: seq<Event>, k: nat) {
    k + 1 < |s| && s[k].Frame? && s[k + 1].Reset?
  }

  /** No unit is decoded after a reset that it precedes, nor before one that precedes it. */
  ghost predicate DecodesInOrder(steps: seq<Step>) {
    forall a, b :: 0 <= a < b < |steps| && !steps[a].Poisoned? && !steps[b].Poisoned? ==> steps[a].at < steps[b].at
  }

  ghost predicate Labelled(s: seq<Event>, steps: seq<Step>, newest: nat) {
    && (forall k :: Dropped(k) in steps <==> Superseded(s, k))
    && (forall k :: Poisoned(k) in steps <==> Killed(s, k) && k != newest)
  }

  ghost predicate Ordered(s: seq<Event>, steps: seq<Step>, newest: nat, poisoned: bool) {
    && DecodesInOrder(steps)
    && (forall a :: 0 <= a < |steps| && !steps[a].Poisoned? ==> steps[a].at < |s| && (poisoned || steps[a].at < newest))
  }

  /** The state of the drain once the events `s` have been seen; `newest` is the last frame of them. */
  ghost predicate Drained(s: seq<Event>, steps: seq<Step>, newest: nat, poisoned: bool) {
    && newest < |s| && s[newest].Frame?
    && (forall k :: newest < k < |s| ==> s[k].Reset?)
    && poisoned == (newest + 1 < |s|)
    && FramesOf(steps) + [newest] == FramesIn(s) && ResetsOf(steps) == ResetsIn(s)
    && Labelled(s, steps, newest) && Ordered(s, steps, newest, poisoned)
  }

  /** Only what follows the last event changes what becomes of it. */
  lemma LabelsOfPrefix(s: seq<Event>, e: Event, k: nat)
    ensures k + 1 < |s| ==> (Superseded(s + [e], k) <==> Superseded(s, k)) && (Killed(s + [e], k) <==> Killed(s, k))
    ensures k + 1 == |s| ==> (Superseded(s + [e], k) <==> s[k].Frame? && e.Frame?)
    ensures k + 1 == |s| ==> (Killed(s + [e], k) <==> s[k].Frame? && e.Reset?)
  {
  }

  lemma LabelsFrame(s: seq<Event>, steps: seq<Step>, newest: nat, poisoned: bool, e: Event)
    requires Drained(s, steps, newest, poisoned) && e.Frame?
    ensures Labelled(s + [e], steps + [if poisoned then Poisoned(newest) else Dropped(newest)], |s|)
  {
    forall k: nat
      ensures Dropped(k) in steps + [if poisoned then Poisoned(newest) else Dropped(newest)] <==> Superseded(s + [e], k)
      ensures Poisoned(k) in steps + [if poisoned then Poisoned(newest) else Dropped(newest)]
              <==> Killed(s + [e], k) && k != |s|
    {
      LabelsOfPrefix(s, e, k);
    }
  }

  lemma LabelsReset(s: seq<Event>, steps: seq<Step>, newest: nat, poisoned: bool, e: Event)
    requires Drained(s, steps, newest, poisoned) && e.Reset?
    ensures Labelled(s + [e], steps + [Flushed(|s|)], newest)
  {
    forall k: nat
      ensures Dropped(k) in steps + [Flushed(|s|)] <==> Superseded(s + [e], k)
      ensures Poisoned(k) in steps + [Flushed(|s|)] <==> Killed(s + [e], k) && k != newest
    {
      LabelsOfPrefix(s, e, k);
    }
  }

  lemma OrderedFrame(s: seq<Event>, steps: seq<Step>, newest: nat, poisoned: bool, step: Step)
    requires newest < |s| && Ordered(s, steps, newest, poisoned)
    requires step == if poisoned then Poisoned(newest) else Dropped(newest)
    ensures forall e :: Ordered(s + [e], steps + [step], |s|, false)
  {
  }

  lemma DrainsFrame(s: seq<Event>, steps: seq<Step>, newest: nat, poisoned: bool, e: Event)
    requires Drained(s, steps, newest, poisoned) && e.Frame?
    ensures Drained(s + [e], steps + [if poisoned then Poisoned(newest) else Dropped(newest)], |s|, false)
  {
    AddStep(steps, if poisoned then Poisoned(newest) else Dropped(newest));
    AddEvent(s, e);
    OrderedFrame(s, steps, newest, poisoned, if poisoned then Poisoned(newest) else Dropped(newest));
    LabelsFrame(s, steps, newest, poisoned, e);
  }

  lemma DrainsReset(s: seq<Event>, steps: seq<Step>, newest: nat, poisoned: bool, e: Event)
    requires Drained(s, steps, newest, poisoned) && e.Reset?
    ensures Drained(s + [e], steps + [Flushed(|s|)], newest, true)
  {
    AddStep(steps, Flushed(|s|));
    AddEvent(s, e);
    LabelsReset(s, steps, newest, poisoned, e);
  }

  lemma DrainStarts(first: Event)
    requires first.Frame?
    ensures Drained([first], [], 0, false)
  {
    AddEvent([], first);
    assert [] + [first] == [first];
  }

  /** The drain of `s` is at `d`. */
  ghost predicate DrainedAs(s: seq<Event>, d: Drain) {
    Drained(s, d.steps, d.newest, d.poisoned)
  }

  lemma DrainsTurn(s: seq<Event>, d: Drain, e: Event, t: Drain)
    requires DrainedAs(s, d) && t == Turn(d, e, |s|)
    ensures DrainedAs(s + [e], t)
  {
    if e.Frame? {
      DrainsFrame(s, d.steps, d.newest, d.poisoned, e);
    } else {
      DrainsReset(s, d.steps, d.newest, d.poisoned, e);
    }
  }

  /** The script of the non-empty `s` accounts for it. */
  ghost predicate Scripted(s: seq<Event>) {
    s != [] && DrainedAs(s, Script(s, Upto(|s|)))
  }

  lemma ScriptStarts(first: Event)
    requires first.Frame?
    ensures Scripted([first])
  {
    DrainStarts(first);
  }

  lemma ScriptGoesOn(s: seq<Event>, e: Event)
    requires Scripted(s)
    ensures Scripted(s + [e])
  {
    ScriptExtends(s, e);
    DrainsTurn(s, Script(s, Upto(|s|)), e, Script(s + [e], Upto(|s + [e]|)));
  }

  lemma {:induction false} ScriptDrains(s: seq<Event>)
    requires s != [] && s[0].Frame?
    ensures Scripted(s)
    decreases |s|
  {
    if |s| == 1 {
      ScriptStarts(s[0]);
      assert s == [s[0]];
    } else {
      ScriptDrains(Front(s));
      ScriptGoesOn(Front(s), Last(s));
      FrontThenLast(s);
    }
  }

  /**
   * The drain's account of a backlog. Every frame is reported exactly once and in order: decoded
   * and dropped if a frame follows it, poisoned if a reset does, and returned if it is the last
   * event. Resets are reported in order, and whatever is decoded is decoded in its order with the
   * resets.
   */
  ghost predicate Accounts(s: seq<Event>, newest: Option<nat>, steps: seq<Step>)
    requires s != []
  {
    && FramesOf(steps) + (if newest.Some? then [newest.value] else []) == FramesIn(s)
    && ResetsOf(steps) == ResetsIn(s)
    && (forall k :: Dropped(k) in steps <==> Superseded(s, k))
    && (forall k :: Poisoned(k) in steps <==> Killed(s, k))
    && newest == (if Last(s).Frame? then Some(|s| - 1) else None)
    && DecodesInOrder(steps)
  }

  lemma DrainedClean(s: seq<Event>, steps: seq<Step>, newest: nat)
    requires s != [] && Drained(s, steps, newest, false)
    ensures Accounts(s, Some(newest), steps)
  {
  }

  lemma DrainedPoisoned(s: seq<Event>, steps: seq<Step>, newest: nat)
    requires s != [] && Drained(s, steps, newest, true)
    ensures Accounts(s, None, steps + [Poisoned(newest)])
  {
    AddStep(steps, Poisoned(newest));
    assert FramesOf(steps + [Poisoned(newest)]) + [] == FramesIn(s);
    assert Killed(s, newest);
  }

  lemma ScriptAccounts(s: seq<Event>)
    requires s != [] && s[0].Frame?
    ensures var d := Script(s, Upto(|s|)); Accounts(s, if d.poisoned then None else Some(d.newest), Finished(d))
  {
    var d := Script(s, Upto(|s|));
    ScriptDrains(s);
    if d.poisoned {
      DrainedPoisoned(s, d.steps, d.newest);
    } else {
      DrainedClean(s, d.steps, d.newest);
    }
  }

  /** `drain_newest` over the backlog `s`, whose first event is the frame already popped. */
  method DrainNewest(s: seq<Event>) returns (newest: Option<nat>, steps: seq<Step>)
    requires s != [] && s[0].Frame?
    ensures Accounts(s, newest, steps)
    ensures steps == Finished(Script(s, Upto(|s|)))
  {
    var last := 0;
    var poisoned := false;
    steps := [];
    var n := 1;
    while n < |s|
      invariant 1 <= n <= |s|
      invariant Script(s[..n], Upto(n)) == Drain(steps, last, poisoned)
    {
      ScriptExtends(s[..n], s[n]);
      assert s[..n + 1] == s[..n] + [s[n]];
      if s[n].Frame? {
        if poisoned {
          steps := steps + [Poisoned(last)];
          poisoned := false;
        } else {
          steps := steps + [Dropped(last)];
        }
        last := n;
      } else {
        steps := steps + [Flushed(n)];
        poisoned := true;
      }
      n := n + 1;
    }
    assert s[..n] == s;
    ScriptAccounts(s);
    if poisoned {
      steps := steps + [Poisoned(last)];
      newest := None;
    } else {
      newest := Some(last);
    }
  }
}
