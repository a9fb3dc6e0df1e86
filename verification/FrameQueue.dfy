/**
 * The bounded event queue between the receive thread and the decoder thread, with the recovery it
 * opens and closes (client-transport/src/frame_queue.rs).
 */
module FrameQueues {
  import opened Prelude

  datatype Event = Frame(epoch: nat, key: bool) | Reset(generation: nat, epoch: nat)

  datatype Open = Open(generation: nat, epoch: nat)

  /** `log` is every event ever pushed; those from `front` on are queued, the others popped or cleared. */
  datatype Queue = Queue(log: seq<Event>, front: nat, closed: bool, overflowed: bool,
                         generation: nat, recovery: Option<Open>)

  const EMPTY := Queue([], 0, false, false, 0, None)

  function Events(q: Queue): seq<Event>
    requires q.front <= |q.log|
  {
    q.log[q.front..]
  }

  /** A reset enters the queue and its recovery is open in the same step. */
  function Opened(q: Queue, epoch: nat): Queue {
    q.(log := q.log + [Reset(q.generation + 1, epoch)], generation := q.generation + 1,
       recovery := Some(Open(q.generation + 1, epoch)))
  }

  function Cleared(q: Queue): Queue {
    q.(front := |q.log|, overflowed := true)
  }

  /** `push_frame_reporting_overflow`. */
  function PushedFrame(q: Queue, cap: nat, epoch: nat, key: bool): Queue
    requires q.front <= |q.log|
  {
    if q.closed then q
    else
      var room := if |Events(q)| >= cap then Opened(Cleared(q), epoch) else q;
      room.(log := room.log + [Frame(epoch, key)])
  }

  /** `push_discontinuity`. */
  function PushedDiscontinuity(q: Queue, cap: nat, epoch: nat): Queue
    requires q.front <= |q.log|
  {
    if q.closed then q else Opened(if |Events(q)| >= cap then Cleared(q) else q, epoch)
  }

  /** `acknowledge_recovery`. */
  function Acknowledged(q: Queue, o: Open): Queue {
    if q.recovery == Some(o) then q.(recovery := None) else q
  }

  /** The last reset among the first `n` events. */
  ghost function LastReset(log: seq<Event>, n: nat): (r: Option<nat>)
    requires n <= |log|
    ensures r.Some? ==> r.value < n && log[r.value].Reset? && forall k :: r.value < k < n ==> log[k].Frame?
    ensures r.None? ==> forall k :: 0 <= k < n ==> log[k].Frame?
  {
    if n == 0 then None else if log[n - 1].Reset? then Some(n - 1) else LastReset(log, n - 1)
  }

  lemma {:induction false} LastResetOfPrefix(log: seq<Event>, more: seq<Event>, n: nat)
    requires n <= |log| && log <= more
    ensures LastReset(more, n) == LastReset(log, n)
    decreases n
  {
    if n > 0 {
      LastResetOfPrefix(log, more, n - 1);
    }
  }

  /** Generations are never used twice, and the open recovery is the one of the last reset pushed. */
  ghost predicate Numbered(q: Queue) {
    && q.front <= |q.log|
    && (forall i :: 0 <= i < |q.log| && q.log[i].Reset? ==> 1 <= q.log[i].generation <= q.generation)
    && (forall i, j :: 0 <= i < j < |q.log| && q.log[i].Reset? && q.log[j].Reset? ==>
          q.log[i].generation < q.log[j].generation)
    && (q.recovery.Some? ==>
          var r := LastReset(q.log, |q.log|);
          r.Some? && q.log[r.value] == Reset(q.recovery.value.generation, q.recovery.value.epoch))
  }

  /** What a push may do: events are added at the end, and if any were cleared a reset is now in front. */
  ghost predicate Grows(q: Queue, p: Queue) {
    && q.log <= p.log && q.front <= p.front <= |p.log|
    && (p.front != q.front ==> p.front == |q.log| < |p.log| && p.log[p.front].Reset?)
    && (p.recovery == q.recovery || (LastReset(p.log, |p.log|).Some? && LastReset(p.log, |p.log|).value >= |q.log|))
  }

  lemma OpeningNumbers(q: Queue, epoch: nat)
    requires Numbered(q)
    ensures Numbered(Opened(q, epoch)) && Grows(q, Opened(q, epoch))
  {
  }

  lemma AddingFrameNumbers(q: Queue, epoch: nat, key: bool)
    requires Numbered(q)
    ensures var p := q.(log := q.log + [Frame(epoch, key)]); Numbered(p) && Grows(q, p)
  {
    LastResetOfPrefix(q.log, q.log + [Frame(epoch, key)], |q.log|);
  }

  lemma PushingFrameGrows(q: Queue, cap: nat, epoch: nat, key: bool)
    requires Numbered(q) && cap >= 1
    ensures Numbered(PushedFrame(q, cap, epoch, key)) && Grows(q, PushedFrame(q, cap, epoch, key))
  {
    if !q.closed {
      if |Events(q)| >= cap {
        OpeningNumbers(Cleared(q), epoch);
        var p := Opened(Cleared(q), epoch);
        AddingFrameNumbers(p, epoch, key);
        LastResetOfPrefix(p.log, p.log + [Frame(epoch, key)], |p.log|);
      } else {
        AddingFrameNumbers(q, epoch, key);
      }
    }
  }

  lemma PushingDiscontinuityGrows(q: Queue, cap: nat, epoch: nat)
    requires Numbered(q) && cap >= 1
    ensures Numbered(PushedDiscontinuity(q, cap, epoch)) && Grows(q, PushedDiscontinuity(q, cap, epoch))
  {
    if !q.closed {
      OpeningNumbers(Cleared(q), epoch);
      OpeningNumbers(q, epoch);
    }
  }

  /** The capacity is kept, but for the reset and the frame that follow an overflow. */
  lemma QueueStaysBounded(q: Queue, cap: nat, epoch: nat, key: bool)
    requires q.front <= |q.log| && cap >= 1
    requires |Events(q)| <= cap || |Events(q)| == 2
    ensures var p := PushedFrame(q, cap, epoch, key);
            p.front <= |p.log| && (|Events(p)| <= cap || |Events(p)| == 2)
    ensures var p := PushedDiscontinuity(q, cap, epoch);
            p == q || (p.front <= |p.log| && |Events(p)| <= cap)
  {
  }

  class FrameQueue {
    const cap: nat
    var events: seq<Event>
    var closed: bool
    var overflowed: bool
    var nextGeneration: nat
    var recovery: Option<Open>
    ghost var log: seq<Event>

    constructor (cap: nat)
      ensures Valid() && Model() == EMPTY && this.cap == if cap >= 1 then cap else 1
    {
      this.cap := if cap >= 1 then cap else 1;
      events, closed, overflowed, nextGeneration, recovery, log := [], false, false, 0, None, [];
    }

    ghost predicate Valid()
      reads this
    {
      cap >= 1 && |events| <= |log| && log[|log| - |events|..] == events
    }

    ghost function Model(): Queue
      requires Valid()
      reads this
    {
      Queue(log, |log| - |events|, closed, overflowed, nextGeneration, recovery)
    }

    method PushFrame(epoch: nat, key: bool) returns (pushed: bool)
      requires Valid()
      modifies this
      ensures Valid() && Model() == PushedFrame(old(Model()), cap, epoch, key)
      ensures pushed <==> !old(closed)
    {
      pushed := !closed;
      if closed {
        return;
      }
      if |events| >= cap {
        nextGeneration := nextGeneration + 1;
        recovery := Some(Open(nextGeneration, epoch));
        events := [Reset(nextGeneration, epoch)];
        log := log + [Reset(nextGeneration, epoch)];
        overflowed := true;
      }
      events := events + [Frame(epoch, key)];
      log := log + [Frame(epoch, key)];
    }

    method PushDiscontinuity(epoch: nat) returns (generation: Option<nat>)
      requires Valid()
      modifies this
      ensures Valid() && Model() == PushedDiscontinuity(old(Model()), cap, epoch)
      ensures generation == if old(closed) then None else Some(nextGeneration)
    {
      if closed {
        return None;
      }
      if |events| >= cap {
        overflowed := true;
        events := [];
      }
      nextGeneration := nextGeneration + 1;
      recovery := Some(Open(nextGeneration, epoch));
      events := events + [Reset(nextGeneration, epoch)];
      log := log + [Reset(nextGeneration, epoch)];
      generation := Some(nextGeneration);
    }

    method TryEvent() returns (e: Option<Event>)
      requires Valid()
      modifies this`events
      ensures Valid()
      ensures e.None? ==> Events(old(Model())) == [] && Model() == old(Model())
      ensures e.Some? ==> old(Model()).front < |log| && e.value == log[old(Model()).front]
                          && Model() == old(Model()).(front := old(Model()).front + 1)
    {
      if events == [] {
        return None;
      }
      e := Some(events[0]);
      events := events[1..];
    }

    method AcknowledgeRecovery(generation: nat, epoch: nat) returns (wasOpen: bool)
      requires Valid()
      modifies this`recovery
      ensures Valid() && Model() == Acknowledged(old(Model()), Open(generation, epoch))
      ensures wasOpen <==> old(recovery) == Some(Open(generation, epoch))
    {
      wasOpen := recovery == Some(Open(generation, epoch));
      if wasOpen {
        recovery := None;
      }
    }
  }
}
