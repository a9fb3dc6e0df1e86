/** The bounded pacing queue of app-native/src/frame_pacer.rs, with the history of every frame. */
module FramePacers {
  import opened Prelude

  datatype Fate = Presented(at: nat) | Dropped

  ghost function DroppedCount(fates: seq<Fate>): nat {
    if fates == [] then 0 else DroppedCount(Front(fates)) + if Last(fates).Dropped? then 1 else 0
  }

  ghost function ShownCount(fates: seq<Fate>): nat {
    if fates == [] then 0 else ShownCount(Front(fates)) + if Last(fates).Presented? then 1 else 0
  }

  lemma {:induction false} CountsAdd(fates: seq<Fate>, f: Fate)
    ensures DroppedCount(fates + [f]) == DroppedCount(fates) + if f.Dropped? then 1 else 0
    ensures ShownCount(fates + [f]) == ShownCount(fates) + if f.Presented? then 1 else 0
  {
    assert Front(fates + [f]) == fates;
  }

  function Monus(a: nat, b: nat): nat { if a >= b then a - b else 0 }

  const MAX_U64: nat := 0xFFFF_FFFF_FFFF_FFFF

  class FramePacer {
    const targetIntervalUs: nat
    const maxQueueAgeUs: nat
    const maxQueueFrames: nat
    var queue: seq<nat>
    var droppedStale: nat
    var presented: nat
    ghost var pushed: seq<nat>
    /** The fates of the frames that have left the queue, in order of arrival. */
    ghost var departed: seq<Fate>

    constructor (refreshMhz: nat, maxQueueFrames: nat)
      ensures Valid() && pushed == [] && queue == [] && droppedStale == 0 && presented == 0
      ensures this.maxQueueFrames == (if maxQueueFrames >= 1 then maxQueueFrames else 1)
      ensures targetIntervalUs == 1_000_000_000 / (if refreshMhz >= 1 then refreshMhz else 1)
      ensures maxQueueAgeUs == var age := targetIntervalUs * this.maxQueueFrames;
              if age <= MAX_U64 then age else MAX_U64
    {
      var refresh := if refreshMhz >= 1 then refreshMhz else 1;
      var interval := 1_000_000_000 / refresh;
      var frames := if maxQueueFrames >= 1 then maxQueueFrames else 1;
      targetIntervalUs, this.maxQueueFrames := interval, frames;
      maxQueueAgeUs := if interval * frames <= MAX_U64 then interval * frames else MAX_U64;
      queue, droppedStale, presented, pushed, departed := [], 0, 0, [], [];
    }

    /**
     * The queue is what is left of the pushed frames, in order and within its bound; the counters
     * are those of the fates, and whatever was presented was within the age bound.
     */
    ghost predicate Valid()
      reads this
    {
      && 1 <= maxQueueFrames && |queue| <= maxQueueFrames
      && |departed| + |queue| == |pushed| && pushed[|departed|..] == queue
      && droppedStale == DroppedCount(departed) && presented == ShownCount(departed)
      && forall i :: 0 <= i < |departed| && departed[i].Presented? ==>
           departed[i].at <= pushed[i] + maxQueueAgeUs
    }

    /** The oldest frame leaves the queue. */
    method DropFront()
      requires Valid() && queue != []
      modifies this`queue, this`droppedStale, this`departed
      ensures Valid() && queue == old(queue)[1..] && departed == old(departed) + [Dropped]
      ensures droppedStale == old(droppedStale) + 1
    {
      CountsAdd(departed, Dropped);
      departed := departed + [Dropped];
      queue := queue[1..];
      droppedStale := droppedStale + 1;
    }

    method Push(arrivalUs: nat)
      requires Valid()
      modifies this`queue, this`droppedStale, this`departed, this`pushed
      ensures Valid() && pushed == old(pushed) + [arrivalUs] && presented == old(presented)
      ensures queue == (if |old(queue)| < maxQueueFrames then old(queue) else old(queue)[1..]) + [arrivalUs]
      ensures old(departed) <= departed
      ensures droppedStale == old(droppedStale) + if |old(queue)| < maxQueueFrames then 0 else 1
    {
      while |queue| >= maxQueueFrames
        invariant Valid() && pushed == old(pushed) && presented == old(presented) && old(departed) <= departed
        invariant if queue == old(queue) then droppedStale == old(droppedStale)
                  else |old(queue)| == maxQueueFrames && queue == old(queue)[1..]
                       && droppedStale == old(droppedStale) + 1
        decreases |queue|
      {
        DropFront();
      }
      queue := queue + [arrivalUs];
      pushed := pushed + [arrivalUs];
    }

    /** Among the queued frames, the first that is not too old. */
    ghost function FirstFresh(nowUs: nat, i: nat): (k: nat)
      requires i <= |queue|
      reads this
      ensures i <= k <= |queue| && (k < |queue| ==> nowUs <= queue[k] + maxQueueAgeUs)
      ensures forall j :: i <= j < k ==> nowUs > queue[j] + maxQueueAgeUs
      decreases |queue| - i
    {
      if i < |queue| && Monus(nowUs, queue[i]) > maxQueueAgeUs then FirstFresh(nowUs, i + 1) else i
    }

    /** The first loop of `pick_present`. */
    method DropStale(nowUs: nat) returns (ghost n: nat)
      requires Valid()
      modifies this`queue, this`droppedStale, this`departed
      ensures Valid() && old(departed) <= departed && n == old(FirstFresh(nowUs, 0)) && queue == old(queue)[n..]
      ensures queue != [] ==> nowUs <= queue[0] + maxQueueAgeUs
      ensures droppedStale == old(droppedStale) + n
    {
      n := 0;
      while queue != [] && Monus(nowUs, queue[0]) > maxQueueAgeUs
        invariant Valid() && old(departed) <= departed
        invariant n <= |old(queue)| && queue == old(queue)[n..] && droppedStale == old(droppedStale) + n
        invariant old(FirstFresh(nowUs, 0)) == old(FirstFresh(nowUs, n))
        decreases |queue|
      {
        DropFront();
        n := n + 1;
      }
    }

    method PickPresent(nowUs: nat) returns (picked: Option<nat>)
      requires Valid()
      modifies this`queue, this`droppedStale, this`departed, this`presented
      ensures Valid() && old(departed) <= departed
      ensures var k := old(FirstFresh(nowUs, 0));
              && droppedStale == old(droppedStale) + k
              && if k == |old(queue)| then picked == None && queue == []
                 else picked == Some(old(queue)[k]) && queue == old(queue)[k + 1..]
      ensures presented == old(presented) + if picked.Some? then 1 else 0
      ensures picked.Some? ==> nowUs <= picked.value + maxQueueAgeUs && |departed| > |old(departed)|
                               && Last(departed) == Presented(nowUs) && pushed[|departed| - 1] == picked.value
      ensures Sorted(pushed) ==> forall f :: f in queue ==> nowUs <= f + maxQueueAgeUs
    {
      ghost var k := DropStale(nowUs);
      if queue == [] {
        return None;
      }
      CountsAdd(departed, Presented(nowUs));
      picked := Some(queue[0]);
      assert picked.value == pushed[|departed|];
      departed := departed + [Presented(nowUs)];
      queue := queue[1..];
      presented := presented + 1;
    }

    method QueueAgeUs(nowUs: nat) returns (age: nat)
      ensures if queue == [] || nowUs < queue[0] then age == 0 else queue[0] + age == nowUs
    {
      age := if queue == [] then 0 else Monus(nowUs, queue[0]);
    }
  }

  ghost predicate Sorted(s: seq<nat>) {
    forall i, j :: 0 <= i < j < |s| ==> s[i] <= s[j]
  }

  lemma {:induction false} FatesAdd(fates: seq<Fate>)
    ensures DroppedCount(fates) + ShownCount(fates) == |fates|
  {
    if fates != [] {
      FatesAdd(Front(fates));
    }
  }

  /** Every frame pushed has been presented, has been dropped, or waits in the queue. */
  lemma FramesAreConserved(p: FramePacer)
    requires p.Valid()
    ensures |p.pushed| == p.presented + p.droppedStale + |p.queue|
  {
    FatesAdd(p.departed);
  }
}
