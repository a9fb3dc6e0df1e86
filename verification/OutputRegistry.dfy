/** The output registry of app-native/src/output_registry.rs. */
module OutputRegistries {
  import opened Prelude
  import OutputIds

  datatype Sample = Sample(edid: seq<Byte>, osIndex: nat, dpi: nat)

  datatype Entry = Entry(id: nat, osIndex: nat, dpi: nat, connected: bool, streaming: bool)

  ghost predicate UniqueIds(outputs: seq<Entry>) {
    forall i, j :: 0 <= i < j < |outputs| ==> outputs[i].id != outputs[j].id
  }

  /** `get`: the first entry with the id. */
  function Find(outputs: seq<Entry>, id: nat): Option<Entry> {
    if outputs == [] then None else if outputs[0].id == id then Some(outputs[0]) else Find(outputs[1..], id)
  }

  /** No entry before `i` has the id. */
  ghost predicate NotBefore(outputs: seq<Entry>, id: nat, i: nat) {
    i <= |outputs| && forall j :: 0 <= j < i ==> outputs[j].id != id
  }

  lemma {:induction false} FindsFirst(outputs: seq<Entry>, id: nat, i: nat)
    requires NotBefore(outputs, id, i)
    ensures Find(outputs, id) == Find(outputs[i..], id)
    decreases i
  {
    if i > 0 {
      FindsFirst(outputs[1..], id, i - 1);
      assert outputs[1..][i - 1..] == outputs[i..];
    }
  }

  function Streaming(outputs: seq<Entry>): nat {
    if outputs == [] then 0 else (if outputs[0].streaming then 1 else 0) + Streaming(outputs[1..])
  }

  lemma {:induction false} StreamingWith(outputs: seq<Entry>, i: nat, e: Entry)
    requires i < |outputs|
    ensures Streaming(outputs[i := e])
         == Streaming(outputs) - (if outputs[i].streaming then 1 else 0) + if e.streaming then 1 else 0
  {
    if i > 0 {
      StreamingWith(outputs[1..], i - 1, e);
      assert outputs[i := e][1..] == outputs[1..][i - 1 := e];
    }
  }

  lemma {:induction false} StreamingAdds(outputs: seq<Entry>, e: Entry)
    ensures Streaming(outputs + [e]) == Streaming(outputs) + if e.streaming then 1 else 0
  {
    if outputs == [] {
      assert outputs + [e] == [e];
    } else {
      assert (outputs + [e])[1..] == outputs[1..] + [e];
      StreamingAdds(outputs[1..], e);
    }
  }

  /** The last sample of the output, as later ones overwrite earlier ones. */
  ghost function LastSample(samples: seq<Sample>, id: nat): Option<Sample> {
    if samples == [] then None
    else if OutputIds.OutputId(Last(samples).edid) == id then Some(Last(samples))
    else LastSample(Front(samples), id)
  }

  /** What an enumeration makes of one output: known before or not, among the samples or not. */
  function Refreshed(known: Option<Entry>, sample: Option<Sample>, id: nat): Option<Entry> {
    match (known, sample)
    case (None, None) => None
    case (None, Some(s)) => Some(Entry(id, s.osIndex, s.dpi, true, false))
    case (Some(e), None) => Some(e.(connected := false, streaming := false))
    case (Some(e), Some(s)) => Some(e.(osIndex := s.osIndex, dpi := s.dpi, connected := true))
  }

  /** The same while its stream has not yet been stopped. */
  function Seen(known: Option<Entry>, sample: Option<Sample>, id: nat): Option<Entry> {
    if known.Some? && sample.None? then Some(known.value.(connected := false)) else Refreshed(known, sample, id)
  }

  /** Same places, same ids. */
  ghost predicate Aligned(before: seq<Entry>, after: seq<Entry>) {
    |before| == |after| && forall i :: 0 <= i < |before| ==> after[i].id == before[i].id
  }

  ghost predicate KeepsIds(before: seq<Entry>, after: seq<Entry>) {
    |before| <= |after| && forall i :: 0 <= i < |before| ==> after[i].id == before[i].id
  }

  /** An enumeration: every id keeps its place, and is refreshed by the last sample of it. */
  ghost predicate Enumerated(before: seq<Entry>, samples: seq<Sample>, after: seq<Entry>) {
    && KeepsIds(before, after)
    && forall id :: Find(after, id) == Refreshed(Find(before, id), LastSample(samples, id), id)
  }

  /** In aligned sequences an id is found at the same place. */
  lemma {:induction false} FindsTogether(a: seq<Entry>, b: seq<Entry>, id: nat) returns (i: nat)
    requires Aligned(a, b)
    ensures Find(a, id).None? <==> Find(b, id).None?
    ensures Find(a, id).Some? ==> i < |a| && Find(a, id) == Some(a[i]) && Find(b, id) == Some(b[i])
    decreases |a|
  {
    i := 0;
    if a != [] && a[0].id != id {
      var k := FindsTogether(a[1..], b[1..], id);
      i := k + 1;
    }
  }

  lemma {:induction false} FewerStream(a: seq<Entry>, b: seq<Entry>)
    requires |a| == |b| && forall i :: 0 <= i < |a| && b[i].streaming ==> a[i].streaming
    ensures Streaming(b) <= Streaming(a)
  {
    if a != [] {
      FewerStream(a[1..], b[1..]);
    }
  }

  lemma {:induction false} FindAfterPush(outputs: seq<Entry>, e: Entry, id: nat)
    ensures Find(outputs + [e], id)
         == if Find(outputs, id).Some? then Find(outputs, id) else if e.id == id then Some(e) else None
  {
    if outputs == [] {
      assert outputs + [e] == [e];
    } else {
      assert (outputs + [e])[1..] == outputs[1..] + [e];
      FindAfterPush(outputs[1..], e, id);
    }
  }

  lemma FindAfterUpdate(outputs: seq<Entry>, i: nat, e: Entry, id: nat)
    requires i < |outputs| && UniqueIds(outputs) && e.id == outputs[i].id
    ensures Find(outputs[i := e], id) == if id == e.id then Some(e) else Find(outputs, id)
  {
    var k := FindsTogether(outputs, outputs[i := e], id);
    if id == e.id {
      assert Find(outputs, id).Some? by {
        if Find(outputs, id).None? {
          NoneMeansAbsent(outputs, id);
        }
      }
      assert outputs[k].id == id by {
        FoundHasId(outputs, id);
      }
    } else if Find(outputs, id).Some? {
      FoundHasId(outputs, id);
    }
  }

  lemma {:induction false} FoundHasId(outputs: seq<Entry>, id: nat)
    ensures Find(outputs, id).Some? ==> Find(outputs, id).value.id == id
  {
    if outputs != [] {
      FoundHasId(outputs[1..], id);
    }
  }

  lemma {:induction false} NoneMeansAbsent(outputs: seq<Entry>, id: nat)
    requires Find(outputs, id).None?
    ensures forall i :: 0 <= i < |outputs| ==> outputs[i].id != id
  {
    if outputs != [] {
      NoneMeansAbsent(outputs[1..], id);
      assert forall i :: 0 < i < |outputs| ==> outputs[i] == outputs[1..][i - 1];
    }
  }

  /** `transform_point`: the quotient truncates toward zero, and the cast keeps 32 bits. */
  function Quotient(n: int, d: nat): int
    requires d > 0
  {
    if n >= 0 then n / d else -(-n / d)
  }

  const TWO_31 := 0x8000_0000
  const TWO_32 := 0x1_0000_0000

  function ToInt32(n: int): int {
    (n + TWO_31) % TWO_32 - TWO_31
  }

  function Scale(v: int, to: nat, from: nat): int
    requires from > 0
  {
    ToInt32(Quotient(v * to, from))
  }

  function Settled(e: Entry): Entry {
    if e.connected then e else e.(streaming := false)
  }

  function SettledIfAny(e: Option<Entry>): Option<Entry> {
    if e.Some? then Some(Settled(e.value)) else None
  }

  lemma SettledIs(known: Option<Entry>, sample: Option<Sample>, id: nat)
    ensures Refreshed(known, sample, id) == SettledIfAny(Seen(known, sample, id))
  {
  }

  class OutputRegistry {
    const maxStreams: nat
    var outputs: seq<Entry>

    constructor (maxStreams: nat)
      ensures Valid() && outputs == [] && this.maxStreams == maxStreams
    {
      this.maxStreams, outputs := maxStreams, [];
    }

    /** Ids are unique, only connected outputs stream, and no more of them than the cap. */
    ghost predicate Valid()
      reads this
    {
      && UniqueIds(outputs)
      && (forall i :: 0 <= i < |outputs| && outputs[i].streaming ==> outputs[i].connected)
      && Streaming(outputs) <= maxStreams
    }

    /** First pass: nothing is connected. */
    method Disconnect()
      requires UniqueIds(outputs)
      modifies this`outputs
      ensures UniqueIds(outputs) && Aligned(old(outputs), outputs) && Streaming(outputs) <= Streaming(old(outputs))
      ensures forall id :: Find(outputs, id) == Seen(Find(old(outputs), id), None, id)
    {
      for i := 0 to |outputs|
        invariant |outputs| == |old(outputs)|
        invariant forall j :: 0 <= j < |outputs| ==>
                    outputs[j] == if j < i then old(outputs)[j].(connected := false) else old(outputs)[j]
      {
        outputs := outputs[i := outputs[i].(connected := false)];
      }
      FewerStream(old(outputs), outputs);
      forall id
        ensures Find(outputs, id) == Seen(Find(old(outputs), id), None, id)
      {
        var i := FindsTogether(old(outputs), outputs, id);
      }
    }

    /** Second pass, one sample: a known output is refreshed in place, a new one goes to the end. */
    method See(sample: Sample)
      requires UniqueIds(outputs)
      modifies this`outputs
      ensures UniqueIds(outputs) && KeepsIds(old(outputs), outputs) && Streaming(outputs) == Streaming(old(outputs))
      ensures forall id :: Find(outputs, id) == if id == OutputIds.OutputId(sample.edid)
                             then Refreshed(Find(old(outputs), id), Some(sample), id) else Find(old(outputs), id)
    {
      var id := OutputIds.EdidOutputId(sample.edid);
      for i := 0 to |outputs|
        invariant outputs == old(outputs) && NotBefore(outputs, id, i)
      {
        FindsFirst(outputs, id, i);
        if outputs[i].id == id {
          var e := outputs[i].(osIndex := sample.osIndex, dpi := sample.dpi, connected := true);
          StreamingWith(outputs, i, e);
          forall other
            ensures Find(outputs[i := e], other) == if other == id then Some(e) else Find(outputs, other)
          {
            FindAfterUpdate(outputs, i, e, other);
          }
          outputs := outputs[i := e];
          return;
        }
      }
      FindsFirst(outputs, id, |outputs|);
      var e := Entry(id, sample.osIndex, sample.dpi, true, false);
      StreamingAdds(outputs, e);
      forall other
        ensures Find(outputs + [e], other) == if other == id then Some(e) else Find(outputs, other)
      {
        FindAfterPush(outputs, e, other);
      }
      outputs := outputs + [e];
    }

    /** Third pass: what is not connected does not stream. */
    method StopLost()
      requires UniqueIds(outputs)
      modifies this`outputs
      ensures UniqueIds(outputs) && Aligned(old(outputs), outputs) && Streaming(outputs) <= Streaming(old(outputs))
      ensures forall i :: 0 <= i < |outputs| ==> outputs[i] == Settled(old(outputs)[i])
      ensures forall id :: Find(outputs, id) == SettledIfAny(Find(old(outputs), id))
    {
      for i := 0 to |outputs|
        invariant |outputs| == |old(outputs)|
        invariant forall j :: 0 <= j < |outputs| ==>
                    outputs[j] == if j < i then Settled(old(outputs)[j]) else old(outputs)[j]
      {
        if !outputs[i].connected {
          outputs := outputs[i := outputs[i].(streaming := false)];
        }
      }
      FewerStream(old(outputs), outputs);
      forall id
        ensures Find(outputs, id) == SettledIfAny(Find(old(outputs), id))
      {
        var i := FindsTogether(old(outputs), outputs, id);
      }
    }

    /** `enumerate`. */
    method Enumerate(samples: seq<Sample>)
      requires Valid()
      modifies this`outputs
      ensures Valid() && Enumerated(old(outputs), samples, outputs)
    {
      Disconnect();
      for k := 0 to |samples|
        invariant UniqueIds(outputs) && KeepsIds(old(outputs), outputs) && Streaming(outputs) <= maxStreams
        invariant forall id :: Find(outputs, id) == Seen(Find(old(outputs), id), LastSample(samples[..k], id), id)
      {
        assert samples[..k + 1] == samples[..k] + [samples[k]];
        assert Front(samples[..k + 1]) == samples[..k];
        See(samples[k]);
      }
      assert samples[..|samples|] == samples;
      StopLost();
      forall id
        ensures Find(outputs, id) == Refreshed(Find(old(outputs), id), LastSample(samples, id), id)
      {
        SettledIs(Find(old(outputs), id), LastSample(samples, id), id);
      }
    }

    method TryStream(id: nat) returns (started: bool)
      requires Valid()
      modifies this`outputs
      ensures Valid() && |outputs| == |old(outputs)|
      ensures var e := Find(old(outputs), id);
              started <==> Streaming(old(outputs)) < maxStreams && e.Some? && e.value.connected && !e.value.streaming
      ensures forall i :: 0 <= i < |outputs| ==>
                outputs[i] == if started && old(outputs)[i].id == id then old(outputs)[i].(streaming := true)
                              else old(outputs)[i]
    {
      var count := StreamingCount();
      if count >= maxStreams {
        return false;
      }
      for i := 0 to |outputs|
        invariant outputs == old(outputs) && NotBefore(outputs, id, i)
      {
        FindsFirst(outputs, id, i);
        if outputs[i].id == id {
          started := outputs[i].connected && !outputs[i].streaming;
          if started {
            StreamingWith(outputs, i, outputs[i].(streaming := true));
            outputs := outputs[i := outputs[i].(streaming := true)];
          }
          return;
        }
      }
      FindsFirst(outputs, id, |outputs|);
      started := false;
    }

    method StopStream(id: nat) returns (stopped: bool)
      requires Valid()
      modifies this`outputs
      ensures Valid() && |outputs| == |old(outputs)|
      ensures var e := Find(old(outputs), id); stopped <==> e.Some? && e.value.streaming
      ensures forall i :: 0 <= i < |outputs| ==>
                outputs[i] == if old(outputs)[i].id == id then old(outputs)[i].(streaming := false) else old(outputs)[i]
    {
      for i := 0 to |outputs|
        invariant outputs == old(outputs) && NotBefore(outputs, id, i)
      {
        FindsFirst(outputs, id, i);
        if outputs[i].id == id {
          stopped := outputs[i].streaming;
          if stopped {
            StreamingWith(outputs, i, outputs[i].(streaming := false));
            outputs := outputs[i := outputs[i].(streaming := false)];
          }
          return;
        }
      }
      FindsFirst(outputs, id, |outputs|);
      stopped := false;
    }

    /** `transform_point`. */
    function TransformPoint(from: nat, to: nat, x: int, y: int): (p: Option<(int, int)>)
      reads this
      ensures p.None? <==> Find(outputs, from).None? || Find(outputs, to).None? || Find(outputs, from).value.dpi == 0
    {
      var src, dst := Find(outputs, from), Find(outputs, to);
      if src.None? || dst.None? || src.value.dpi == 0 then None
      else Some((Scale(x, dst.value.dpi, src.value.dpi), Scale(y, dst.value.dpi, src.value.dpi)))
    }

    method StreamingCount() returns (count: nat)
      ensures count == Streaming(outputs)
    {
      count := 0;
      for i := 0 to |outputs|
        invariant count == Streaming(outputs[..i])
      {
        assert outputs[..i + 1] == outputs[..i] + [outputs[i]];
        StreamingAdds(outputs[..i], outputs[i]);
        if outputs[i].streaming {
          count := count + 1;
        }
      }
      assert outputs[..|outputs|] == outputs;
    }
  }

  // ---- Order -------------------------------------------------------------------------------

  /** Distinct monitors: no two samples of an enumeration have the same id. */
  ghost predicate DistinctIds(samples: seq<Sample>) {
    forall i, j :: 0 <= i < j < |samples| ==>
      OutputIds.OutputId(samples[i].edid) != OutputIds.OutputId(samples[j].edid)
  }

  lemma {:induction false} LastSampleIs(samples: seq<Sample>, id: nat)
    requires DistinctIds(samples)
    ensures forall s :: s in samples && OutputIds.OutputId(s.edid) == id <==> LastSample(samples, id) == Some(s)
  {
    if samples != [] {
      FrontThenLast(samples);
      LastSampleIs(Front(samples), id);
      forall s
        ensures s in samples && OutputIds.OutputId(s.edid) == id <==> LastSample(samples, id) == Some(s)
      {
        if s in Front(samples) && OutputIds.OutputId(s.edid) == id {
          var i :| 0 <= i < |samples| - 1 && samples[i] == s;
          assert OutputIds.OutputId(samples[i].edid) != OutputIds.OutputId(Last(samples).edid);
        }
      }
    }
  }

  lemma SameLast(a: seq<Sample>, b: seq<Sample>, id: nat)
    requires DistinctIds(a) && DistinctIds(b) && forall s :: s in a <==> s in b
    ensures LastSample(a, id).Some? ==> LastSample(b, id) == LastSample(a, id)
  {
    LastSampleIs(a, id);
    LastSampleIs(b, id);
    if LastSample(a, id).Some? {
      assert LastSample(a, id) == Some(LastSample(a, id).value);
    }
  }

  /** The order in which the system lists its monitors makes no difference to what is known of any of them. */
  lemma OrderDoesNotMatter(known: Option<Entry>, a: seq<Sample>, b: seq<Sample>, id: nat)
    requires DistinctIds(a) && DistinctIds(b) && forall s :: s in a <==> s in b
    ensures Refreshed(known, LastSample(a, id), id) == Refreshed(known, LastSample(b, id), id)
  {
    SameLast(a, b, id);
    SameLast(b, a, id);
  }

  lemma FoundAtItsPlace(outputs: seq<Entry>, i: nat)
    requires i < |outputs| && UniqueIds(outputs)
    ensures Find(outputs, outputs[i].id) == Some(outputs[i])
  {
    FindsFirst(outputs, outputs[i].id, i);
  }

  /** The sample at `k` is the last one of the output. */
  ghost predicate IsLatest(samples: seq<Sample>, id: nat, k: nat) {
    && k < |samples| && OutputIds.OutputId(samples[k].edid) == id
    && forall j :: k < j < |samples| ==> OutputIds.OutputId(samples[j].edid) != id
  }

  ghost predicate Unlisted(samples: seq<Sample>, id: nat) {
    forall j :: 0 <= j < |samples| ==> OutputIds.OutputId(samples[j].edid) != id
  }

  lemma {:induction false} LatestIs(samples: seq<Sample>, id: nat, k: nat)
    requires IsLatest(samples, id, k)
    ensures LastSample(samples, id) == Some(samples[k])
  {
    if k + 1 < |samples| {
      assert OutputIds.OutputId(Last(samples).edid) != id;
      LatestIs(Front(samples), id, k);
    }
  }

  lemma {:induction false} UnlistedIs(samples: seq<Sample>, id: nat)
    requires Unlisted(samples, id)
    ensures LastSample(samples, id) == None
  {
    if samples != [] {
      UnlistedIs(Front(samples), id);
    }
  }

  /** A known output that is not listed is disconnected and stops streaming; all else about it is remembered. */
  lemma UnlistedIsLost(before: seq<Entry>, samples: seq<Sample>, after: seq<Entry>, i: nat)
    requires Enumerated(before, samples, after) && UniqueIds(before) && UniqueIds(after)
    requires i < |before| && Unlisted(samples, before[i].id)
    ensures i < |after| && after[i] == Entry(before[i].id, before[i].osIndex, before[i].dpi, false, false)
  {
    UnlistedIs(samples, before[i].id);
    FoundAtItsPlace(before, i);
    FoundAtItsPlace(after, i);
  }

  /** One that is listed is connected, is what the last sample says of it, and streams if it did before. */
  lemma ListedIsRefreshed(before: seq<Entry>, samples: seq<Sample>, after: seq<Entry>, i: nat, k: nat)
    requires Enumerated(before, samples, after) && UniqueIds(before) && UniqueIds(after)
    requires i < |before| && IsLatest(samples, before[i].id, k)
    ensures i < |after|
    ensures after[i] == Entry(before[i].id, samples[k].osIndex, samples[k].dpi, true, before[i].streaming)
  {
    LatestIs(samples, before[i].id, k);
    FoundAtItsPlace(before, i);
    FoundAtItsPlace(after, i);
  }

  /** The entries that an enumeration adds are the listed outputs not known before, connected and idle. */
  lemma NewIsIdle(before: seq<Entry>, samples: seq<Sample>, after: seq<Entry>, id: nat, k: nat)
    requires Enumerated(before, samples, after) && UniqueIds(after)
    requires Find(before, id).None?
    ensures IsLatest(samples, id, k) ==> Entry(id, samples[k].osIndex, samples[k].dpi, true, false) in after
    ensures Unlisted(samples, id) ==> forall i :: 0 <= i < |after| ==> after[i].id != id
  {
    assert Find(after, id) == Refreshed(None, LastSample(samples, id), id);
    if IsLatest(samples, id, k) {
      LatestIs(samples, id, k);
      FoundIsIn(after, id);
    }
    if Unlisted(samples, id) {
      UnlistedIs(samples, id);
      NoneMeansAbsent(after, id);
    }
  }

  lemma {:induction false} FoundIsIn(outputs: seq<Entry>, id: nat)
    requires Find(outputs, id).Some?
    ensures Find(outputs, id).value in outputs
  {
    if outputs[0].id != id {
      FoundIsIn(outputs[1..], id);
    }
  }

  /** The states of a registry from one enumeration to the next. */
  ghost predicate History(states: seq<seq<Entry>>, lists: seq<seq<Sample>>) {
    && |states| == |lists| + 1
    && (forall k :: 0 <= k < |states| ==> UniqueIds(states[k]))
    && (forall k :: 0 <= k < |lists| ==> Enumerated(states[k], lists[k], states[k + 1]))
  }

  /** An output that no enumeration lists keeps its place, not connected and not streaming. */
  lemma {:induction false} StaysAway(states: seq<seq<Entry>>, lists: seq<seq<Sample>>, i: nat)
    requires History(states, lists) && lists != [] && i < |states[0]|
    requires forall k :: 0 <= k < |lists| ==> LastSample(lists[k], states[0][i].id).None?
    ensures i < |Last(states)| && Last(states)[i] == states[0][i].(connected := false, streaming := false)
    decreases |lists|
  {
    var n := |lists| - 1;
    if n > 0 {
      StaysAway(states[..n + 1], lists[..n], i);
    }
    assert Enumerated(states[n], lists[n], states[n + 1]);
    FoundAtItsPlace(states[n], i);
    FoundAtItsPlace(states[n + 1], i);
  }

  /**
   * A monitor that is unplugged and comes back, after any number of enumerations without it and
   * whatever else comes and goes: it has its id and its place, what the system now says of it, and
   * no stream.
   */
  lemma ReplugRestores(states: seq<seq<Entry>>, lists: seq<seq<Sample>>, back: seq<Sample>, after: seq<Entry>, i: nat)
    requires History(states, lists) && lists != [] && i < |states[0]|
    requires forall k :: 0 <= k < |lists| ==> LastSample(lists[k], states[0][i].id).None?
    requires Enumerated(Last(states), back, after) && UniqueIds(after) && LastSample(back, states[0][i].id).Some?
    ensures i < |after|
    ensures var s := LastSample(back, states[0][i].id).value;
            after[i] == Entry(states[0][i].id, s.osIndex, s.dpi, true, false)
  {
    StaysAway(states, lists, i);
    assert UniqueIds(states[|states| - 1]);
    FoundAtItsPlace(Last(states), i);
    FoundAtItsPlace(after, i);
  }

  // ---- Points ------------------------------------------------------------------------------

  /** Up and back, on one side of the origin: exact if the coordinate scales exactly, and one short otherwise. */
  lemma ThereAndBack(v: nat, from: nat, to: nat)
    requires 0 < from <= to
    ensures v * to % from != 0 ==> v > 0
    ensures (v * to / from) * from / to == if v * to % from == 0 then v else v - 1
  {
    var t, r := v * to / from, v * to % from;
    assert v * to == t * from + r;
    assert v == 0 ==> v * to == 0;
    if r == 0 {
      QuotientIs(t * from, to, v, 0);
    } else {
      assert t * from == (v - 1) * to + (to - r);
      QuotientIs(t * from, to, v - 1, to - r);
    }
  }

  predicate FitsInt32(n: int) { -TWO_31 <= n < TWO_31 }

  lemma FittingIsKept(n: int)
    requires FitsInt32(n)
    ensures ToInt32(n) == n
  {
  }

  /** What comes back before the cast. */
  function Returned(v: int, from: nat, to: nat): int
    requires 0 < from <= to
  {
    Quotient(Quotient(v * to, from) * from, to)
  }

  lemma QuotientNegates(n: int, d: nat)
    requires d > 0 && n >= 0
    ensures Quotient(-n, d) == -Quotient(n, d)
  {
  }

  lemma ProductNegates(m: int, k: int)
    ensures -m * k == -(m * k)
  {
  }

  lemma ReturnedIs(v: int, from: nat, to: nat)
    requires 0 < from <= to
    ensures Returned(v, from, to)
         == if (if v >= 0 then v else -v) * to % from == 0 then v else if v > 0 then v - 1 else v + 1
  {
    var m: nat := if v >= 0 then v else -v;
    ThereAndBack(m, from, to);
    if v < 0 {
      var t := m * to / from;
      ProductNegates(m, to);
      QuotientNegates(m * to, from);
      ProductNegates(t, from);
      QuotientNegates(t * from, to);
    }
  }

  /**
   * A coordinate mapped to an output of the same or a higher DPI and back: it returns exactly when
   * it scales without a remainder, and otherwise one step nearer to the origin.
   */
  lemma PointReturns(v: int, from: nat, to: nat)
    requires 0 < from <= to && FitsInt32(v) && FitsInt32(Quotient(v * to, from))
    ensures Scale(Scale(v, to, from), from, to)
         == if (if v >= 0 then v else -v) * to % from == 0 then v else if v > 0 then v - 1 else v + 1
  {
    FittingIsKept(Quotient(v * to, from));
    ReturnedIs(v, from, to);
    if v == 0 {
      assert 0 * to % from == 0;
    }
    FittingIsKept(Returned(v, from, to));
  }

  lemma TransformReturns(registry: OutputRegistry, from: nat, to: nat, x: int, y: int)
    requires var src, dst := Find(registry.outputs, from), Find(registry.outputs, to);
             && src.Some? && dst.Some? && 0 < src.value.dpi <= dst.value.dpi
             && FitsInt32(x) && FitsInt32(Quotient(x * dst.value.dpi, src.value.dpi))
             && FitsInt32(y) && FitsInt32(Quotient(y * dst.value.dpi, src.value.dpi))
    ensures var there := registry.TransformPoint(from, to, x, y);
            && there.Some?
            && var back := registry.TransformPoint(to, from, there.value.0, there.value.1);
               && back.Some?
               && -1 <= back.value.0 - x <= 1 && -1 <= back.value.1 - y <= 1
  {
    var src, dst := Find(registry.outputs, from).value.dpi, Find(registry.outputs, to).value.dpi;
    PointReturns(x, src, dst);
    PointReturns(y, src, dst);
  }

  /** `q` is `n / d` rounded toward zero. */
  ghost predicate IsTruncated(n: int, d: nat, q: int) {
    && (n >= 0 ==> q * d <= n < (q + 1) * d)
    && (n <= 0 ==> (q - 1) * d < n <= q * d)
  }

  lemma TruncatedIs(n: int, d: nat, q: int)
    requires d > 0 && IsTruncated(n, d, q)
    ensures Quotient(n, d) == q
  {
    assert (q + 1) * d == q * d + d && (q - 1) * d == q * d - d;
    if n >= 0 {
      AtLeastOne(-q, d);
      QuotientIs(n, d, q, n - q * d);
    } else {
      AtLeastOne(q, d);
      ProductNegates(q, d);
      assert -q * d == -(q * d);
      QuotientIs(-n, d, -q, q * d - n);
    }
  }

  /**
   * A point goes to where its coordinates times the DPI of the target over that of the source are,
   * rounded toward the origin, as 32-bit integers with wrap-around.
   */
  lemma PointScales(registry: OutputRegistry, source: Entry, target: Entry, x: int, y: int, u: int, v: int)
    requires source in registry.outputs && target in registry.outputs && UniqueIds(registry.outputs)
    requires 0 < source.dpi
    requires IsTruncated(x * target.dpi, source.dpi, u) && IsTruncated(y * target.dpi, source.dpi, v)
    ensures var p := registry.TransformPoint(source.id, target.id, x, y);
            && p.Some?
            && -0x8000_0000 <= p.value.0 < 0x8000_0000 && (p.value.0 - u) % 0x1_0000_0000 == 0
            && -0x8000_0000 <= p.value.1 < 0x8000_0000 && (p.value.1 - v) % 0x1_0000_0000 == 0
  {
    var i :| 0 <= i < |registry.outputs| && registry.outputs[i] == source;
    var j :| 0 <= j < |registry.outputs| && registry.outputs[j] == target;
    FoundAtItsPlace(registry.outputs, i);
    FoundAtItsPlace(registry.outputs, j);
    TruncatedIs(x * target.dpi, source.dpi, u);
    TruncatedIs(y * target.dpi, source.dpi, v);
  }
}
