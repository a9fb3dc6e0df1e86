/**
 * The broker worker end to end: events forwarded to the session, the disarm handshake, and what the
 * host still holds when the worker is done.
 */
module BrokerWorker {
  import opened Prelude
  import opened BrokerRouting
  import opened BrokerPipe

  /** The scan-code prefix chosen by the driver flags. */
  datatype Prefix = NoPrefix | PrefixE0 | PrefixE1

  /** `MapVirtualKeyW`, an input from the environment; `None` is its zero. */
  type KeyMap = (Word, Prefix) -> Option<Key>

  /** The router, the host it feeds, and the session queue's answers to the batches to come. */
  datatype Session = Session(routing: Routing, host: set<Key>, verdicts: seq<bool>, refused: bool, ready: bool)

  /** `send_batch`: all of the batch or none of it. */
  function Sent(s: Session, packets: seq<Packet>): (Session, bool) {
    var accepted := s.verdicts == [] || s.verdicts[0];
    var verdicts := if s.verdicts == [] then [] else s.verdicts[1..];
    if accepted then (s.(host := Fold(s.host, packets), verdicts := verdicts), true)
    else (s.(verdicts := verdicts, refused := true), false)
  }

  function KeyUp(flags: Word): bool { flags % 2 == 1 }

  function PrefixOf(flags: Word): Prefix {
    if flags / 2 % 2 == 1 then PrefixE0 else if flags / 4 % 2 == 1 then PrefixE1 else NoPrefix
  }

  /** One event of a batch. */
  function ForwardOne(keys: KeyMap, s: Session, event: seq<Byte>): Verdict<Session>
    requires |event| == EVENT_SIZE
  {
    if U16(event[0..2]) != 1 || U16(event[2..4]) != 1 then Halt(s, Fault(InvalidData))
    else
      var flags := U16(event[18..20]);
      var vk := keys(U16(event[16..18]), PrefixOf(flags));
      if vk.None? then Halt(s, Fault(InvalidData))
      else
        var out := Route(s.routing, vk.value, KeyUp(flags));
        var t := s.(routing := out.routing);
        if out.exit then Halt(t, Fault(Interrupted))
        else if out.disconnect then Halt(t, Fault(ConnectionAborted))
        else if out.packets == [] then Go(t)
        else
          var (u, accepted) := Sent(t, out.packets);
          if accepted then Go(u) else Halt(u, Fault(BrokenPipe))
  }

  function ForwardAll(keys: KeyMap, s: Session, count: nat, events: seq<Byte>): Verdict<Session>
    requires |events| == count * EVENT_SIZE
    decreases count
  {
    if count == 0 then Go(s)
    else
      match ForwardOne(keys, s, events[..EVENT_SIZE])
      case Go(t) => ForwardAll(keys, t, count - 1, events[EVENT_SIZE..])
      case Halt(t, why) => Halt(t, why)
  }

  /** `forward_broker_events`. */
  function Forward(keys: KeyMap, s: Session, payload: Payload): Verdict<Session> {
    if |payload| < 8 then Halt(s, Fault(InvalidData))
    else if U32(payload[4..8]) != 0 then Halt(s, Fault(InvalidData))
    else if |payload| != 8 + U32(payload[..4]) * EVENT_SIZE then Halt(s, Fault(InvalidData))
    else ForwardAll(keys, s, U32(payload[..4]), payload[8..])
  }

  class InputSender {
    var host: set<Key>
    var verdicts: seq<bool>
    var refused: bool

    method SendBatch(packets: seq<Packet>) returns (accepted: bool)
      modifies this
      ensures accepted == (old(verdicts) == [] || old(verdicts)[0])
      ensures verdicts == if old(verdicts) == [] then [] else old(verdicts)[1..]
      ensures host == if accepted then Fold(old(host), packets) else old(host)
      ensures refused == (old(refused) || !accepted)
    {
      accepted := verdicts == [] || verdicts[0];
      verdicts := if verdicts == [] then [] else verdicts[1..];
      if accepted {
        host := Fold(host, packets);
      } else {
        refused := true;
      }
    }
  }

  ghost function Seen(router: BrokerRouter, sender: InputSender, ready: bool): Session
    reads router, sender
  {
    Session(router.Value(), sender.host, sender.verdicts, sender.refused, ready)
  }

  ghost function ToVerdict(s: Session, error: Option<ErrorKind>): Verdict<Session> {
    if error.None? then Go(s) else Halt(s, Fault(error.value))
  }

  method ForwardEvent(keys: KeyMap, event: seq<Byte>, sender: InputSender, router: BrokerRouter, ghost ready: bool)
    returns (error: Option<ErrorKind>)
    requires |event| == EVENT_SIZE
    modifies sender, router
    ensures ToVerdict(Seen(router, sender, ready), error) == ForwardOne(keys, old(Seen(router, sender, ready)), event)
  {
    if U16(event[0..2]) != 1 || U16(event[2..4]) != 1 {
      return Some(InvalidData);
    }
    var flags := U16(event[18..20]);
    var vk := keys(U16(event[16..18]), PrefixOf(flags));
    if vk.None? {
      return Some(InvalidData);
    }
    var packets, exit, disconnect := router.RouteKey(vk.value, KeyUp(flags));
    if exit {
      return Some(Interrupted);
    }
    if disconnect {
      return Some(ConnectionAborted);
    }
    error := None;
    if packets != [] {
      var accepted := sender.SendBatch(packets);
      if !accepted {
        error := Some(BrokenPipe);
      }
    }
  }

  method ForwardEvents(keys: KeyMap, count: nat, batch: seq<Byte>, sender: InputSender,
                       router: BrokerRouter, ghost ready: bool)
    returns (error: Option<ErrorKind>)
    requires |batch| == count * EVENT_SIZE
    modifies sender, router
    ensures ToVerdict(Seen(router, sender, ready), error)
            == ForwardAll(keys, old(Seen(router, sender, ready)), count, batch)
  {
    ghost var s := Seen(router, sender, ready);
    ghost var goal := ForwardAll(keys, s, count, batch);
    var left, events := count, batch;
    error := None;
    while left > 0
      invariant |events| == left * EVENT_SIZE && error.None? && s == Seen(router, sender, ready)
      invariant ForwardAll(keys, s, left, events) == goal
    {
      error := ForwardEvent(keys, events[..EVENT_SIZE], sender, router, ready);
      s := Seen(router, sender, ready);
      if error.Some? {
        return;
      }
      left, events := left - 1, events[EVENT_SIZE..];
    }
  }

  method ForwardBrokerEvents(keys: KeyMap, payload: Payload, sender: InputSender,
                             router: BrokerRouter, ghost ready: bool)
    returns (error: Option<ErrorKind>)
    modifies sender, router
    ensures ToVerdict(Seen(router, sender, ready), error) == Forward(keys, old(Seen(router, sender, ready)), payload)
  {
    if |payload| < 8 {
      return Some(InvalidData);
    }
    if U32(payload[4..8]) != 0 || |payload| != 8 + U32(payload[..4]) * EVENT_SIZE {
      return Some(InvalidData);
    }
    error := ForwardEvents(keys, U32(payload[..4]), payload[8..], sender, router, ready);
  }

  // ---- The whole worker --------------------------------------------------------------------

  function PumpMessage(keys: KeyMap, s: Session, m: Message): Verdict<Session> {
    if m.kind == KIND_STATUS then
      if m.payload == [1] then Go(s.(ready := true))
      else if m.payload == [0] then Go(s)
      else Halt(s, Fault(InvalidData))
    else if m.kind == KIND_EVENTS then Forward(keys, s, m.payload)
    else Halt(s, Fault(InvalidData))
  }

  function PumpHandler(keys: KeyMap): Handler<Session> {
    (s: Session, m: Message) => PumpMessage(keys, s, m)
  }

  /** While disarming, events are discarded and only the status that acknowledges ends the loop well. */
  function DisarmMessage(m: Message): Verdict<()> {
    if m.kind == KIND_STATUS && m.payload == [0] then Halt((), Acknowledged)
    else if m.kind == KIND_EVENTS || (m.kind == KIND_STATUS && m.payload == [1]) then Go(())
    else Halt((), Fault(InvalidData))
  }

  function DisarmHandler(): Handler<()> {
    (u: (), m: Message) => DisarmMessage(m)
  }

  /** The pump takes the two statuses and batches of events, and nothing else. */
  lemma PumpTakes(keys: KeyMap, s: Session, m: Message)
    ensures m.kind == 4 && m.payload == [1] ==> PumpMessage(keys, s, m) == Go(s.(ready := true))
    ensures m.kind == 4 && m.payload == [0] ==> PumpMessage(keys, s, m) == Go(s)
    ensures (m.kind != 3 && m.kind != 4) || (m.kind == 4 && m.payload != [0] && m.payload != [1]) ==>
              PumpMessage(keys, s, m) == Halt(s, Fault(InvalidData))
  {
  }

  /** Only the status 0 acknowledges `DISARM`; events and the status 1 are passed over, all else is invalid. */
  lemma DisarmTakes(m: Message)
    ensures DisarmMessage(m) == Halt((), Acknowledged) <==> m.kind == 4 && m.payload == [0]
    ensures DisarmMessage(m) == Go(()) <==> m.kind == 3 || (m.kind == 4 && m.payload == [1])
    ensures DisarmMessage(m).Halt? && DisarmMessage(m).why != Acknowledged ==>
              DisarmMessage(m).why == Fault(InvalidData)
  {
  }

  /** A batch that is not a number of whole events behind its header is invalid. */
  lemma BadBatchIsRefused(keys: KeyMap, s: Session, payload: Payload)
    requires |payload| < 8 || payload[4..8] != [0, 0, 0, 0] || |payload| != 8 + 32 * U32(payload[..4])
    ensures Forward(keys, s, payload) == Halt(s, Fault(InvalidData))
  {
    if |payload| >= 8 && U32(payload[4..8]) == 0 {
      var b := payload[4..8];
      assert b[..2][0] == b[0] && b[..2][1] == b[1] && b[2..][0] == b[2] && b[2..][1] == b[3];
      assert b == [b[0], b[1], b[2], b[3]];
    }
  }

  /** What `write_all` and `flush` report on a pipe: `write_all` retries an `Interrupted` itself. */
  type WriteKind = k: ErrorKind | k != Interrupted witness BrokenPipe

  /** Everything the worker meets: pipe calls that may fail, the bytes it reads, the session's answers. */
  datatype Environment = Environment(
    openFault: Option<ErrorKind>,
    setupFault: Option<ErrorKind>,
    armFault: Option<WriteKind>,
    verdicts: seq<bool>,
    pumpReads: seq<Read>,
    disarmFault: Option<WriteKind>,
    disarmReads: seq<Read>)

  datatype Outcome = Outcome(error: Option<ErrorKind>, ownershipStarted: bool, acknowledged: bool, host: set<Key>)

  function Pumped(keys: KeyMap, e: Environment): Pulled<Session> {
    Pull(PumpHandler(keys), true, Session(IDLE, {}, e.verdicts, false, false), [], e.pumpReads)
  }

  function FaultOf(exit: Option<Exit>): Option<ErrorKind> {
    if exit.Some? && exit.value.Fault? then Some(exit.value.kind) else None
  }

  /** `request_broker_disarm`: the bytes already buffered first, then reads until the deadline. */
  function Disarmed(e: Environment, buffer: seq<Byte>): Option<ErrorKind> {
    if e.disarmFault.Some? then e.disarmFault
    else
      var d := Drain(DisarmHandler(), false, (), buffer);
      if d.exit.Some? then FaultOf(d.exit)
      else
        var p := Pull(DisarmHandler(), false, (), d.rest, e.disarmReads);
        if p.exit.Some? then FaultOf(p.exit) else Some(TimedOut)
  }

  /** Release the keys still down, in one batch when there are any. */
  function Released(s: Session): (Session, Option<ErrorKind>) {
    var (routing, packets) := Release(s.routing);
    var t := s.(routing := routing);
    if packets == [] then (t, None)
    else
      var (u, accepted) := Sent(t, packets);
      (u, if accepted then None else Some(BrokenPipe))
  }

  /** `run_broker_capture`. */
  function Run(keys: KeyMap, e: Environment): Outcome {
    if e.openFault.Some? then Outcome(e.openFault, false, false, {})
    else if e.setupFault.Some? then Outcome(e.setupFault, false, false, {})
    else if e.armFault.Some? then Outcome(e.armFault, true, false, {})
    else
      var p := Pumped(keys, e);
      var disarm := Disarmed(e, p.rest);
      var (s, release) := Released(p.state);
      var error := if disarm.Some? then disarm else if release.Some? then release else FaultOf(p.exit);
      Outcome(error, true, disarm.None?, s.host)
  }

  datatype Request = NoRequest | ExitCapture | Disconnect

  /** What the worker's thread asks of the session when `run_broker_capture` returns. */
  function RequestOf(o: Outcome): Request {
    if o.error == Some(Interrupted) then ExitCapture
    else if o.error.Some? && o.ownershipStarted then Disconnect
    else NoRequest
  }

  /** Until a batch is refused the host holds what the router remembers; a refusal is a broken pipe. */
  ghost predicate Tracked(s: Session) {
    !s.refused ==> InStep(s.routing, s.host)
  }

  ghost predicate SoundVerdict(v: Verdict<Session>) {
    Tracked(v.state) && (v.state.refused ==> v == Halt(v.state, Fault(BrokenPipe)))
  }

  lemma ForwardOneTracks(keys: KeyMap, s: Session, event: seq<Byte>)
    requires |event| == EVENT_SIZE && Tracked(s) && !s.refused
    ensures SoundVerdict(ForwardOne(keys, s, event))
  {
    var flags := U16(event[18..20]);
    var vk := keys(U16(event[16..18]), PrefixOf(flags));
    if vk.Some? {
      RouteKeepsInStep(s.routing, s.host, vk.value, KeyUp(flags));
    }
  }

  lemma {:induction false} ForwardAllTracks(keys: KeyMap, s: Session, count: nat, events: seq<Byte>)
    requires |events| == count * EVENT_SIZE && Tracked(s) && !s.refused
    ensures SoundVerdict(ForwardAll(keys, s, count, events))
    decreases count
  {
    if count > 0 {
      ForwardOneTracks(keys, s, events[..EVENT_SIZE]);
      var v := ForwardOne(keys, s, events[..EVENT_SIZE]);
      if v.Go? {
        ForwardAllTracks(keys, v.state, count - 1, events[EVENT_SIZE..]);
      }
    }
  }

  lemma PumpMessageTracks(keys: KeyMap, s: Session, m: Message)
    requires Tracked(s) && !s.refused
    ensures SoundVerdict(PumpMessage(keys, s, m))
  {
    if m.kind == KIND_EVENTS && |m.payload| >= 8 && |m.payload| == 8 + U32(m.payload[..4]) * EVENT_SIZE {
      ForwardAllTracks(keys, s, U32(m.payload[..4]), m.payload[8..]);
    }
  }

  lemma {:induction false} DrainTracks(keys: KeyMap, s: Session, buffer: seq<Byte>)
    requires Tracked(s) && !s.refused
    ensures var d := Drain(PumpHandler(keys), true, s, buffer);
            Tracked(d.state) && (d.state.refused ==> d.exit == Some(Fault(BrokenPipe)))
    decreases |buffer|
  {
    var r := ScanFront(buffer);
    if r.Found? {
      PumpMessageTracks(keys, s, r.message);
      if PumpMessage(keys, s, r.message).Go? {
        DrainTracks(keys, PumpMessage(keys, s, r.message).state, r.rest);
      }
    }
  }

  lemma {:induction false} PullTracks(keys: KeyMap, s: Session, buffer: seq<Byte>, pieces: seq<Read>)
    requires Tracked(s) && !s.refused
    ensures var p := Pull(PumpHandler(keys), true, s, buffer, pieces);
            Tracked(p.state) && (p.state.refused ==> p.exit == Some(Fault(BrokenPipe)))
    decreases |pieces|
  {
    if pieces != [] {
      if pieces[0].NothingYet? {
        PullTracks(keys, s, buffer, pieces[1..]);
      } else if pieces[0].Bytes? {
        DrainTracks(keys, s, buffer + pieces[0].bytes);
        var d := Drain(PumpHandler(keys), true, s, buffer + pieces[0].bytes);
        if d.exit.None? {
          PullTracks(keys, d.state, d.rest, pieces[1..]);
        }
      }
    }
  }

  /**
   * The worker's contract: an end with `Ok` or `Interrupted` leaves the host with no key the broker
   * pressed, and once `ARM` may have been sent, either the driver acknowledged `DISARM` and the host
   * is clean, or the session is told to disconnect.
   */
  ghost predicate EndsSafely(keys: KeyMap, e: Environment) {
    var o := Run(keys, e);
    && (o.error.None? || o.error == Some(Interrupted) ==> o.host == {})
    && (o.ownershipStarted ==> (o.host == {} && o.acknowledged) || RequestOf(o) == Disconnect)
  }

  /** The kinds of error that reads of the pipe report while the worker waits for `DISARM` to be acknowledged. */
  function DisarmKinds(e: Environment): set<ErrorKind> {
    set r | r in e.disarmReads && r.ReadFailed? :: r.kind
  }

  lemma {:induction false} DisarmFaultKind(u: (), buffer: seq<Byte>, pieces: seq<Read>)
    ensures Pull(DisarmHandler(), false, u, buffer, pieces).exit == Some(Fault(Interrupted))
            ==> ReadFailed(Interrupted) in pieces
    decreases |pieces|
  {
    if pieces != [] {
      assert forall r :: r in pieces[1..] ==> r in pieces;
      match pieces[0] {
        case NothingYet => DisarmFaultKind(u, buffer, pieces[1..]);
        case Bytes(bytes) =>
          DrainFaultKind(u, buffer + bytes);
          var d := Drain(DisarmHandler(), false, u, buffer + bytes);
          DisarmFaultKind(d.state, d.rest, pieces[1..]);
        case _ =>
      }
    }
  }

  lemma {:induction false} DrainFaultKind(u: (), buffer: seq<Byte>)
    ensures Drain(DisarmHandler(), false, u, buffer).exit != Some(Fault(Interrupted))
    decreases |buffer|
  {
    var r := ScanFront(buffer);
    if r.Found? {
      DrainFaultKind((), r.rest);
    }
  }

  lemma DisarmInterruptedOnlyByPipe(e: Environment, buffer: seq<Byte>)
    requires Interrupted !in DisarmKinds(e)
    ensures Disarmed(e, buffer) != Some(Interrupted)
  {
    if e.disarmFault.None? {
      DrainFaultKind((), buffer);
      DisarmFaultKind((), Drain(DisarmHandler(), false, (), buffer).rest, e.disarmReads);
    }
  }

  /**
   * For every event stream, every split into reads and every pattern of refused batches the worker
   * ends safely, as long as no read of the disarm handshake itself reports `Interrupted`.
   */
  lemma WorkerEndsSafely(keys: KeyMap, e: Environment)
    requires Interrupted !in DisarmKinds(e)
    ensures EndsSafely(keys, e)
  {
    if e.openFault.None? && e.setupFault.None? && e.armFault.None? {
      PullTracks(keys, Session(IDLE, {}, e.verdicts, false, false), [], e.pumpReads);
      var p := Pumped(keys, e);
      DisarmInterruptedOnlyByPipe(e, p.rest);
      if !p.state.refused {
        ReleaseEmptiesHost(p.state.routing, p.state.host);
      }
    }
  }

  /** The pipe opens and takes `ARM`. */
  predicate Arms(e: Environment) {
    e.openFault.None? && e.setupFault.None? && e.armFault.None?
  }

  /** Before `ARM` the worker owns nothing; a failing `ARM` may have reached the driver. */
  lemma FailedArmIsReported(keys: KeyMap, e: Environment)
    requires !Arms(e)
    ensures var o := Run(keys, e);
            && o.host == {} && !o.acknowledged
            && o.error == (if e.openFault.Some? then e.openFault
                           else if e.setupFault.Some? then e.setupFault else e.armFault)
            && (o.ownershipStarted <==> e.openFault.None? && e.setupFault.None?)
            && RequestOf(o) == if o.error == Some(Interrupted) then ExitCapture
                               else if o.ownershipStarted then Disconnect else NoRequest
  {
  }

  /**
   * The error of the handshake comes first; once it is acknowledged that of lifts which the session
   * refuses; and then what stopped the pump.
   */
  lemma FirstErrorIsReported(keys: KeyMap, e: Environment)
    requires Arms(e)
    ensures var o, p := Run(keys, e), Pumped(keys, e);
            var refused := p.state.routing.sentDown != [] && p.state.verdicts != [] && !p.state.verdicts[0];
            && o.ownershipStarted
            && (e.disarmFault.Some? ==> o.error == e.disarmFault && !o.acknowledged)
            && (o.acknowledged && refused ==> o.error == Some(BrokenPipe))
            && (o.acknowledged && !refused ==>
                  o.error == if p.exit.Some? && p.exit.value.Fault? then Some(p.exit.value.kind) else None)
  {
  }

  lemma {:induction false} NothingIsPulled<S>(handle: Handler<S>, keeps: bool, state: S, pieces: seq<Read>)
    requires forall r :: r in pieces ==> r == NothingYet
    ensures Pull(handle, keeps, state, [], pieces) == Pulled(state, [], [], [], None)
    decreases |pieces|
  {
    if pieces != [] {
      assert pieces[0] in pieces && forall r :: r in pieces[1..] ==> r in pieces;
      NothingIsPulled(handle, keeps, state, pieces[1..]);
    }
  }

  /** A driver that says nothing makes the handshake time out, and the session is cut. */
  lemma SilenceTimesOut(keys: KeyMap, e: Environment)
    requires Arms(e) && e.disarmFault.None?
    requires forall r :: r in e.pumpReads + e.disarmReads ==> r == NothingYet
    ensures Run(keys, e) == Outcome(Some(TimedOut), true, false, {}) && RequestOf(Run(keys, e)) == Disconnect
  {
    assert forall r :: r in e.pumpReads || r in e.disarmReads ==> r in e.pumpReads + e.disarmReads;
    NothingIsPulled(PumpHandler(keys), true, Session(IDLE, {}, e.verdicts, false, false), e.pumpReads);
    NothingIsPulled(DisarmHandler(), false, (), e.disarmReads);
  }

  /** A pipe that is closed, or fails to be read, stops either loop with the error of that. */
  lemma ReadErrorStops<S>(handle: Handler<S>, keeps: bool, state: S, buffer: seq<Byte>, pieces: seq<Read>)
    requires pieces != [] && (pieces[0].Closed? || pieces[0].ReadFailed?)
    ensures var p := Pull(handle, keeps, state, buffer, pieces);
            && p.state == state && p.handled == [] && p.rest == buffer
            && p.exit == Some(Fault(if pieces[0].Closed? then BrokenPipe else pieces[0].kind))
  {
  }

  /**
   * The worker takes any `Interrupted` for the user's local chord, so the contract holds for a pipe
   * whose reads fail with the given kinds of error during the disarm handshake if and only if
   * `Interrupted` is not among them.
   */
  lemma SafeExactlyWithoutInterrupted(keys: KeyMap, kinds: set<ErrorKind>)
    ensures (forall e :: DisarmKinds(e) <= kinds ==> EndsSafely(keys, e)) <==> Interrupted !in kinds
  {
    if Interrupted in kinds {
      var e := Environment(None, None, None, [], [], None, [ReadFailed(Interrupted)]);
      assert DisarmKinds(e) <= {Interrupted};
      assert Run(keys, e) == Outcome(Some(Interrupted), true, false, {});
      assert !EndsSafely(keys, e);
    } else {
      forall e | DisarmKinds(e) <= kinds
        ensures EndsSafely(keys, e)
      {
        WorkerEndsSafely(keys, e);
      }
    }
  }
}
