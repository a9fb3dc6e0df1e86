/**
 * The byte stream of the input broker and the worker that reads it (`run_broker_capture`,
 * `request_broker_disarm` and `forward_broker_events` in app-native/src/input.rs).
 */
module BrokerPipe {
  import opened Prelude

  const HEADER_SIZE := 12
  const EVENT_SIZE := 32
  const MAX_PAYLOAD := 0x1_0000
  const KIND_EVENTS := 3
  const KIND_STATUS := 4
  const MAGIC: seq<Byte> := [0x42, 0x50, 0x4B, 0x31]  // "BPK1"

  datatype ErrorKind = Interrupted | BrokenPipe | InvalidData | ConnectionAborted | TimedOut | OtherKind

  // ---- Framing -----------------------------------------------------------------------------

  type Word = n: nat | n < 0x1_0000
  type Payload = p: seq<Byte> | |p| <= MAX_PAYLOAD

  function U16(b: seq<Byte>): Word
    requires |b| == 2
  {
    (b[0] as int) + 0x100 * (b[1] as int)
  }

  function U32(b: seq<Byte>): nat
    requires |b| == 4
  {
    (U16(b[..2]) as int) + 0x1_0000 * (U16(b[2..]) as int)
  }

  function Le16(n: Word): seq<Byte> {
    [n % 0x100, n / 0x100]
  }

  function Le32(n: nat): seq<Byte>
    requires n < 0x1_0000_0000
  {
    Le16(n % 0x1_0000) + Le16(n / 0x1_0000)
  }

  datatype Message = Message(kind: Word, payload: Payload)

  /** A message on the wire; with an empty payload this is `broker_header`. */
  function Encode(m: Message): (bytes: seq<Byte>)
    ensures |bytes| == HEADER_SIZE + |m.payload|
  {
    MAGIC + Le16(1) + Le16(m.kind) + Le32(|m.payload|) + m.payload
  }

  function EncodeAll(ms: seq<Message>): seq<Byte> {
    if ms == [] then [] else Encode(ms[0]) + EncodeAll(ms[1..])
  }

  /** What the front of the buffer holds. */
  datatype Scan = NeedMore | Malformed | Found(message: Message, rest: seq<Byte>)

  function ScanFront(buffer: seq<Byte>): (r: Scan)
    ensures r.Found? ==> |r.rest| < |buffer|
  {
    if |buffer| < HEADER_SIZE then NeedMore
    else if buffer[..4] != MAGIC || U16(buffer[4..6]) != 1 then Malformed
    else
      var length := U32(buffer[8..12]);
      if length > MAX_PAYLOAD then Malformed
      else if |buffer| < HEADER_SIZE + length then NeedMore
      else Found(Message(U16(buffer[6..8]), buffer[HEADER_SIZE..HEADER_SIZE + length]), buffer[HEADER_SIZE + length..])
  }

  lemma LittleEndian(n: nat, b: seq<Byte>)
    requires n < 0x1_0000_0000 && |b| == 4
    ensures U32(Le32(n)) == n
    ensures n < 0x1_0000 ==> U16(Le16(n)) == n
    ensures U32(b) < 0x1_0000_0000 && Le32(U32(b)) == b
    ensures Le16(U16(b[..2])) == b[..2]
  {
    var lo, hi := n % 0x1_0000, n / 0x1_0000;
    assert Le32(n)[..2] == Le16(lo) && Le32(n)[2..] == Le16(hi);
    var l, h := U16(b[..2]), U16(b[2..]);
    assert U32(b) % 0x1_0000 == l && U32(b) / 0x1_0000 == h;
    assert Le16(l) == b[..2] && Le16(h) == b[2..];
    assert b[..2] + b[2..] == b;
  }

  /** Parsing inverts encoding, whatever follows the message, and finds nothing else. */
  lemma ParseInvertsEncode(m: Message, tail: seq<Byte>)
    ensures ScanFront(Encode(m) + tail) == Found(m, tail)
  {
    var bytes := Encode(m) + tail;
    LittleEndian(|m.payload|, [0, 0, 0, 0]);
    LittleEndian(m.kind, [0, 0, 0, 0]);
    assert bytes[..4] == MAGIC && bytes[4..6] == Le16(1) && bytes[6..8] == Le16(m.kind);
    assert bytes[8..12] == Le32(|m.payload|);
    assert bytes[HEADER_SIZE..HEADER_SIZE + |m.payload|] == m.payload;
    assert bytes[HEADER_SIZE + |m.payload|..] == tail;
  }

  lemma EncodeInvertsParse(buffer: seq<Byte>)
    requires ScanFront(buffer).Found?
    ensures var r := ScanFront(buffer); Encode(r.message) + r.rest == buffer
  {
    var r := ScanFront(buffer);
    LittleEndian(0, buffer[8..12]);
    LittleEndian(0, buffer[6..10]);
    assert buffer[6..10][..2] == buffer[6..8];
    LittleEndian(0, buffer[4..8]);
    assert buffer[4..8][..2] == buffer[4..6];
    assert buffer == buffer[..4] + buffer[4..6] + buffer[6..8] + buffer[8..12] + r.message.payload + r.rest;
  }

  /** A status message on the wire, byte for byte. */
  lemma StatusBytes()
    ensures Encode(Message(4, [1])) == [0x42, 0x50, 0x4B, 0x31, 1, 0, 4, 0, 1, 0, 0, 0, 1]
  {
    assert Le16(1) == [1, 0] && Le16(4) == [4, 0] && Le16(0) == [0, 0];
  }

  /** The buffer may still become a message: there are too few bytes, or they begin one. */
  ghost predicate MayBegin(buffer: seq<Byte>) {
    |buffer| < 12 || exists m: Message :: Encode(m)[..12] == buffer[..12] && |buffer| < |Encode(m)|
  }

  lemma HeaderOf(m: Message, buffer: seq<Byte>)
    requires |buffer| >= HEADER_SIZE && Encode(m)[..HEADER_SIZE] == buffer[..HEADER_SIZE]
    ensures buffer[..4] == MAGIC && U16(buffer[4..6]) == 1 && U16(buffer[6..8]) == m.kind
    ensures U32(buffer[8..12]) == |m.payload| <= MAX_PAYLOAD
  {
    var bytes := Encode(m);
    LittleEndian(|m.payload|, [0, 0, 0, 0]);
    LittleEndian(m.kind, [0, 0, 0, 0]);
    LittleEndian(1, [0, 0, 0, 0]);
    assert bytes[..4] == MAGIC && bytes[4..6] == Le16(1) && bytes[6..8] == Le16(m.kind);
    assert bytes[8..12] == Le32(|m.payload|);
    assert forall i, j :: 0 <= i <= j <= 12 ==> bytes[i..j] == bytes[..12][i..j] == buffer[..12][i..j] == buffer[i..j];
  }

  /** Twelve bytes that are a header are those of a message. */
  lemma HeaderIsOfMessage(buffer: seq<Byte>) returns (m: Message)
    requires |buffer| >= HEADER_SIZE && buffer[..4] == MAGIC && U16(buffer[4..6]) == 1
    requires U32(buffer[8..12]) <= MAX_PAYLOAD
    ensures Encode(m)[..HEADER_SIZE] == buffer[..HEADER_SIZE] && |m.payload| == U32(buffer[8..12])
  {
    m := Message(U16(buffer[6..8]), seq(U32(buffer[8..12]), _ => 0));
    LittleEndian(0, buffer[8..12]);
    LittleEndian(0, buffer[6..10]);
    assert buffer[6..10][..2] == buffer[6..8];
    LittleEndian(0, buffer[4..8]);
    assert buffer[4..8][..2] == buffer[4..6];
    assert buffer[..12] == buffer[..4] + buffer[4..6] + buffer[6..8] + buffer[8..12];
    assert Encode(m)[..12] == MAGIC + Le16(1) + Le16(m.kind) + Le32(|m.payload|);
  }

  /** A buffer is refused exactly if no message of at most 64 KiB begins with its first twelve bytes. */
  lemma RefusedExactly(buffer: seq<Byte>)
    ensures ScanFront(buffer).Malformed?
            <==> |buffer| >= 12 && forall m: Message :: |m.payload| <= 0x1_0000 ==> Encode(m)[..12] != buffer[..12]
    ensures ScanFront(buffer).NeedMore? <==> MayBegin(buffer)
  {
    if |buffer| >= 12 {
      forall m: Message | Encode(m)[..12] == buffer[..12]
        ensures !ScanFront(buffer).Malformed? && (ScanFront(buffer).NeedMore? <==> |buffer| < |Encode(m)|)
      {
        HeaderOf(m, buffer);
      }
      if !ScanFront(buffer).Malformed? {
        var m := HeaderIsOfMessage(buffer);
        assert |m.payload| <= 0x1_0000;
      }
    }
  }

  /** More bytes never change what has been found. */
  lemma ScanIsStable(a: seq<Byte>, b: seq<Byte>)
    ensures ScanFront(a).Malformed? ==> ScanFront(a + b).Malformed?
    ensures ScanFront(a).Found? ==> ScanFront(a + b) == ScanFront(a).(rest := ScanFront(a).rest + b)
  {
    if |a| >= HEADER_SIZE {
      assert (a + b)[..4] == a[..4] && (a + b)[4..6] == a[4..6]
             && (a + b)[6..8] == a[6..8] && (a + b)[8..12] == a[8..12];
      if ScanFront(a).Found? {
        var end := HEADER_SIZE + U32(a[8..12]);
        assert (a + b)[HEADER_SIZE..end] == a[HEADER_SIZE..end] && (a + b)[end..] == a[end..] + b;
      }
    }
  }

  // ---- The two loops over the buffer -------------------------------------------------------

  /** Why a loop stopped before its input ran out. */
  datatype Exit = Acknowledged | Fault(kind: ErrorKind)

  datatype Verdict<S> = Go(state: S) | Halt(state: S, why: Exit)

  type Handler<!S> = (S, Message) -> Verdict<S>

  datatype Drained<S> = Drained(state: S, handled: seq<Message>, rest: seq<Byte>, exit: Option<Exit>)
  {
    /** The same outcome with `ms` handled before it. */
    function Behind(ms: seq<Message>): Drained<S> { this.(handled := ms + handled) }

    lemma BehindTwice(a: seq<Message>, b: seq<Message>)
      ensures Behind(b).Behind(a) == Behind(a + b)
      ensures Behind([]) == this
    {
      assert a + (b + handled) == (a + b) + handled && [] + handled == handled;
    }
  }

  /**
   * Handle every whole message in the buffer. The pump keeps a message that stops it in the buffer;
   * the disarm loop removes each message before it looks at it.
   */
  function Drain<S>(handle: Handler<S>, keeps: bool, state: S, buffer: seq<Byte>): Drained<S>
    decreases |buffer|
  {
    match ScanFront(buffer)
    case NeedMore => Drained(state, [], buffer, None)
    case Malformed => Drained(state, [], buffer, Some(Fault(InvalidData)))
    case Found(m, rest) =>
      match handle(state, m)
      case Halt(s, why) => if keeps then Drained(s, [], buffer, Some(why)) else Drained(s, [m], rest, Some(why))
      case Go(s) => Drain(handle, keeps, s, rest).Behind([m])
  }

  method DrainFrames<S>(handle: Handler<S>, keeps: bool, start: S, bytes: seq<Byte>)
    returns (state: S, buffer: seq<Byte>, exit: Option<Exit>, ghost handled: seq<Message>)
    ensures var d := Drain(handle, keeps, start, bytes); state == d.state && buffer == d.rest && exit == d.exit
    ensures handled == Drain(handle, keeps, start, bytes).handled
  {
    state, buffer, exit, handled := start, bytes, None, [];
    Drain(handle, keeps, state, buffer).BehindTwice([], []);
    while |buffer| >= HEADER_SIZE
      invariant exit.None?
      invariant Drain(handle, keeps, start, bytes) == Drain(handle, keeps, state, buffer).Behind(handled)
      decreases |buffer|
    {
      match ScanFront(buffer) {
        case Malformed =>
          exit := Some(Fault(InvalidData));
          break;
        case NeedMore =>
          break;
        case Found(m, rest) =>
          match handle(state, m) {
            case Go(s) =>
              Drain(handle, keeps, s, rest).BehindTwice(handled, [m]);
              state, buffer, handled := s, rest, handled + [m];
            case Halt(s, why) =>
              state, exit := s, Some(why);
              if !keeps {
                buffer, handled := rest, handled + [m];
              }
              break;
          }
      }
    }
    assert handled + [] == handled;
  }

  /** One attempt to read the pipe; a would-block is `NothingYet`, a read of zero bytes `Closed`. */
  datatype Read = Bytes(bytes: seq<Byte>) | NothingYet | Closed | ReadFailed(kind: ErrorKind)

  function BytesOf(pieces: seq<Read>): seq<Byte> {
    if pieces == [] then [] else (if pieces[0].Bytes? then pieces[0].bytes else []) + BytesOf(pieces[1..])
  }

  datatype Pulled<S> = Pulled(state: S, handled: seq<Message>, rest: seq<Byte>, unread: seq<Read>, exit: Option<Exit>)
  {
    function Behind(ms: seq<Message>): Pulled<S> { this.(handled := ms + handled) }

    lemma BehindTwice(a: seq<Message>, b: seq<Message>)
      ensures Behind(b).Behind(a) == Behind(a + b)
      ensures Behind([]) == this
    {
      assert a + (b + handled) == (a + b) + handled && [] + handled == handled;
    }
  }

  /** Read and drain until something stops the loop; running out of reads is its stop flag or deadline. */
  function Pull<S>(handle: Handler<S>, keeps: bool, state: S, buffer: seq<Byte>, pieces: seq<Read>): Pulled<S>
    decreases |pieces|
  {
    if pieces == [] then Pulled(state, [], buffer, [], None)
    else
      match pieces[0]
      case NothingYet => Pull(handle, keeps, state, buffer, pieces[1..])
      case Closed => Pulled(state, [], buffer, pieces[1..], Some(Fault(BrokenPipe)))
      case ReadFailed(kind) => Pulled(state, [], buffer, pieces[1..], Some(Fault(kind)))
      case Bytes(bytes) =>
        var d := Drain(handle, keeps, state, buffer + bytes);
        if d.exit.Some? then Pulled(d.state, d.handled, d.rest, pieces[1..], d.exit)
        else Pull(handle, keeps, d.state, d.rest, pieces[1..]).Behind(d.handled)
  }

  method PullFrames<S>(handle: Handler<S>, keeps: bool, start: S, bytes: seq<Byte>, pieces: seq<Read>)
    returns (state: S, buffer: seq<Byte>, exit: Option<Exit>, ghost handled: seq<Message>, ghost unread: seq<Read>)
    ensures var p := Pull(handle, keeps, start, bytes, pieces); state == p.state && buffer == p.rest && exit == p.exit
    ensures handled == Pull(handle, keeps, start, bytes, pieces).handled
    ensures unread == Pull(handle, keeps, start, bytes, pieces).unread
  {
    state, buffer, exit, handled, unread := start, bytes, None, [], pieces;
    Pull(handle, keeps, state, buffer, unread).BehindTwice([], []);
    var i := 0;
    while i < |pieces|
      invariant 0 <= i <= |pieces| && unread == pieces[i..] && exit.None?
      invariant Pull(handle, keeps, start, bytes, pieces) == Pull(handle, keeps, state, buffer, unread).Behind(handled)
    {
      assert unread[0] == pieces[i] && unread[1..] == pieces[i + 1..];
      unread := unread[1..];
      match pieces[i] {
        case NothingYet =>
        case Closed =>
          exit := Some(Fault(BrokenPipe));
          break;
        case ReadFailed(kind) =>
          exit := Some(Fault(kind));
          break;
        case Bytes(chunk) =>
          ghost var more;
          ghost var before := handled;
          state, buffer, exit, more := DrainFrames(handle, keeps, state, buffer + chunk);
          handled := before + more;
          if exit.Some? {
            break;
          }
          Pull(handle, keeps, state, buffer, unread).BehindTwice(before, more);
      }
      i := i + 1;
    }
    assert handled + [] == handled;
  }

  lemma {:induction false} DrainSplits<S>(handle: Handler<S>, keeps: bool, state: S, a: seq<Byte>, b: seq<Byte>)
    ensures var d := Drain(handle, keeps, state, a);
            Drain(handle, keeps, state, a + b)
            == if d.exit.Some? then d.(rest := d.rest + b)
               else Drain(handle, keeps, d.state, d.rest + b).Behind(d.handled)
    decreases |a|
  {
    ScanIsStable(a, b);
    var r := ScanFront(a);
    if r.NeedMore? {
      Drain(handle, keeps, state, a + b).BehindTwice([], []);
    } else if r.Found? && handle(state, r.message).Go? {
      var s := handle(state, r.message).state;
      DrainSplits(handle, keeps, s, r.rest, b);
      var d := Drain(handle, keeps, s, r.rest);
      if d.exit.None? {
        Drain(handle, keeps, d.state, d.rest + b).BehindTwice([r.message], d.handled);
      }
    }
  }

  lemma {:induction false} DrainLeavesPart<S>(handle: Handler<S>, keeps: bool, state: S, buffer: seq<Byte>)
    requires Drain(handle, keeps, state, buffer).exit.None?
    ensures var rest := Drain(handle, keeps, state, buffer).rest;
            ScanFront(rest).NeedMore? && |rest| < HEADER_SIZE + MAX_PAYLOAD
    decreases |buffer|
  {
    var r := ScanFront(buffer);
    if r.Found? {
      DrainLeavesPart(handle, keeps, handle(state, r.message).state, r.rest);
    }
  }

  /** The transport itself did not fail. */
  ghost predicate Benign(pieces: seq<Read>) {
    forall r :: r in pieces ==> r.Bytes? || r.NothingYet?
  }

  /**
   * Reading in pieces is parsing in one go: the same messages are handled, the same error stops the
   * loop, and the bytes left over are the same, split between the buffer and what was not yet read.
   */
  lemma {:induction false} PullIsOneParse<S>(handle: Handler<S>, keeps: bool, state: S,
                                             buffer: seq<Byte>, pieces: seq<Read>)
    requires Benign(pieces) && ScanFront(buffer).NeedMore?
    ensures var p := Pull(handle, keeps, state, buffer, pieces);
            var d := Drain(handle, keeps, state, buffer + BytesOf(pieces));
            && p.state == d.state && p.handled == d.handled && p.exit == d.exit
            && d.rest == p.rest + BytesOf(p.unread)
    decreases |pieces|
  {
    if pieces == [] {
      assert buffer + [] == buffer;
    } else {
      var later := BytesOf(pieces[1..]);
      if pieces[0].NothingYet? {
        assert [] + later == later;
        PullIsOneParse(handle, keeps, state, buffer, pieces[1..]);
      } else {
        assert pieces[0] in pieces;
        var bytes := pieces[0].bytes;
        assert buffer + BytesOf(pieces) == (buffer + bytes) + later;
        DrainSplits(handle, keeps, state, buffer + bytes, later);
        var d := Drain(handle, keeps, state, buffer + bytes);
        if d.exit.None? {
          DrainLeavesPart(handle, keeps, state, buffer + bytes);
          PullIsOneParse(handle, keeps, d.state, d.rest, pieces[1..]);
        }
      }
    }
  }

  /** The split of the stream into reads is invisible. */
  lemma ChunkingIsInvisible<S>(handle: Handler<S>, keeps: bool, state: S, one: seq<Read>, two: seq<Read>)
    requires Benign(one) && Benign(two) && BytesOf(one) == BytesOf(two)
    ensures var p, q := Pull(handle, keeps, state, [], one), Pull(handle, keeps, state, [], two);
            && p.state == q.state && p.handled == q.handled && p.exit == q.exit
            && p.rest + BytesOf(p.unread) == q.rest + BytesOf(q.unread)
            && (p.exit.None? ==> p.rest == q.rest && |p.rest| < HEADER_SIZE + MAX_PAYLOAD)
  {
    PullIsOneParse(handle, keeps, state, [], one);
    PullIsOneParse(handle, keeps, state, [], two);
    PullReadsAll(handle, keeps, state, [], one);
    PullReadsAll(handle, keeps, state, [], two);
    if Pull(handle, keeps, state, [], one).exit.None? {
      var p, q := Pull(handle, keeps, state, [], one), Pull(handle, keeps, state, [], two);
      assert p.rest + [] == p.rest && q.rest + [] == q.rest;
      DrainLeavesPart(handle, keeps, state, [] + BytesOf(one));
    }
  }

  lemma {:induction false} PullReadsAll<S>(handle: Handler<S>, keeps: bool, state: S,
                                           buffer: seq<Byte>, pieces: seq<Read>)
    ensures var p := Pull(handle, keeps, state, buffer, pieces); p.exit.None? ==> p.unread == []
    decreases |pieces|
  {
    if pieces != [] {
      if pieces[0].NothingYet? {
        PullReadsAll(handle, keeps, state, buffer, pieces[1..]);
      } else if pieces[0].Bytes? {
        var d := Drain(handle, keeps, state, buffer + pieces[0].bytes);
        PullReadsAll(handle, keeps, d.state, d.rest, pieces[1..]);
      }
    }
  }

  // ---- No byte is lost ---------------------------------------------------------------------

  lemma {:induction false} EncodeAllJoins(a: seq<Message>, b: seq<Message>)
    ensures EncodeAll(a + b) == EncodeAll(a) + EncodeAll(b)
    decreases |a|
  {
    if a == [] {
      assert a + b == b;
    } else {
      assert (a + b)[1..] == a[1..] + b;
      EncodeAllJoins(a[1..], b);
    }
  }

  lemma {:induction false} DrainConserves<S>(handle: Handler<S>, keeps: bool, state: S, buffer: seq<Byte>)
    ensures var d := Drain(handle, keeps, state, buffer);
            EncodeAll(d.handled) + d.rest == buffer
    decreases |buffer|
  {
    var r := ScanFront(buffer);
    if r.Found? {
      EncodeInvertsParse(buffer);
      if handle(state, r.message).Go? {
        var s := handle(state, r.message).state;
        DrainConserves(handle, keeps, s, r.rest);
        var d := Drain(handle, keeps, s, r.rest);
        assert ([r.message] + d.handled)[1..] == d.handled;
      } else {
        assert [r.message][1..] == [] && Encode(r.message) + [] == Encode(r.message);
      }
    }
  }

  /** Two accounts of consecutive parts of a stream make one account of the whole. */
  lemma Regroup(a: seq<Byte>, middle: seq<Byte>, b: seq<Byte>, c: seq<Byte>,
                u: seq<Byte>, x: seq<Byte>, y: seq<Byte>, z: seq<Byte>)
    requires a + middle == x + y
    requires b + c + u == middle + z
    ensures (a + b) + c + u == x + (y + z)
  {
    assert (a + b) + c + u == a + (b + c + u);
    assert a + (middle + z) == (a + middle) + z;
    assert (x + y) + z == x + (y + z);
  }

  lemma {:induction false} PullConserves<S>(handle: Handler<S>, keeps: bool, state: S,
                                            buffer: seq<Byte>, pieces: seq<Read>)
    ensures var p := Pull(handle, keeps, state, buffer, pieces);
            EncodeAll(p.handled) + p.rest + BytesOf(p.unread) == buffer + BytesOf(pieces)
    decreases |pieces|
  {
    if pieces != [] {
      var later := BytesOf(pieces[1..]);
      match pieces[0] {
        case NothingYet =>
          PullConserves(handle, keeps, state, buffer, pieces[1..]);
          assert [] + later == later;
        case Bytes(bytes) =>
          DrainConserves(handle, keeps, state, buffer + bytes);
          var d := Drain(handle, keeps, state, buffer + bytes);
          if d.exit.None? {
            PullConserves(handle, keeps, d.state, d.rest, pieces[1..]);
            var p := Pull(handle, keeps, d.state, d.rest, pieces[1..]);
            EncodeAllJoins(d.handled, p.handled);
            Regroup(EncodeAll(d.handled), d.rest, EncodeAll(p.handled), p.rest, BytesOf(p.unread),
                    buffer, bytes, later);
          } else {
            Associate(buffer, bytes, later);
          }
        case _ =>
          assert EncodeAll([]) + buffer == buffer && [] + later == later;
      }
    } else {
      assert EncodeAll([]) + buffer + [] == buffer + [];
    }
  }

  /** The pump hands its buffer to the disarm loop: what both handled and what is left is all that was read. */
  lemma HandOverLosesNothing<S, T>(pump: Handler<S>, s: S, pumpReads: seq<Read>,
                                  disarm: Handler<T>, t: T, disarmReads: seq<Read>)
    ensures var p := Pull(pump, true, s, [], pumpReads);
            var d := Drain(disarm, false, t, p.rest);
            var q := Pull(disarm, false, d.state, d.rest, disarmReads);
            && EncodeAll(p.handled) + EncodeAll(d.handled) + d.rest + BytesOf(p.unread) == BytesOf(pumpReads)
            && EncodeAll(q.handled) + q.rest + BytesOf(q.unread) == d.rest + BytesOf(disarmReads)
  {
    PullConserves(pump, true, s, [], pumpReads);
    var p := Pull(pump, true, s, [], pumpReads);
    DrainConserves(disarm, false, t, p.rest);
    var d := Drain(disarm, false, t, p.rest);
    PullConserves(disarm, false, d.state, d.rest, disarmReads);
    Associate(EncodeAll(p.handled), EncodeAll(d.handled), d.rest);
    assert [] + BytesOf(pumpReads) == BytesOf(pumpReads);
  }

  lemma Associate(a: seq<Byte>, b: seq<Byte>, c: seq<Byte>)
    ensures a + b + c == a + (b + c)
  {
  }
}
