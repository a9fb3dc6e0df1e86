/**
 * What a key edge does, after any history and in terms of the keys pressed: which chords stay on this
 * machine, which of them exits and which disconnects, what reaches the host with which modifiers, and
 * how the worker ends by a chord. Keys are written as their virtual-key codes.
 */
module BrokerChords {
  import opened Prelude
  import opened BrokerRouting
  import opened BrokerPipe
  import opened BrokerWorker

  // ---- Held modifiers ----------------------------------------------------------------------

  /** The keys the host holds after a history. */
  function HostAfter(ops: seq<Op>): set<Key> {
    Fold({}, History(ops).1)
  }

  /** The last edge of either key was a press; releasing everything lifts what the host holds. */
  function HeldOf(ops: seq<Op>, a: Key, b: Key): bool {
    if ops == [] then false
    else
      match Last(ops)
      case KeyEvent(vk, keyUp) => if vk == a || vk == b then !keyUp else HeldOf(Front(ops), a, b)
      case ReleaseAll => a !in HostAfter(Front(ops)) && b !in HostAfter(Front(ops)) && HeldOf(Front(ops), a, b)
  }

  predicate CtrlHeld(ops: seq<Op>) { HeldOf(ops, 0x11, 0xA2) || HeldOf(ops, 0xA3, 0xA3) }

  predicate ShiftHeld(ops: seq<Op>) { HeldOf(ops, 0x10, 0xA0) || HeldOf(ops, 0xA1, 0xA1) }

  predicate AltHeld(ops: seq<Op>) { HeldOf(ops, 0xA4, 0xA4) || HeldOf(ops, 0xA5, 0xA5) }

  predicate MetaHeld(ops: seq<Op>) { HeldOf(ops, 0x5B, 0x5B) || HeldOf(ops, 0x5C, 0x5C) }

  function ModifiersAfter(ops: seq<Op>): Modifiers {
    Modifiers(CtrlHeld(ops), ShiftHeld(ops), AltHeld(ops), MetaHeld(ops))
  }

  /** Ctrl, Shift, Alt and the two Windows keys, left, right or either. */
  const MODIFIER_KEYS: set<Key> := {0x10, 0x11, 0x12, 0x5B, 0x5C, 0xA0, 0xA1, 0xA2, 0xA3, 0xA4, 0xA5}

  /** The flags of a router, one group of keys each. */
  ghost predicate FlagsAre(h: Held, ops: seq<Op>) {
    && h.ctrl == HeldOf(ops, 0x11, 0xA2) && h.rightCtrl == HeldOf(ops, 0xA3, 0xA3)
    && h.shift == HeldOf(ops, 0x10, 0xA0) && h.rightShift == HeldOf(ops, 0xA1, 0xA1)
    && h.leftAlt == HeldOf(ops, 0xA4, 0xA4) && h.rightAlt == HeldOf(ops, 0xA5, 0xA5)
    && h.leftMeta == HeldOf(ops, 0x5B, 0x5B) && h.rightMeta == HeldOf(ops, 0x5C, 0x5C)
  }

  /** A flag after an edge of `vk`, if its keys are `a` and `b`. */
  predicate Moved(flag: bool, vk: Key, down: bool, a: Key, b: Key) {
    if vk == a || vk == b then down else flag
  }

  /** The flag after its keys among `sent` have been lifted, the last first. */
  function Lowered(flag: bool, sent: seq<Key>, a: Key, b: Key): bool
    decreases |sent|
  {
    if sent == [] then flag else Lowered(Moved(flag, Last(sent), false, a, b), Front(sent), a, b)
  }

  lemma {:induction false} LoweredIs(flag: bool, sent: seq<Key>, a: Key, b: Key)
    ensures Lowered(flag, sent, a, b) <==> flag && a !in sent && b !in sent
    decreases |sent|
  {
    if sent != [] {
      FrontThenLast(sent);
      assert forall k :: k in sent <==> k in Front(sent) || k == Last(sent);
      LoweredIs(Moved(flag, Last(sent), false, a, b), Front(sent), a, b);
    }
  }

  /** The flags once these keys have been lifted. */
  function Lifted(h: Held, sent: seq<Key>): Held {
    Held(Lowered(h.ctrl, sent, 0x11, 0xA2), Lowered(h.rightCtrl, sent, 0xA3, 0xA3),
         Lowered(h.shift, sent, 0x10, 0xA0), Lowered(h.rightShift, sent, 0xA1, 0xA1),
         Lowered(h.leftAlt, sent, 0xA4, 0xA4), Lowered(h.rightAlt, sent, 0xA5, 0xA5),
         Lowered(h.leftMeta, sent, 0x5B, 0x5B), Lowered(h.rightMeta, sent, 0x5C, 0x5C))
  }

  /** The flags after an edge of `vk`. */
  function FlagsMoved(h: Held, vk: Key, down: bool): Held {
    Held(Moved(h.ctrl, vk, down, 0x11, 0xA2), Moved(h.rightCtrl, vk, down, 0xA3, 0xA3),
         Moved(h.shift, vk, down, 0x10, 0xA0), Moved(h.rightShift, vk, down, 0xA1, 0xA1),
         Moved(h.leftAlt, vk, down, 0xA4, 0xA4), Moved(h.rightAlt, vk, down, 0xA5, 0xA5),
         Moved(h.leftMeta, vk, down, 0x5B, 0x5B), Moved(h.rightMeta, vk, down, 0x5C, 0x5C))
  }

  lemma MetaMoves(h: Held, vk: Key, down: bool)
    requires vk == 0x5B || vk == 0x5C
    ensures Updated(h, vk, down) == FlagsMoved(h, vk, down)
  {
  }

  lemma AltMoves(h: Held, vk: Key, down: bool)
    requires vk == 0xA4 || vk == 0xA5
    ensures Updated(h, vk, down) == FlagsMoved(h, vk, down)
  {
  }

  lemma ShiftMoves(h: Held, vk: Key, down: bool)
    requires vk == 0x10 || vk == 0xA0 || vk == 0xA1
    ensures Updated(h, vk, down) == FlagsMoved(h, vk, down)
  {
  }

  lemma CtrlMoves(h: Held, vk: Key, down: bool)
    requires vk == 0x11 || vk == 0xA2 || vk == 0xA3
    ensures Updated(h, vk, down) == FlagsMoved(h, vk, down)
  {
  }

  lemma OthersMoveNothing(h: Held, vk: Key, down: bool)
    requires vk !in {0x10, 0x11, 0x5B, 0x5C, 0xA0, 0xA1, 0xA2, 0xA3, 0xA4, 0xA5}
    ensures Updated(h, vk, down) == FlagsMoved(h, vk, down)
  {
  }

  lemma UpdatedMoves(h: Held, vk: Key, down: bool)
    ensures Updated(h, vk, down) == FlagsMoved(h, vk, down)
  {
    if vk == 0x5B || vk == 0x5C {
      MetaMoves(h, vk, down);
    } else if vk == 0xA4 || vk == 0xA5 {
      AltMoves(h, vk, down);
    } else if vk == 0x10 || vk == 0xA0 || vk == 0xA1 {
      ShiftMoves(h, vk, down);
    } else if vk == 0x11 || vk == 0xA2 || vk == 0xA3 {
      CtrlMoves(h, vk, down);
    } else {
      OthersMoveNothing(h, vk, down);
    }
  }

  lemma {:induction false} ReleasesLower(h: Held, sent: seq<Key>)
    ensures Releases(h, sent).0 == Lifted(h, sent)
    decreases |sent|
  {
    if sent != [] {
      UpdatedMoves(h, Last(sent), false);
      ReleasesLower(Updated(h, Last(sent), false), Front(sent));
    }
  }

  lemma HostIsSent(ops: seq<Op>)
    ensures forall k :: k in HostAfter(ops) <==> k in History(ops).0.sentDown
  {
    HistoryStaysInStep(ops);
  }

  /** The router's flags are the edges of the keys. */
  lemma {:induction false} FlagsFollow(ops: seq<Op>)
    ensures FlagsAre(History(ops).0.held, ops)
    decreases |ops|
  {
    if ops != [] {
      FlagsFollow(Front(ops));
      match Last(ops) {
        case KeyEvent(vk, keyUp) => EdgeMovesFlags(ops, vk, keyUp);
        case ReleaseAll => ReleaseMovesFlags(ops);
      }
    }
  }

  lemma EdgeMovesFlags(ops: seq<Op>, vk: Key, keyUp: bool)
    requires ops != [] && Last(ops) == KeyEvent(vk, keyUp) && FlagsAre(History(Front(ops)).0.held, Front(ops))
    ensures FlagsAre(History(ops).0.held, ops)
  {
    FlagsMove(History(Front(ops)).0.held, ops, vk, keyUp);
    HistoryMovesHeld(ops, vk, keyUp);
  }

  lemma HeldAfterEdge(ops: seq<Op>, vk: Key, keyUp: bool, a: Key, b: Key)
    requires ops != [] && Last(ops) == KeyEvent(vk, keyUp)
    ensures HeldOf(ops, a, b) == Moved(HeldOf(Front(ops), a, b), vk, !keyUp, a, b)
  {
  }

  lemma FlagsMove(h: Held, ops: seq<Op>, vk: Key, keyUp: bool)
    requires ops != [] && Last(ops) == KeyEvent(vk, keyUp) && FlagsAre(h, Front(ops))
    ensures FlagsAre(Updated(h, vk, !keyUp), ops)
  {
    UpdatedMoves(h, vk, !keyUp);
    HeldAfterEdge(ops, vk, keyUp, 0x11, 0xA2);
    HeldAfterEdge(ops, vk, keyUp, 0xA3, 0xA3);
    HeldAfterEdge(ops, vk, keyUp, 0x10, 0xA0);
    HeldAfterEdge(ops, vk, keyUp, 0xA1, 0xA1);
    HeldAfterEdge(ops, vk, keyUp, 0xA4, 0xA4);
    HeldAfterEdge(ops, vk, keyUp, 0xA5, 0xA5);
    HeldAfterEdge(ops, vk, keyUp, 0x5B, 0x5B);
    HeldAfterEdge(ops, vk, keyUp, 0x5C, 0x5C);
  }

  lemma HistoryMovesHeld(ops: seq<Op>, vk: Key, keyUp: bool)
    requires ops != [] && Last(ops) == KeyEvent(vk, keyUp)
    ensures History(ops).0 == Route(History(Front(ops)).0, vk, keyUp).routing
    ensures History(ops).0.held == Updated(History(Front(ops)).0.held, vk, !keyUp)
  {
    RouteMovesHeld(History(Front(ops)).0, vk, keyUp);
  }

  lemma ModifiersFollow(ops: seq<Op>)
    ensures ModifiersOf(History(ops).0.held) == ModifiersAfter(ops)
  {
    FlagsFollow(ops);
  }

  lemma LastIsTheEdge(r: Routing, vk: Key, keyUp: bool)
    requires Route(r, vk, keyUp).packets != []
    ensures Last(Route(r, vk, keyUp).packets)
         == Packet(!keyUp, ModifiersOf(Updated(r.held, vk, !keyUp)), vk)
  {
  }

  lemma RouteMovesHeld(r: Routing, vk: Key, keyUp: bool)
    ensures Route(r, vk, keyUp).routing.held == Updated(r.held, vk, !keyUp)
  {
  }

  lemma HeldAfterRelease(ops: seq<Op>, sent: seq<Key>, a: Key, b: Key)
    requires ops != [] && Last(ops).ReleaseAll? && forall k :: k in HostAfter(Front(ops)) <==> k in sent
    ensures HeldOf(ops, a, b) == Lowered(HeldOf(Front(ops), a, b), sent, a, b)
  {
    LoweredIs(HeldOf(Front(ops), a, b), sent, a, b);
  }

  lemma ReleaseMovesFlags(ops: seq<Op>)
    requires ops != [] && Last(ops).ReleaseAll? && FlagsAre(History(Front(ops)).0.held, Front(ops))
    ensures FlagsAre(History(ops).0.held, ops)
  {
    var r := History(Front(ops)).0;
    ReleasesLower(r.held, r.sentDown);
    HostIsSent(Front(ops));
    HeldAfterRelease(ops, r.sentDown, 0x11, 0xA2);
    HeldAfterRelease(ops, r.sentDown, 0xA3, 0xA3);
    HeldAfterRelease(ops, r.sentDown, 0x10, 0xA0);
    HeldAfterRelease(ops, r.sentDown, 0xA1, 0xA1);
    HeldAfterRelease(ops, r.sentDown, 0xA4, 0xA4);
    HeldAfterRelease(ops, r.sentDown, 0xA5, 0xA5);
    HeldAfterRelease(ops, r.sentDown, 0x5B, 0x5B);
    HeldAfterRelease(ops, r.sentDown, 0x5C, 0x5C);
  }

  lemma EdgeLast(ops: seq<Op>, op: Op)
    ensures Front(ops + [op]) == ops && Last(ops + [op]) == op
  {
  }

  // ---- One edge after any history ----------------------------------------------------------

  /** What `route` answers to an edge after a history. */
  function Answer(ops: seq<Op>, vk: Key, keyUp: bool): Routed {
    Route(History(ops).0, vk, keyUp)
  }

  /**
   * With Ctrl and Alt held, pressing Q exits and pressing the key of the backtick disconnects; no other
   * edge does either.
   */
  lemma ChordsDecideExactly(ops: seq<Op>, vk: Key, keyUp: bool)
    ensures Answer(ops, vk, keyUp).exit <==> !keyUp && vk == 0x51 && CtrlHeld(ops) && AltHeld(ops)
    ensures Answer(ops, vk, keyUp).disconnect <==> !keyUp && vk == 0xC0 && CtrlHeld(ops) && AltHeld(ops)
  {
    FlagsFollow(ops);
  }

  /**
   * A press is passed on unless it is of a modifier, Ctrl+Alt with Delete, Q or the backtick, or
   * Alt+F4.
   */
  lemma PressPassesExactly(ops: seq<Op>, vk: Key)
    ensures Answer(ops, vk, false).packets != []
            <==> vk !in MODIFIER_KEYS && !(AltHeld(ops) && vk == 0x73)
                 && !(CtrlHeld(ops) && AltHeld(ops) && vk in {0x2E, 0x51, 0xC0})
  {
    FlagsFollow(ops);
  }

  /** Whatever an edge sends ends with the edge itself, under the modifiers held after it. */
  lemma EdgeComesLast(ops: seq<Op>, vk: Key, keyUp: bool)
    requires Answer(ops, vk, keyUp).packets != []
    ensures Last(Answer(ops, vk, keyUp).packets)
         == Packet(!keyUp, ModifiersAfter(ops + [KeyEvent(vk, keyUp)]), vk)
  {
    EdgeLast(ops, KeyEvent(vk, keyUp));
    LastIsTheEdge(History(ops).0, vk, keyUp);
    HistoryMovesHeld(ops + [KeyEvent(vk, keyUp)], vk, keyUp);
    ModifiersFollow(ops + [KeyEvent(vk, keyUp)]);
  }

  /** After a key is lifted the host does not hold it, and holds what else it did. */
  lemma LiftReachesHost(ops: seq<Op>, vk: Key)
    ensures HostAfter(ops + [KeyEvent(vk, true)]) == HostAfter(ops) - {vk}
  {
    HistoryStaysInStep(ops);
    EdgeLast(ops, KeyEvent(vk, true));
    var (r, packets) := History(ops);
    var out := RouteUp(r, vk);
    FoldJoins({}, packets, out.packets);
    RouteUpKeepsInStep(r, HostAfter(ops), vk);
    ForgettingKeepsDistinct(r.sentDown, vk);
  }

  /** After a press that is passed on the host holds the key, and has let go of none. */
  lemma PressReachesHost(ops: seq<Op>, vk: Key)
    requires Answer(ops, vk, false).packets != []
    ensures HostAfter(ops) + {vk} <= HostAfter(ops + [KeyEvent(vk, false)])
  {
    HistoryStaysInStep(ops);
    EdgeLast(ops, KeyEvent(vk, false));
    var (r, packets) := History(ops);
    var out := Route(r, vk, false);
    FoldJoins({}, packets, out.packets);
    FoldJoins(HostAfter(ops), Downs(r.pending), [Packet(true, ModifiersOf(out.routing.held), vk)]);
    DownsHold(HostAfter(ops), r.pending);
  }

  lemma {:induction false} DownsHold(host: set<Key>, pending: seq<(Key, Modifiers)>)
    ensures host <= Fold(host, Downs(pending))
    decreases |pending|
  {
    if pending != [] {
      assert Downs(pending)[1..] == Downs(pending[1..]);
      DownsHold(host + {pending[0].0}, pending[1..]);
    }
  }

  /** Lifting the keys after a history, the last pressed first, each under the modifiers held once it is lifted. */
  function LiftedInTurn(ops: seq<Op>, keys: seq<Key>): seq<Packet>
    decreases |keys|
  {
    if keys == [] then []
    else
      var lifted := ops + [KeyEvent(Last(keys), true)];
      [Packet(false, ModifiersAfter(lifted), Last(keys))] + LiftedInTurn(lifted, Front(keys))
  }

  lemma LiftMoves(ops: seq<Op>, vk: Key)
    ensures var lifted := ops + [KeyEvent(vk, true)];
            && History(lifted).0.held == Updated(History(ops).0.held, vk, false)
            && ModifiersOf(History(lifted).0.held) == ModifiersAfter(lifted)
  {
    EdgeLast(ops, KeyEvent(vk, true));
    HistoryMovesHeld(ops + [KeyEvent(vk, true)], vk, true);
    ModifiersFollow(ops + [KeyEvent(vk, true)]);
  }

  lemma {:induction false} ReleasesInTurn(ops: seq<Op>, h: Held, keys: seq<Key>)
    requires h == History(ops).0.held
    ensures Releases(h, keys).1 == LiftedInTurn(ops, keys)
    decreases |keys|
  {
    if keys != [] {
      LiftMoves(ops, Last(keys));
      ReleasesInTurn(ops + [KeyEvent(Last(keys), true)], Updated(h, Last(keys), false), Front(keys));
    }
  }

  lemma SentOnce(ops: seq<Op>)
    ensures Distinct(History(ops).0.sentDown)
  {
    HistoryStaysInStep(ops);
  }

  /** Releasing everything lifts the keys that the host holds, each of them once and in turn. */
  lemma ReleaseLiftsInTurn(ops: seq<Op>)
    ensures var sent := History(ops).0.sentDown;
            && Distinct(sent) && (forall k :: k in HostAfter(ops) <==> k in sent)
            && Release(History(ops).0).1 == LiftedInTurn(ops, sent)
  {
    HostIsSent(ops);
    SentOnce(ops);
    ReleasesInTurn(ops, History(ops).0.held, History(ops).0.sentDown);
  }

  /** A modifier tapped with nothing in between reaches the host as a press and a lift of its own. */
  lemma TapIsSent(ops: seq<Op>, vk: Key)
    requires vk in MODIFIER_KEYS && vk !in HostAfter(ops) && vk !in PendingKeys(History(ops).0.pending)
    ensures var pressed := ops + [KeyEvent(vk, false)];
            && Answer(ops, vk, false).packets == []
            && Answer(pressed, vk, true).packets
               == [Packet(true, ModifiersAfter(pressed), vk),
                   Packet(false, ModifiersAfter(pressed + [KeyEvent(vk, true)]), vk)]
  {
    var pressed := ops + [KeyEvent(vk, false)];
    var lifted := pressed + [KeyEvent(vk, true)];
    HostIsSent(ops);
    EdgeLast(ops, KeyEvent(vk, false));
    EdgeLast(pressed, KeyEvent(vk, true));
    HistoryMovesHeld(pressed, vk, false);
    HistoryMovesHeld(lifted, vk, true);
    ModifiersFollow(pressed);
    ModifiersFollow(lifted);
    TapWaits(History(ops).0, vk);
  }

  /** The tap alone: the press waits, and the lift sends both. */
  lemma TapWaits(r: Routing, vk: Key)
    requires IsModifier(vk) && vk !in r.sentDown && vk !in PendingKeys(r.pending)
    ensures var q := Route(r, vk, false).routing;
            var m := ModifiersOf(q.held);
            && Route(r, vk, false).packets == [] && q.pending == r.pending + [(vk, m)]
            && RouteUp(q, vk).packets
               == [Packet(true, m, vk), Packet(false, ModifiersOf(Updated(q.held, vk, false)), vk)]
  {
    var q := Route(r, vk, false).routing;
    assert PendingKeys(q.pending) == PendingKeys(r.pending) + [vk];
    FoundAtTheEnd(PendingKeys(r.pending), vk);
  }

  lemma {:induction false} FoundAtTheEnd(keys: seq<Key>, vk: Key)
    requires vk !in keys
    ensures IndexOf(keys + [vk], vk) == |keys|
    decreases |keys|
  {
    if keys != [] {
      assert (keys + [vk])[1..] == keys[1..] + [vk];
      FoundAtTheEnd(keys[1..], vk);
    }
  }

  /** A chord reaches the host in press order, each press under the modifiers held at that point. */
  lemma ChordCarriesItsModifiers(chord: seq<Key>, vk: Key, i: nat)
    requires Distinct(chord) && (forall k :: k in chord ==> k in MODIFIER_KEYS) && vk !in MODIFIER_KEYS
    requires Answer(Presses(chord), vk, false).packets != [] && i < |chord|
    ensures var packets := Answer(Presses(chord), vk, false).packets;
            |packets| == |chord| + 1 && packets[i] == Packet(true, ModifiersAfter(Presses(chord[..i + 1])), chord[i])
  {
    PendingOf(chord);
    FlagsFollow(Presses(chord));
  }

  /** The modifiers of a chord wait in press order, each with the modifiers held once it was pressed. */
  ghost predicate WaitsAs(pending: seq<(Key, Modifiers)>, chord: seq<Key>) {
    && |pending| == |chord|
    && forall i :: 0 <= i < |chord| ==> pending[i] == (chord[i], ModifiersAfter(Presses(chord[..i + 1])))
  }

  lemma WaitsOneMore(pending: seq<(Key, Modifiers)>, before: seq<Key>, chord: seq<Key>)
    requires chord != [] && before == Front(chord) && WaitsAs(pending, before)
    ensures WaitsAs(pending + [(Last(chord), ModifiersAfter(Presses(chord)))], chord)
  {
    assert chord[..|chord|] == chord;
    assert forall i :: 0 <= i < |before| ==> chord[i] == before[i] && before[..i + 1] == chord[..i + 1];
  }

  lemma OneMoreWaits(r: Routing, vk: Key)
    requires IsModifier(vk) && vk !in r.sentDown && vk !in PendingKeys(r.pending)
    ensures var q := Route(r, vk, false).routing; q.pending == r.pending + [(vk, ModifiersOf(q.held))]
  {
  }

  lemma {:induction false} PendingOf(chord: seq<Key>)
    requires Distinct(chord) && (forall k :: k in chord ==> IsModifier(k))
    ensures WaitsAs(History(Presses(chord)).0.pending, chord)
    decreases |chord|
  {
    if chord != [] {
      var before, vk := Front(chord), Last(chord);
      PendingOf(before);
      ModifiersWait(before);
      assert Front(Presses(chord)) == Presses(before) && Last(Presses(chord)) == KeyEvent(vk, false);
      assert vk !in before;
      HistoryMovesHeld(Presses(chord), vk, false);
      OneMoreWaits(History(Presses(before)).0, vk);
      ModifiersFollow(Presses(chord));
      WaitsOneMore(History(Presses(before)).0.pending, before, chord);
    } else {
      assert Presses(chord) == [];
    }
  }

  // ---- One event on the wire ---------------------------------------------------------------

  /**
   * A key event as the driver sends it: the version, twelve bytes that nobody reads, the scan code, the
   * flags and twelve more. Bit 0 of the flags is a lift, bit 1 the prefix E0 and bit 2 the prefix E1.
   */
  function EventBytes(scan: Word, flags: Word, a: seq<Byte>, b: seq<Byte>): seq<Byte> {
    [1, 0, 1, 0] + a + [scan % 0x100, scan / 0x100] + [flags % 0x100, flags / 0x100] + b
  }

  /** Flags with these three bits, and any others. */
  ghost predicate FlagBits(flags: Word, keyUp: bool, e0: bool, e1: bool) {
    exists others: nat ::
      flags as int == 8 * others + (if e1 then 4 else 0) + (if e0 then 2 else 0) + if keyUp then 1 else 0
  }

  function PrefixNamed(e0: bool, e1: bool): Prefix {
    if e0 then PrefixE0 else if e1 then PrefixE1 else NoPrefix
  }

  lemma BitsAreRead(flags: Word, keyUp: bool, e0: bool, e1: bool)
    requires FlagBits(flags, keyUp, e0, e1)
    ensures KeyUp(flags) == keyUp && PrefixOf(flags) == PrefixNamed(e0, e1)
  {
    var n: nat :| flags as int == 8 * n + (if e1 then 4 else 0) + (if e0 then 2 else 0) + if keyUp then 1 else 0;
    var x, y, z := if keyUp then 1 else 0, if e0 then 1 else 0, if e1 then 1 else 0;
    LowBits(n, x, y, z);
  }

  lemma Divides(q: nat, d: nat, r: nat)
    requires r < d
    ensures (q * d + r) / d == q && (q * d + r) % d == r
  {
    QuotientIs(q * d + r, d, q, r);
  }

  lemma LowBits(n: nat, x: nat, y: nat, z: nat)
    requires x < 2 && y < 2 && z < 2
    ensures var flags := 8 * n + 4 * z + 2 * y + x;
            flags % 2 == x && flags / 2 % 2 == y && flags / 4 % 2 == z
  {
    Divides(4 * n + 2 * z + y, 2, x);
    Divides(2 * n + z, 2, y);
    Divides(2 * n + z, 4, 2 * y + x);
    Divides(n, 2, z);
  }

  lemma EventIsRead(scan: Word, flags: Word, a: seq<Byte>, b: seq<Byte>)
    requires |a| == |b| == 12
    ensures var event := EventBytes(scan, flags, a, b);
            && |event| == 32 && U16(event[0..2]) == 1 && U16(event[2..4]) == 1
            && U16(event[16..18]) == scan && U16(event[18..20]) == flags
  {
    var event := EventBytes(scan, flags, a, b);
    assert event[0..2] == [1, 0] && event[2..4] == [1, 0];
    assert event[16..18] == [scan % 0x100, scan / 0x100] && event[18..20] == [flags % 0x100, flags / 0x100];
  }

  /**
   * An event of a mapped key after the history `ops`: with Ctrl and Alt held Q ends the batch as
   * interrupted and the backtick as aborted; what any other edge sends goes to the session, and the
   * batch goes on unless the session refuses it.
   */
  lemma EventDecides(keys: KeyMap, s: Session, ops: seq<Op>, scan: Word, flags: Word, a: seq<Byte>, b: seq<Byte>,
                     keyUp: bool, e0: bool, e1: bool, vk: Key)
    requires |a| == |b| == 12 && FlagBits(flags, keyUp, e0, e1) && keys(scan, PrefixNamed(e0, e1)) == Some(vk)
    requires s.routing == History(ops).0
    ensures |EventBytes(scan, flags, a, b)| == EVENT_SIZE
    ensures var v := ForwardOne(keys, s, EventBytes(scan, flags, a, b));
            var packets := Answer(ops, vk, keyUp).packets;
            var chord := CtrlHeld(ops) && AltHeld(ops) && !keyUp;
            && v.state.routing == History(ops + [KeyEvent(vk, keyUp)]).0
            && (v == Halt(v.state, Fault(Interrupted)) <==> chord && vk == 0x51)
            && (v == Halt(v.state, Fault(ConnectionAborted)) <==> chord && vk == 0xC0)
            && (!(chord && vk in {0x51, 0xC0}) && (packets == [] || s.verdicts == [] || s.verdicts[0]) ==>
                  v == Go(v.state) && v.state.host == Fold(s.host, packets))
            && (packets != [] && s.verdicts != [] && !s.verdicts[0] ==>
                  v == Halt(v.state, Fault(BrokenPipe)) && v.state.host == s.host)
  {
    EventIsRead(scan, flags, a, b);
    BitsAreRead(flags, keyUp, e0, e1);
    ChordsDecideExactly(ops, vk, keyUp);
    if !keyUp {
      PressPassesExactly(ops, vk);
    }
    EdgeLast(ops, KeyEvent(vk, keyUp));
  }

  /** An event of another version, or of a key without a virtual-key code, is invalid. */
  lemma BadEventIsRefused(keys: KeyMap, s: Session, event: seq<Byte>)
    requires |event| == EVENT_SIZE
    requires event[0..4] != [1, 0, 1, 0] || forall p :: keys(U16(event[16..18]), p).None?
    ensures ForwardOne(keys, s, event) == Halt(s, Fault(InvalidData))
  {
    if U16(event[0..2]) == 1 && U16(event[2..4]) == 1 {
      assert event[0..4] == [event[0], event[1], event[2], event[3]];
      assert event[0..2][0] == event[0] && event[0..2][1] == event[1];
      assert event[2..4][0] == event[2] && event[2..4][1] == event[3];
    }
  }

  lemma OneEventMore(n: nat, events: seq<Byte>, event: seq<Byte>)
    requires |events| == n * EVENT_SIZE && |event| == EVENT_SIZE
    ensures |events + event| == (n + 1) * EVENT_SIZE
    ensures n > 0 ==> |events| >= EVENT_SIZE && |events[EVENT_SIZE..]| == (n - 1) * EVENT_SIZE
    ensures n > 0 ==> (events + event)[..EVENT_SIZE] == events[..EVENT_SIZE]
    ensures n > 0 ==> (events + event)[EVENT_SIZE..] == events[EVENT_SIZE..] + event
    ensures n == 0 ==> events + event == event && event[..EVENT_SIZE] == event && event[EVENT_SIZE..] == []
  {
  }

  /** The last event of a batch that has gone well so far decides. */
  lemma {:induction false} LastEventDecides(keys: KeyMap, s: Session, n: nat, events: seq<Byte>, event: seq<Byte>)
    requires |events| == n * EVENT_SIZE && |event| == EVENT_SIZE && ForwardAll(keys, s, n, events).Go?
    ensures |events + event| == (n + 1) * EVENT_SIZE
    ensures ForwardAll(keys, s, n + 1, events + event) == ForwardOne(keys, ForwardAll(keys, s, n, events).state, event)
    decreases n
  {
    OneEventMore(n, events, event);
    if n == 0 {
      var v := ForwardOne(keys, s, event);
      assert v.Go? ==> ForwardAll(keys, v.state, 0, []) == v;
    } else {
      var first := ForwardOne(keys, s, events[..EVENT_SIZE]);
      assert first.Go?;
      LastEventDecides(keys, first.state, n - 1, events[EVENT_SIZE..], event);
    }
  }

  // ---- The worker, ended by a batch --------------------------------------------------------

  /** A message of events: their number, four zero bytes, and the events. */
  predicate IsBatch(payload: Payload, n: nat, events: seq<Byte>) {
    n < 0x1_0000_0000 && |events| == n * EVENT_SIZE && payload == Le32(n) + [0, 0, 0, 0] + events
  }

  lemma BatchIsRead(keys: KeyMap, s: Session, payload: Payload, n: nat, events: seq<Byte>)
    requires IsBatch(payload, n, events)
    ensures Forward(keys, s, payload) == ForwardAll(keys, s, n, events)
  {
    LittleEndian(n, [0, 0, 0, 0]);
    assert payload[..4] == Le32(n) && payload[4..8] == [0, 0, 0, 0] && payload[8..] == events;
    assert U32([0, 0, 0, 0]) == 0 by {
      assert [0, 0, 0, 0][..2] == [0, 0] && [0, 0, 0, 0][2..] == [0, 0];
    }
  }

  /** A pipe that opens, takes `ARM` and `DISARM`, brings one batch, and then the acknowledgement. */
  function OneBatch(payload: Payload): Environment {
    Environment(None, None, None, [], [Bytes(Encode(Message(3, payload)))],
                None, [Bytes(Encode(Message(4, [0])))])
  }

  lemma HandshakeIsAcknowledged(payload: Payload)
    ensures Disarmed(OneBatch(payload), Encode(Message(3, payload))) == None
  {
    var batch, ack := Encode(Message(3, payload)), Encode(Message(4, [0]));
    ParseInvertsEncode(Message(3, payload), []);
    assert batch + [] == batch;
    var empty := Drain(DisarmHandler(), false, (), []);
    assert Drain(DisarmHandler(), false, (), batch) == empty.Behind([Message(3, payload)]);
    assert empty.exit == None && empty.rest == [];
    ParseInvertsEncode(Message(4, [0]), []);
    assert ack + [] == ack && [] + ack == ack;
  }

  /** The batch stops the pump and stays in its buffer. */
  lemma BatchStopsPump(keys: KeyMap, payload: Payload, n: nat, events: seq<Byte>)
    requires IsBatch(payload, n, events)
    requires ForwardAll(keys, Session(IDLE, {}, [], false, false), n, events).Halt?
    ensures var p := Pumped(keys, OneBatch(payload));
            var v := ForwardAll(keys, Session(IDLE, {}, [], false, false), n, events);
            p.rest == Encode(Message(3, payload)) && p.exit == Some(v.why) && p.state == v.state
  {
    var batch := Encode(Message(3, payload));
    BatchIsRead(keys, Session(IDLE, {}, [], false, false), payload, n, events);
    ParseInvertsEncode(Message(3, payload), []);
    assert batch + [] == batch && [] + batch == batch;
    var s := Session(IDLE, {}, [], false, false);
    var v := ForwardAll(keys, s, n, events);
    assert PumpMessage(keys, s, Message(3, payload)) == v;
    assert Drain(PumpHandler(keys), true, s, batch) == Drained(v.state, [], batch, Some(v.why));
  }

  /** Whatever fault ends the batch ends the worker, once the driver has acknowledged and the keys are lifted. */
  lemma BatchEndsWorker(keys: KeyMap, payload: Payload, n: nat, events: seq<Byte>, kind: ErrorKind)
    requires IsBatch(payload, n, events)
    requires var v := ForwardAll(keys, Session(IDLE, {}, [], false, false), n, events);
             v == Halt(v.state, Fault(kind)) && !v.state.refused && v.state.verdicts == []
    ensures Run(keys, OneBatch(payload)) == Outcome(Some(kind), true, true, {})
  {
    BatchStopsPump(keys, payload, n, events);
    ForwardAllTracks(keys, Session(IDLE, {}, [], false, false), n, events);
    var s := Pumped(keys, OneBatch(payload)).state;
    HandshakeIsAcknowledged(payload);
    ReleaseEmptiesHost(s.routing, s.host);
  }

  /** A batch of presses of left Ctrl, left Alt and one more key, whatever their scan codes. */
  ghost predicate ThreePresses(keys: KeyMap, events: seq<Byte>, vk: Key) {
    exists x: Word, y: Word, z: Word, a: seq<Byte> ::
      && |a| == 12
      && keys(x, NoPrefix) == Some(0xA2) && keys(y, NoPrefix) == Some(0xA4) && keys(z, NoPrefix) == Some(vk)
      && events == EventBytes(x, 0, a, a) + EventBytes(y, 0, a, a) + EventBytes(z, 0, a, a)
  }

  /**
   * Ctrl+Alt+Q, with the handshake acknowledged and the lifts accepted, leaves the capture and keeps
   * the session; Ctrl+Alt+backtick ends the session. The host is left with no key down either way.
   */
  lemma ChordEndsWorker(keys: KeyMap, payload: Payload, events: seq<Byte>, vk: Key)
    requires vk in {0x51, 0xC0} && ThreePresses(keys, events, vk) && IsBatch(payload, 3, events)
    ensures var o := Run(keys, OneBatch(payload));
            && o.host == {} && o.acknowledged
            && o.error == Some(if vk == 0x51 then Interrupted else ConnectionAborted)
            && RequestOf(o) == if vk == 0x51 then ExitCapture else Disconnect
  {
    var x: Word, y: Word, z: Word, a: seq<Byte> :|
      && |a| == 12
      && keys(x, NoPrefix) == Some(0xA2) && keys(y, NoPrefix) == Some(0xA4) && keys(z, NoPrefix) == Some(vk)
      && events == EventBytes(x, 0, a, a) + EventBytes(y, 0, a, a) + EventBytes(z, 0, a, a);
    var v := ChordHalts(keys, x, y, z, a, vk);
    BatchEndsWorker(keys, payload, 3, events, if vk == 0x51 then Interrupted else ConnectionAborted);
  }

  lemma NoFlags()
    ensures FlagBits(0, false, false, false)
  {
    assert 0 == 8 * 0;
  }

  /** The press of a modifier only moves the router on. */
  lemma ModifierGoesOn(keys: KeyMap, s: Session, ops: seq<Op>, scan: Word, a: seq<Byte>, vk: Key)
    requires |a| == 12 && keys(scan, NoPrefix) == Some(vk) && vk in MODIFIER_KEYS && s.routing == History(ops).0
    ensures |EventBytes(scan, 0, a, a)| == EVENT_SIZE
    ensures ForwardOne(keys, s, EventBytes(scan, 0, a, a))
         == Go(s.(routing := History(ops + [KeyEvent(vk, false)]).0))
  {
    EventIsRead(scan, 0, a, a);
    NoFlags();
    BitsAreRead(0, false, false, false);
    PressPassesExactly(ops, vk);
    ChordsDecideExactly(ops, vk, false);
    EdgeLast(ops, KeyEvent(vk, false));
  }

  lemma ChordHalts(keys: KeyMap, x: Word, y: Word, z: Word, a: seq<Byte>, vk: Key) returns (v: Verdict<Session>)
    requires |a| == 12 && vk in {0x51, 0xC0}
    requires keys(x, NoPrefix) == Some(0xA2) && keys(y, NoPrefix) == Some(0xA4) && keys(z, NoPrefix) == Some(vk)
    ensures var events := EventBytes(x, 0, a, a) + EventBytes(y, 0, a, a) + EventBytes(z, 0, a, a);
            && |events| == 3 * EVENT_SIZE && v == ForwardAll(keys, Session(IDLE, {}, [], false, false), 3, events)
            && v == Halt(v.state, Fault(if vk == 0x51 then Interrupted else ConnectionAborted))
            && !v.state.refused && v.state.verdicts == []
  {
    var s := Session(IDLE, {}, [], false, false);
    var e1, e2, e3 := EventBytes(x, 0, a, a), EventBytes(y, 0, a, a), EventBytes(z, 0, a, a);
    var both := [KeyEvent(0xA2, false)] + [KeyEvent(0xA4, false)];
    assert [] + [KeyEvent(0xA2, false)] == [KeyEvent(0xA2, false)];
    ModifierGoesOn(keys, s, [], x, a, 0xA2);
    var t := s.(routing := History([KeyEvent(0xA2, false)]).0);
    ModifierGoesOn(keys, t, [KeyEvent(0xA2, false)], y, a, 0xA4);
    var u := s.(routing := History(both).0);
    LastHalts(keys, u, both, z, a, vk);
    assert [] + e1 == e1;
    LastEventDecides(keys, s, 0, [], e1);
    LastEventDecides(keys, s, 1, e1, e2);
    LastEventDecides(keys, s, 2, e1 + e2, e3);
    v := ForwardAll(keys, s, 3, e1 + e2 + e3);
  }

  lemma LastHalts(keys: KeyMap, u: Session, both: seq<Op>, z: Word, a: seq<Byte>, vk: Key)
    requires |a| == 12 && vk in {0x51, 0xC0} && keys(z, NoPrefix) == Some(vk)
    requires both == [KeyEvent(0xA2, false)] + [KeyEvent(0xA4, false)] && u.routing == History(both).0
    requires !u.refused && u.verdicts == []
    ensures |EventBytes(z, 0, a, a)| == EVENT_SIZE
    ensures var v := ForwardOne(keys, u, EventBytes(z, 0, a, a));
            && v == Halt(v.state, Fault(if vk == 0x51 then Interrupted else ConnectionAborted))
            && !v.state.refused && v.state.verdicts == []
  {
    NoFlags();
    EventIsRead(z, 0, a, a);
    EventDecides(keys, u, both, z, 0, a, a, false, false, false, vk);
    EdgeLast([KeyEvent(0xA2, false)], KeyEvent(0xA4, false));
    EdgeLast([], KeyEvent(0xA2, false));
    assert [] + [KeyEvent(0xA2, false)] == [KeyEvent(0xA2, false)];
    assert HeldOf(both, 0x11, 0xA2) && HeldOf(both, 0xA4, 0xA4);
  }
}
