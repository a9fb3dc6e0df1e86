/**
 * Key routing of the input broker (`BrokerRouter` in app-native/src/input.rs): which broker keys
 * reach the host, in what order, and which ones the host still holds.
 */
module BrokerRouting {
  import opened Prelude

  /** A virtual-key code; the cast to `u16` in a packet keeps it. */
  type Key = k: nat | k < 0x1_0000

  const VK_SHIFT: Key := 0x10
  const VK_CONTROL: Key := 0x11
  const VK_MENU: Key := 0x12
  const VK_DELETE: Key := 0x2E
  const VK_Q: Key := 0x51
  const VK_LWIN: Key := 0x5B
  const VK_RWIN: Key := 0x5C
  const VK_F4: Key := 0x73
  const VK_LSHIFT: Key := 0xA0
  const VK_RSHIFT: Key := 0xA1
  const VK_LCONTROL: Key := 0xA2
  const VK_RCONTROL: Key := 0xA3
  const VK_LMENU: Key := 0xA4
  const VK_RMENU: Key := 0xA5
  const VK_OEM_3: Key := 0xC0

  predicate IsModifier(vk: Key) {
    vk in {VK_CONTROL, VK_LCONTROL, VK_RCONTROL, VK_SHIFT, VK_LSHIFT, VK_RSHIFT,
           VK_MENU, VK_LMENU, VK_RMENU, VK_LWIN, VK_RWIN}
  }

  datatype Held = Held(
    ctrl: bool, rightCtrl: bool, shift: bool, rightShift: bool,
    leftAlt: bool, rightAlt: bool, leftMeta: bool, rightMeta: bool)

  datatype Modifiers = Modifiers(ctrl: bool, shift: bool, alt: bool, meta: bool)

  datatype Packet = Packet(down: bool, modifiers: Modifiers, key: Key)

  /** The router as a value. */
  datatype Routing = Routing(held: Held, pending: seq<(Key, Modifiers)>, sentDown: seq<Key>)

  const NOTHING_HELD := Held(false, false, false, false, false, false, false, false)
  const IDLE := Routing(NOTHING_HELD, [], [])

  function Updated(h: Held, vk: Key, down: bool): Held {
    if vk == VK_CONTROL || vk == VK_LCONTROL then h.(ctrl := down)
    else if vk == VK_RCONTROL then h.(rightCtrl := down)
    else if vk == VK_SHIFT || vk == VK_LSHIFT then h.(shift := down)
    else if vk == VK_RSHIFT then h.(rightShift := down)
    else if vk == VK_LMENU then h.(leftAlt := down)
    else if vk == VK_RMENU then h.(rightAlt := down)
    else if vk == VK_LWIN then h.(leftMeta := down)
    else if vk == VK_RWIN then h.(rightMeta := down)
    else h
  }

  function ModifiersOf(h: Held): Modifiers {
    Modifiers(h.ctrl || h.rightCtrl, h.shift || h.rightShift, h.leftAlt || h.rightAlt, h.leftMeta || h.rightMeta)
  }

  /** Chords that stay on this machine. */
  predicate LocalOnly(h: Held, vk: Key) {
    var m := ModifiersOf(h);
    (m.ctrl && m.alt && (vk == VK_DELETE || vk == VK_Q || vk == VK_OEM_3)) || (vk == VK_F4 && m.alt)
  }

  /** The first place of a key, or the length. */
  function IndexOf(keys: seq<Key>, vk: Key): (i: nat)
    ensures i <= |keys|
    ensures i < |keys| ==> keys[i] == vk
    ensures forall j :: 0 <= j < i ==> keys[j] != vk
  {
    if keys == [] || keys[0] == vk then 0 else 1 + IndexOf(keys[1..], vk)
  }

  function Without<T>(s: seq<T>, i: nat): seq<T>
    requires i < |s|
  {
    s[..i] + s[i + 1..]
  }

  function PendingKeys(pending: seq<(Key, Modifiers)>): (keys: seq<Key>)
    ensures |keys| == |pending|
    ensures forall i :: 0 <= i < |keys| ==> keys[i] == pending[i].0
  {
    seq(|pending|, i requires 0 <= i < |pending| => pending[i].0)
  }

  function Downs(pending: seq<(Key, Modifiers)>): (packets: seq<Packet>)
    ensures |packets| == |pending|
  {
    seq(|pending|, i requires 0 <= i < |pending| => Packet(true, pending[i].1, pending[i].0))
  }

  function Remembered(sent: seq<Key>, vk: Key): seq<Key> {
    if vk in sent then sent else sent + [vk]
  }

  function RememberedAll(sent: seq<Key>, keys: seq<Key>): seq<Key>
    decreases |keys|
  {
    if keys == [] then sent else RememberedAll(Remembered(sent, keys[0]), keys[1..])
  }

  function Forgotten(sent: seq<Key>, vk: Key): seq<Key> {
    var i := IndexOf(sent, vk);
    if i < |sent| then Without(sent, i) else sent
  }

  datatype Routed = Routed(routing: Routing, packets: seq<Packet>, exit: bool, disconnect: bool)

  function Route(r: Routing, vk: Key, keyUp: bool): Routed {
    if keyUp then RouteUp(r, vk)
    else
      var h := Updated(r.held, vk, true);
      if IsModifier(vk) then
        var known := vk in PendingKeys(r.pending) || vk in r.sentDown;
        Routed(r.(held := h, pending := if known then r.pending else r.pending + [(vk, ModifiersOf(h))]),
               [], false, false)
      else if LocalOnly(h, vk) then
        Routed(r.(held := h, pending := []), [], vk == VK_Q, vk == VK_OEM_3)
      else
        Routed(Routing(h, [], Remembered(RememberedAll(r.sentDown, PendingKeys(r.pending)), vk)),
               Downs(r.pending) + [Packet(true, ModifiersOf(h), vk)], false, false)
  }

  function RouteUp(r: Routing, vk: Key): Routed {
    var h := if IsModifier(vk) then Updated(r.held, vk, false) else r.held;
    var up := Packet(false, ModifiersOf(h), vk);
    var i := IndexOf(PendingKeys(r.pending), vk);
    if IsModifier(vk) && i < |r.pending| then
      Routed(r.(held := h, pending := Without(r.pending, i)), [Packet(true, r.pending[i].1, vk), up], false, false)
    else
      Routed(r.(held := h, sentDown := Forgotten(r.sentDown, vk)), if vk in r.sentDown then [up] else [], false, false)
  }

  /** Key-ups for `sent` from last to first. */
  function Releases(h: Held, sent: seq<Key>): (Held, seq<Packet>)
    decreases |sent|
  {
    if sent == [] then (h, [])
    else
      var g := Updated(h, Last(sent), false);
      var (end, packets) := Releases(g, Front(sent));
      (end, [Packet(false, ModifiersOf(g), Last(sent))] + packets)
  }

  function Release(r: Routing): (Routing, seq<Packet>) {
    var (h, packets) := Releases(r.held, r.sentDown);
    (Routing(h, [], []), packets)
  }

  class BrokerRouter {
    var held: Held
    var pending: seq<(Key, Modifiers)>
    var sentDown: seq<Key>

    function Value(): Routing
      reads this
    {
      Routing(held, pending, sentDown)
    }

    constructor ()
      ensures Value() == IDLE
    {
      held, pending, sentDown := NOTHING_HELD, [], [];
    }

    method RememberSent(vk: Key)
      modifies this`sentDown
      ensures sentDown == Remembered(old(sentDown), vk)
    {
      if vk !in sentDown {
        sentDown := sentDown + [vk];
      }
    }

    method ForgetSent(vk: Key) returns (known: bool)
      modifies this`sentDown
      ensures known == (vk in old(sentDown)) && sentDown == Forgotten(old(sentDown), vk)
    {
      var i := IndexOf(sentDown, vk);
      if i < |sentDown| {
        sentDown := Without(sentDown, i);
        return true;
      }
      known := false;
    }

    method FlushPending() returns (packets: seq<Packet>)
      modifies this`pending, this`sentDown
      ensures packets == Downs(old(pending)) && pending == []
      ensures sentDown == RememberedAll(old(sentDown), PendingKeys(old(pending)))
    {
      var taken := pending;
      pending := [];
      packets := [];
      var i := 0;
      while i < |taken|
        invariant 0 <= i <= |taken| && packets == Downs(taken)[..i] && pending == []
        invariant RememberedAll(sentDown, PendingKeys(taken)[i..]) == RememberedAll(old(sentDown), PendingKeys(taken))
      {
        packets := packets + [Packet(true, taken[i].1, taken[i].0)];
        assert PendingKeys(taken)[i..][1..] == PendingKeys(taken)[i + 1..];
        RememberSent(taken[i].0);
        i := i + 1;
      }
    }

    method RouteKey(vk: Key, keyUp: bool) returns (packets: seq<Packet>, exit: bool, disconnect: bool)
      modifies this
      ensures Routed(Value(), packets, exit, disconnect) == Route(old(Value()), vk, keyUp)
    {
      packets, exit, disconnect := [], false, false;
      if !keyUp {
        held := Updated(held, vk, true);
        if IsModifier(vk) {
          if vk !in PendingKeys(pending) && vk !in sentDown {
            pending := pending + [(vk, ModifiersOf(held))];
          }
          return;
        }
        if LocalOnly(held, vk) {
          pending := [];
          return [], vk == VK_Q, vk == VK_OEM_3;
        }
        packets := FlushPending();
        packets := packets + [Packet(true, ModifiersOf(held), vk)];
        RememberSent(vk);
        return;
      }
      if IsModifier(vk) {
        var i := IndexOf(PendingKeys(pending), vk);
        held := Updated(held, vk, false);
        if i < |pending| {
          packets := [Packet(true, pending[i].1, pending[i].0), Packet(false, ModifiersOf(held), vk)];
          pending := Without(pending, i);
          return;
        }
      }
      var known := ForgetSent(vk);
      if known {
        packets := [Packet(false, ModifiersOf(held), vk)];
      }
    }

    method ReleaseSent() returns (packets: seq<Packet>)
      modifies this
      ensures (Value(), packets) == Release(old(Value()))
    {
      var keys := sentDown;
      sentDown := [];
      packets := [];
      while keys != []
        invariant sentDown == []
        invariant Releases(old(held), old(sentDown)).0 == Releases(held, keys).0
        invariant Releases(old(held), old(sentDown)).1 == packets + Releases(held, keys).1
        decreases |keys|
      {
        assert Releases(held, keys).1 == [Packet(false, ModifiersOf(Updated(held, Last(keys), false)), Last(keys))]
                                         + Releases(Updated(held, Last(keys), false), Front(keys)).1;
        var vk := Last(keys);
        keys := Front(keys);
        held := Updated(held, vk, false);
        packets := packets + [Packet(false, ModifiersOf(held), vk)];
      }
      assert packets + Releases(held, []).1 == packets;
      pending := [];
    }
  }

  // ---- The host ----------------------------------------------------------------------------

  function Applied(host: set<Key>, p: Packet): set<Key> {
    if p.down then host + {p.key} else host - {p.key}
  }

  /** The keys the host holds after a batch. */
  function Fold(host: set<Key>, packets: seq<Packet>): set<Key>
    decreases |packets|
  {
    if packets == [] then host else Fold(Applied(host, packets[0]), packets[1..])
  }

  /** No key-up in the batch is for a key that is not down at that point. */
  ghost predicate NoStrayUp(host: set<Key>, packets: seq<Packet>)
    decreases |packets|
  {
    packets != [] ==> (packets[0].down || packets[0].key in host) && NoStrayUp(Applied(host, packets[0]), packets[1..])
  }

  function KeySet(keys: seq<Key>): set<Key> {
    set k | k in keys
  }

  ghost predicate Distinct(keys: seq<Key>) {
    forall i, j :: 0 <= i < j < |keys| ==> keys[i] != keys[j]
  }

  /** The sent keys are distinct; the pending ones too, all of them modifiers and none of them sent. */
  ghost predicate WellKept(r: Routing) {
    && Distinct(r.sentDown) && Distinct(PendingKeys(r.pending))
    && (forall k :: k in PendingKeys(r.pending) ==> IsModifier(k) && k !in r.sentDown)
  }

  /** The host holds exactly the keys the router remembers sending. */
  ghost predicate InStep(r: Routing, host: set<Key>) {
    WellKept(r) && host == KeySet(r.sentDown)
  }

  lemma {:induction false} FoldJoins(host: set<Key>, a: seq<Packet>, b: seq<Packet>)
    ensures Fold(host, a + b) == Fold(Fold(host, a), b)
    ensures NoStrayUp(host, a + b) <==> NoStrayUp(host, a) && NoStrayUp(Fold(host, a), b)
    decreases |a|
  {
    if a == [] {
      assert a + b == b;
    } else {
      assert (a + b)[1..] == a[1..] + b;
      FoldJoins(Applied(host, a[0]), a[1..], b);
    }
  }

  lemma {:induction false} FlushReachesHost(sent: seq<Key>, pending: seq<(Key, Modifiers)>)
    requires Distinct(sent)
    ensures Distinct(RememberedAll(sent, PendingKeys(pending)))
    ensures Fold(KeySet(sent), Downs(pending)) == KeySet(RememberedAll(sent, PendingKeys(pending)))
    ensures NoStrayUp(KeySet(sent), Downs(pending))
    decreases |pending|
  {
    if pending != [] {
      var next := Remembered(sent, pending[0].0);
      assert KeySet(next) == KeySet(sent) + {pending[0].0};
      FlushReachesHost(next, pending[1..]);
      assert PendingKeys(pending)[1..] == PendingKeys(pending[1..]);
      assert Downs(pending)[1..] == Downs(pending[1..]);
    }
  }

  lemma ForgettingKeepsDistinct(sent: seq<Key>, vk: Key)
    requires Distinct(sent)
    ensures Distinct(Forgotten(sent, vk)) && KeySet(Forgotten(sent, vk)) == KeySet(sent) - {vk}
  {
    var i := IndexOf(sent, vk);
    if i < |sent| {
      var kept := Without(sent, i);
      forall k
        ensures k in kept <==> k in sent && k != vk
      {
        if k in sent && k != vk {
          var j :| 0 <= j < |sent| && sent[j] == k;
          assert kept[if j < i then j else j - 1] == k;
        }
      }
    }
  }

  lemma TapIsNeutral(host: set<Key>, down: Packet, up: Packet)
    requires down.down && !up.down && down.key == up.key && down.key !in host
    ensures Fold(host, [down, up]) == host && NoStrayUp(host, [down, up])
  {
    assert [down, up][1..] == [up] && [up][1..] == [];
    assert Fold(host + {down.key}, [up]) == Fold((host + {down.key}) - {up.key}, []);
    assert (host + {down.key}) - {up.key} == host;
  }

  lemma RouteUpKeepsInStep(r: Routing, host: set<Key>, vk: Key)
    requires InStep(r, host)
    ensures var out := RouteUp(r, vk);
            InStep(out.routing, Fold(host, out.packets)) && NoStrayUp(host, out.packets)
  {
    var out := RouteUp(r, vk);
    var i := IndexOf(PendingKeys(r.pending), vk);
    if IsModifier(vk) && i < |r.pending| {
      assert PendingKeys(Without(r.pending, i)) == Without(PendingKeys(r.pending), i);
      assert vk == PendingKeys(r.pending)[i] && vk !in host;
      TapIsNeutral(host, out.packets[0], out.packets[1]);
      assert out.packets == [out.packets[0], out.packets[1]];
    } else {
      ForgettingKeepsDistinct(r.sentDown, vk);
      assert vk !in r.sentDown ==> Forgotten(r.sentDown, vk) == r.sentDown;
    }
  }

  lemma RouteDownKeepsInStep(r: Routing, host: set<Key>, vk: Key)
    requires InStep(r, host)
    ensures var out := Route(r, vk, false);
            InStep(out.routing, Fold(host, out.packets)) && NoStrayUp(host, out.packets)
  {
    var h := Updated(r.held, vk, true);
    if IsModifier(vk) {
      assert PendingKeys(r.pending + [(vk, ModifiersOf(h))]) == PendingKeys(r.pending) + [vk];
    } else if !LocalOnly(h, vk) {
      FlushReachesHost(r.sentDown, r.pending);
      var flushed := RememberedAll(r.sentDown, PendingKeys(r.pending));
      FoldJoins(host, Downs(r.pending), [Packet(true, ModifiersOf(h), vk)]);
      assert KeySet(Remembered(flushed, vk)) == KeySet(flushed) + {vk};
    }
  }

  /** One routed event leaves the host in step with the router, and never lifts a key that is up. */
  lemma RouteKeepsInStep(r: Routing, host: set<Key>, vk: Key, keyUp: bool)
    requires InStep(r, host)
    ensures var out := Route(r, vk, keyUp);
            InStep(out.routing, Fold(host, out.packets)) && NoStrayUp(host, out.packets)
  {
    if keyUp {
      RouteUpKeepsInStep(r, host, vk);
    } else {
      RouteDownKeepsInStep(r, host, vk);
    }
  }

  lemma {:induction false} ReleasesEmptyHost(h: Held, sent: seq<Key>)
    requires Distinct(sent)
    ensures Fold(KeySet(sent), Releases(h, sent).1) == {} && NoStrayUp(KeySet(sent), Releases(h, sent).1)
    decreases |sent|
  {
    if sent != [] {
      var g := Updated(h, Last(sent), false);
      FrontThenLast(sent);
      assert KeySet(sent) - {Last(sent)} == KeySet(Front(sent)) by {
        assert forall k :: k in sent <==> k in Front(sent) || k == Last(sent);
      }
      ReleasesEmptyHost(g, Front(sent));
      assert Releases(h, sent).1[1..] == Releases(g, Front(sent)).1;
    }
  }

  /** `release_sent` lifts every key the host holds. */
  lemma ReleaseEmptiesHost(r: Routing, host: set<Key>)
    requires InStep(r, host)
    ensures var (end, packets) := Release(r);
            Fold(host, packets) == {} && NoStrayUp(host, packets) && InStep(end, {}) && end.pending == []
  {
    ReleasesEmptyHost(r.held, r.sentDown);
  }

  // ---- Histories ---------------------------------------------------------------------------

  datatype Op = KeyEvent(vk: Key, keyUp: bool) | ReleaseAll

  function Perform(r: Routing, op: Op): (Routing, seq<Packet>) {
    match op
    case KeyEvent(vk, keyUp) => var out := Route(r, vk, keyUp); (out.routing, out.packets)
    case ReleaseAll => Release(r)
  }

  /** The router after a history, and everything it emitted. */
  function History(ops: seq<Op>): (Routing, seq<Packet>)
    decreases |ops|
  {
    if ops == [] then (IDLE, [])
    else
      var (r, packets) := History(Front(ops));
      var (next, more) := Perform(r, Last(ops));
      (next, packets + more)
  }

  /**
   * Over every sequence of `route` and `release_sent` calls the remembered keys are distinct, disjoint
   * from the pending modifiers, and exactly what the emitted packets leave down on the host.
   */
  lemma {:induction false} HistoryStaysInStep(ops: seq<Op>)
    ensures var (r, packets) := History(ops);
            InStep(r, Fold({}, packets)) && NoStrayUp({}, packets)
    decreases |ops|
  {
    if ops != [] {
      HistoryStaysInStep(Front(ops));
      var (r, packets) := History(Front(ops));
      var (next, more) := Perform(r, Last(ops));
      var host := Fold({}, packets);
      match Last(ops) {
        case KeyEvent(vk, keyUp) => RouteKeepsInStep(r, host, vk, keyUp);
        case ReleaseAll => ReleaseEmptiesHost(r, host);
      }
      FoldJoins({}, packets, more);
    }
  }

  /** The modifiers of a chord pressed one after another, none of them emitted yet. */
  function Pressed(h: Held, chord: seq<Key>): Held
    decreases |chord|
  {
    if chord == [] then h else Updated(Pressed(h, Front(chord)), Last(chord), true)
  }

  function Presses(chord: seq<Key>): seq<Op> {
    seq(|chord|, i requires 0 <= i < |chord| => KeyEvent(chord[i], false))
  }

  /** Pressing distinct modifiers only queues them, in press order. */
  lemma {:induction false} ModifiersWait(chord: seq<Key>)
    requires Distinct(chord) && forall k :: k in chord ==> IsModifier(k)
    ensures var (r, packets) := History(Presses(chord));
            packets == [] && r.held == Pressed(NOTHING_HELD, chord)
            && PendingKeys(r.pending) == chord && r.sentDown == []
    decreases |chord|
  {
    if chord != [] {
      ModifiersWait(Front(chord));
      assert Front(Presses(chord)) == Presses(Front(chord));
      var (r, _) := History(Presses(Front(chord)));
      var vk := Last(chord);
      assert vk !in Front(chord);
      assert PendingKeys(r.pending + [(vk, ModifiersOf(Updated(r.held, vk, true)))]) == PendingKeys(r.pending) + [vk];
      FrontThenLast(chord);
    } else {
      assert Presses(chord) == [];
    }
  }

  function KeysOf(packets: seq<Packet>): seq<Key> {
    seq(|packets|, i requires 0 <= i < |packets| => packets[i].key)
  }

  /** The key that completes a chord emits every modifier in press order and then itself, all of them down. */
  lemma ChordIsSentWhole(chord: seq<Key>, vk: Key)
    requires Distinct(chord) && (forall k :: k in chord ==> IsModifier(k)) && !IsModifier(vk)
    requires !LocalOnly(Pressed(NOTHING_HELD, chord), vk)
    ensures var packets := History(Presses(chord) + [KeyEvent(vk, false)]).1;
            KeysOf(packets) == chord + [vk] && forall p :: p in packets ==> p.down
  {
    ModifiersWait(chord);
    var (r, none) := History(Presses(chord));
    var ops := Presses(chord) + [KeyEvent(vk, false)];
    assert Front(ops) == Presses(chord) && Last(ops) == KeyEvent(vk, false);
    var packets := Downs(r.pending) + [Packet(true, ModifiersOf(r.held), vk)];
    assert History(ops).1 == none + packets == packets;
    assert KeysOf(packets) == PendingKeys(r.pending) + [vk];
  }

  /** A local chord emits nothing at all, not even when its keys are lifted again in any order. */
  lemma LocalChordIsSilent(chord: seq<Key>, vk: Key, lifted: seq<Key>)
    requires Distinct(chord) && (forall k :: k in chord ==> IsModifier(k)) && !IsModifier(vk)
    requires LocalOnly(Pressed(NOTHING_HELD, chord), vk)
    ensures History(Presses(chord) + [KeyEvent(vk, false)] + Lifts(lifted)).1 == []
  {
    ModifiersWait(chord);
    assert Front(Presses(chord) + [KeyEvent(vk, false)]) == Presses(chord);
    LiftsAreSilent(Presses(chord) + [KeyEvent(vk, false)], lifted);
  }

  function Lifts(keys: seq<Key>): seq<Op> {
    seq(|keys|, i requires 0 <= i < |keys| => KeyEvent(keys[i], true))
  }

  lemma {:induction false} LiftsAreSilent(ops: seq<Op>, keys: seq<Key>)
    requires var (r, packets) := History(ops); r.pending == [] && r.sentDown == [] && packets == []
    ensures var (r, packets) := History(ops + Lifts(keys)); r.pending == [] && r.sentDown == [] && packets == []
    decreases |keys|
  {
    if keys != [] {
      LiftsAreSilent(ops, Front(keys));
      assert Front(ops + Lifts(keys)) == ops + Lifts(Front(keys));
    } else {
      assert ops + Lifts(keys) == ops;
    }
  }
}
