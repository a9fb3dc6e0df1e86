/** Folds and iterated steps, whatever the register they work on. */
module Folds {

  /** A step taken for each element in turn. */
  function Fold<S, B>(step: (S, B) -> S, start: S, data: seq<B>): S
    decreases |data|
  {
    if data == [] then start else Fold(step, step(start, data[0]), data[1..])
  }

  function Iterate<S>(f: S -> S, x: S, n: nat): S
    decreases n
  {
    if n == 0 then x else Iterate(f, f(x), n - 1)
  }

  lemma {:induction false} FoldThen<S, B>(step: (S, B) -> S, start: S, a: seq<B>, b: seq<B>)
    ensures Fold(step, start, a + b) == Fold(step, Fold(step, start, a), b)
    decreases |a|
  {
    if a == [] {
      assert a + b == b;
    } else {
      assert (a + b)[1..] == a[1..] + b;
      FoldThen(step, step(start, a[0]), a[1..], b);
    }
  }

  lemma FoldMiddle<S, B>(step: (S, B) -> S, start: S, before: seq<B>, x: seq<B>, y: seq<B>, after: seq<B>)
    requires Fold(step, Fold(step, start, before), x) == Fold(step, Fold(step, start, before), y)
    ensures Fold(step, start, before + x + after) == Fold(step, start, before + y + after)
  {
    FoldThen(step, start, before, x);
    FoldThen(step, start, before, y);
    FoldThen(step, start, before + x, after);
    FoldThen(step, start, before + y, after);
  }

  lemma FoldFirst<S, B>(step: (S, B) -> S, start: S, b: B, rest: seq<B>)
    ensures Fold(step, start, [b] + rest) == Fold(step, step(start, b), rest)
  {
    assert ([b] + rest)[1..] == rest;
  }

  lemma FoldGrows<S, B>(step: (S, B) -> S, start: S, data: seq<B>, i: nat)
    requires i < |data|
    ensures Fold(step, start, data[..i + 1]) == step(Fold(step, start, data[..i]), data[i])
  {
    assert data[..i + 1] == data[..i] + [data[i]];
    FoldThen(step, start, data[..i], [data[i]]);
    FoldFirst(step, Fold(step, start, data[..i]), data[i], []);
    assert [data[i]] + [] == [data[i]];
  }

  lemma {:induction false} IterateThen<S>(f: S -> S, x: S, n: nat, m: nat)
    ensures Iterate(f, x, n + m) == Iterate(f, Iterate(f, x, n), m)
    decreases n
  {
    if n > 0 {
      IterateThen(f, f(x), n - 1, m);
    }
  }

  lemma {:induction false} IterateFixed<S>(f: S -> S, x: S, n: nat)
    requires f(x) == x
    ensures Iterate(f, x, n) == x
    decreases n
  {
    if n > 0 {
      IterateFixed(f, x, n - 1);
    }
  }

  /** The `n` parts that `low` takes off, one after each `half`. */
  function Parts<S>(low: S -> S, half: S -> S, b: S, n: nat): (r: seq<S>)
    ensures |r| == n
    decreases n
  {
    if n == 0 then [] else [low(b)] + Parts(low, half, half(b), n - 1)
  }

  function Flat<S, B>(parts: B -> seq<S>, data: seq<B>): seq<S> {
    if data == [] then [] else parts(data[0]) + Flat(parts, data[1..])
  }

  // What a shift register is built from, each part as a law of its own.

  ghost predicate ShiftsLinearly<S(!new)>(shift: S -> S, xor: (S, S) -> S) {
    forall c, b :: shift(xor(c, b)) == xor(shift(c), shift(b))
  }

  ghost predicate Regroups<S(!new)>(xor: (S, S) -> S) {
    forall c, d, x, y :: xor(xor(c, x), xor(d, y)) == xor(xor(c, d), xor(x, y))
  }

  ghost predicate Associates<S(!new)>(xor: (S, S) -> S) {
    forall a, b, c :: xor(xor(a, b), c) == xor(a, xor(b, c))
  }

  ghost predicate Commutes<S(!new)>(xor: (S, S) -> S) {
    forall a, b :: xor(a, b) == xor(b, a)
  }

  lemma PairsRegroup<S(!new)>(xor: (S, S) -> S)
    requires Associates(xor) && Commutes(xor)
    ensures Regroups(xor)
  {
    forall c, d, x, y
      ensures xor(xor(c, x), xor(d, y)) == xor(xor(c, d), xor(x, y))
    {
      calc {
        xor(xor(c, x), xor(d, y));
        xor(c, xor(x, xor(d, y)));
        xor(c, xor(xor(x, d), y));
        xor(c, xor(xor(d, x), y));
        xor(c, xor(d, xor(x, y)));
        xor(xor(c, d), xor(x, y));
      }
    }
  }

  ghost predicate TurnsBy<S(!new)>(turn: (S, S) -> S, shift: S -> S, xor: (S, S) -> S) {
    forall c, b :: turn(c, b) == shift(xor(c, b))
  }

  ghost predicate TakesOff<S(!new)>(xor: (S, S) -> S, low: S -> S, rest: S -> S) {
    forall c, b :: xor(c, b) == xor(xor(c, low(b)), rest(b))
  }

  ghost predicate RestHalves<S(!new)>(shift: S -> S, rest: S -> S, half: S -> S) {
    forall b :: shift(rest(b)) == half(b)
  }

  ghost predicate KeepsZero<S(!new)>(turn: (S, S) -> S, zero: S) {
    forall c :: turn(c, zero) == zero <==> c == zero
  }

  ghost predicate HalvesAtMost<S(!new)>(turn: (S, S) -> S, half: S -> S, atLeast: (S, S) -> bool, isBit: S -> bool) {
    forall c, t, b :: atLeast(c, t) && isBit(b) ==> atLeast(turn(c, b), half(t))
  }

  ghost predicate HalvesFlipped<S(!new)>(xor: (S, S) -> S, half: S -> S, atLeast: (S, S) -> bool, isBit: S -> bool) {
    forall c, t, b :: atLeast(c, t) && isBit(b) ==> atLeast(half(xor(c, b)), half(t))
  }

  ghost predicate ShiftsNoLower<S(!new)>(shift: S -> S, half: S -> S, atLeast: (S, S) -> bool) {
    forall x, t :: atLeast(half(x), t) ==> atLeast(shift(x), t)
  }

  lemma TurnsHalveAtMost<S(!new)>(
    shift: S -> S, xor: (S, S) -> S, turn: (S, S) -> S, half: S -> S, atLeast: (S, S) -> bool, isBit: S -> bool)
    requires HalvesFlipped(xor, half, atLeast, isBit) && ShiftsNoLower(shift, half, atLeast)
             && TurnsBy(turn, shift, xor)
    ensures HalvesAtMost(turn, half, atLeast, isBit)
  {
  }

  /** A shift of what has been folded in does its low part now and keeps the rest for later. */
  ghost predicate Splits<S(!new)>(shift: S -> S, xor: (S, S) -> S, turn: (S, S) -> S, low: S -> S, half: S -> S) {
    forall c, b :: shift(xor(c, b)) == xor(turn(c, low(b)), half(b))
  }

  /** Folding in `b` as a whole and shifting `n` times is folding in its parts one by one. */
  lemma {:induction false} TurnsAreParts<S(!new)>(
    shift: S -> S, xor: (S, S) -> S, turn: (S, S) -> S, low: S -> S, half: S -> S, c: S, b: S, n: nat)
    requires Splits(shift, xor, turn, low, half)
    ensures Iterate(shift, xor(c, b), n) == xor(Fold(turn, c, Parts(low, half, b, n)), Iterate(half, b, n))
    decreases n
  {
    if n > 0 {
      assert shift(xor(c, b)) == xor(turn(c, low(b)), half(b));
      TurnsAreParts(shift, xor, turn, low, half, turn(c, low(b)), half(b), n - 1);
      FoldFirst(turn, c, low(b), Parts(low, half, half(b), n - 1));
    }
  }

  lemma {:induction false} FoldOfParts<S(!new), B(!new)>(
    outer: (S, B) -> S, inner: (S, S) -> S, parts: B -> seq<S>, c: S, data: seq<B>)
    requires forall c, b :: outer(c, b) == Fold(inner, c, parts(b))
    ensures Fold(outer, c, data) == Fold(inner, c, Flat(parts, data))
    decreases |data|
  {
    if data != [] {
      FoldThen(inner, c, parts(data[0]), Flat(parts, data[1..]));
      FoldOfParts(outer, inner, parts, outer(c, data[0]), data[1..]);
    }
  }

  function Zip<B>(mix: (B, B) -> B, x: seq<B>, y: seq<B>): (e: seq<B>)
    requires |x| == |y|
    ensures |e| == |x| && forall k :: 0 <= k < |x| ==> e[k] == mix(x[k], y[k])
  {
    if x == [] then [] else [mix(x[0], y[0])] + Zip(mix, x[1..], y[1..])
  }

  ghost predicate Linear<S(!new), B(!new)>(xor: (S, S) -> S, mix: (B, B) -> B, turn: (S, B) -> S) {
    forall c, d, x, y :: xor(turn(c, x), turn(d, y)) == turn(xor(c, d), mix(x, y))
  }

  lemma SplitTurns<S(!new)>(
    shift: S -> S, xor: (S, S) -> S, turn: (S, S) -> S, low: S -> S, rest: S -> S, half: S -> S)
    requires ShiftsLinearly(shift, xor) && TakesOff(xor, low, rest) && RestHalves(shift, rest, half)
    requires TurnsBy(turn, shift, xor)
    ensures Splits(shift, xor, turn, low, half)
  {
    forall c, b
      ensures shift(xor(c, b)) == xor(turn(c, low(b)), half(b))
    {
      assert xor(c, b) == xor(xor(c, low(b)), rest(b));
    }
  }

  lemma LinearTurns<S(!new)>(shift: S -> S, xor: (S, S) -> S, turn: (S, S) -> S)
    requires ShiftsLinearly(shift, xor) && Associates(xor) && Commutes(xor) && TurnsBy(turn, shift, xor)
    ensures Linear(xor, xor, turn)
  {
    PairsRegroup(xor);
  }

  /** The registers of two inputs differ by what the turns make of the difference of the inputs. */
  lemma {:induction false} DifferencesFold<S(!new), B(!new)>(
    xor: (S, S) -> S, mix: (B, B) -> B, turn: (S, B) -> S, c: S, d: S, x: seq<B>, y: seq<B>)
    requires |x| == |y| && Linear(xor, mix, turn)
    ensures xor(Fold(turn, c, x), Fold(turn, d, y)) == Fold(turn, xor(c, d), Zip(mix, x, y))
    decreases |x|
  {
    if x != [] {
      assert xor(turn(c, x[0]), turn(d, y[0])) == turn(xor(c, d), mix(x[0], y[0]));
      DifferencesFold(xor, mix, turn, turn(c, x[0]), turn(d, y[0]), x[1..], y[1..]);
      FoldFirst(turn, xor(c, d), mix(x[0], y[0]), Zip(mix, x[1..], y[1..]));
    }
  }

  lemma {:induction false} IterateLinearly<S(!new)>(f: S -> S, xor: (S, S) -> S, a: S, b: S, n: nat)
    requires ShiftsLinearly(f, xor)
    ensures Iterate(f, xor(a, b), n) == xor(Iterate(f, a, n), Iterate(f, b, n))
    decreases n
  {
    if n > 0 {
      assert f(xor(a, b)) == xor(f(a), f(b));
      IterateLinearly(f, xor, f(a), f(b), n - 1);
    }
  }

  /** Turns on nothing but zeros neither make nor lose a difference. */
  lemma {:induction false} ZerosKeep<S(!new)>(turn: (S, S) -> S, zero: S, c: S, bits: seq<S>)
    requires KeepsZero(turn, zero)
    requires forall k :: 0 <= k < |bits| ==> bits[k] == zero
    ensures Fold(turn, c, bits) == zero <==> c == zero
    decreases |bits|
  {
    if bits != [] {
      assert turn(c, zero) == zero <==> c == zero;
      ZerosKeep(turn, zero, turn(c, zero), bits[1..]);
    }
  }

  /** A bound that each turn at most halves is, after all the turns, halved that many times. */
  lemma {:induction false} BoundLasts<S(!new)>(
    turn: (S, S) -> S, half: S -> S, atLeast: (S, S) -> bool, isBit: S -> bool, c: S, t: S, bits: seq<S>)
    requires HalvesAtMost(turn, half, atLeast, isBit)
    requires atLeast(c, t) && forall k :: 0 <= k < |bits| ==> isBit(bits[k])
    ensures atLeast(Fold(turn, c, bits), Iterate(half, t, |bits|))
    decreases |bits|
  {
    if bits != [] {
      assert atLeast(turn(c, bits[0]), half(t));
      BoundLasts(turn, half, atLeast, isBit, turn(c, bits[0]), half(t), bits[1..]);
    }
  }

  // ---- Bursts of errors --------------------------------------------------------------------

  ghost predicate Cancels<S(!new)>(xor: (S, S) -> S, zero: S) {
    forall a, b :: xor(a, b) == zero <==> a == b
  }

  ghost predicate Positive<S(!new)>(atLeast: (S, S) -> bool, zero: S) {
    forall c, t :: atLeast(c, t) && t != zero ==> c != zero
  }

  ghost predicate BitsClosed<S(!new)>(xor: (S, S) -> S, isBit: S -> bool) {
    forall a, b :: isBit(a) && isBit(b) ==> isBit(xor(a, b))
  }

  ghost predicate AllBits<S>(isBit: S -> bool, bits: seq<S>) {
    forall k :: 0 <= k < |bits| ==> isBit(bits[k])
  }

  /** All that is not zero lies within `width` places from `i` on. */
  ghost predicate Burst<S>(zero: S, width: nat, e: seq<S>, i: int) {
    forall k :: 0 <= k < |e| && e[k] != zero ==> i <= k < i + width
  }

  /**
   * A division register: turns neither make nor lose a difference on zeros and at most halve it on
   * bits; one error brings it to `top` at least, which it takes `width` halvings to bring to zero.
   */
  datatype Divider<!S> = Divider(xor: (S, S) -> S, turn: (S, S) -> S, half: S -> S,
                                 atLeast: (S, S) -> bool, isBit: S -> bool, zero: S, one: S, top: S, width: nat)

  ghost predicate Divides<S(!new)>(d: Divider<S>) {
    && Linear(d.xor, d.xor, d.turn) && Cancels(d.xor, d.zero)
    && KeepsZero(d.turn, d.zero) && HalvesAtMost(d.turn, d.half, d.atLeast, d.isBit) && Positive(d.atLeast, d.zero)
    && (forall b :: d.isBit(b) <==> b == d.zero || b == d.one)
    && BitsClosed(d.xor, d.isBit)
    && d.atLeast(d.turn(d.zero, d.one), d.top)
    && d.width > 0 && forall n :: 0 <= n < d.width ==> Iterate(d.half, d.top, n) != d.zero
  }

  lemma FirstErrorLasts<S(!new)>(d: Divider<S>, e: seq<S>, i: int)
    requires Divides(d) && AllBits(d.isBit, e) && Burst(d.zero, d.width, e, i)
             && e != [] && e[0] == d.one && d.one != d.zero
    ensures Fold(d.turn, d.zero, e) != d.zero
  {
    var n := if |e| < d.width then |e| else d.width;
    var mid, rest := e[1..n], e[n..];
    assert e == [d.one] + (mid + rest);
    var first := d.turn(d.zero, d.one);
    FoldFirst(d.turn, d.zero, d.one, mid + rest);
    FoldThen(d.turn, first, mid, rest);
    BoundLasts(d.turn, d.half, d.atLeast, d.isBit, first, d.top, mid);
    assert Fold(d.turn, first, mid) != d.zero;
    assert forall k :: 0 <= k < |rest| ==> rest[k] == e[n + k];
    ZerosKeep(d.turn, d.zero, Fold(d.turn, first, mid), rest);
  }

  lemma {:induction false} BurstLasts<S(!new)>(d: Divider<S>, e: seq<S>, i: int, k: nat)
    requires Divides(d) && AllBits(d.isBit, e) && Burst(d.zero, d.width, e, i) && k < |e| && e[k] != d.zero
    ensures Fold(d.turn, d.zero, e) != d.zero
    decreases |e|
  {
    assert d.isBit(e[0]) && d.isBit(e[k]);
    if e[0] != d.zero {
      FirstErrorLasts(d, e, i);
    } else {
      assert d.turn(d.zero, d.zero) == d.zero;
      BurstLasts(d, e[1..], i - 1, k - 1);
    }
  }

  lemma ZipOfBits<S(!new)>(xor: (S, S) -> S, isBit: S -> bool, x: seq<S>, y: seq<S>)
    requires BitsClosed(xor, isBit) && |x| == |y| && AllBits(isBit, x) && AllBits(isBit, y)
    ensures AllBits(isBit, Zip(xor, x, y))
  {
    forall k | 0 <= k < |x|
      ensures isBit(Zip(xor, x, y)[k])
    {
      assert isBit(x[k]) && isBit(y[k]);
    }
  }

  /** The two differ, but only within `width` places from `i` on. */
  ghost predicate DifferWithin<S>(width: nat, x: seq<S>, y: seq<S>, i: int) {
    |x| == |y| && x != y && forall j :: 0 <= j < |x| && x[j] != y[j] ==> i <= j < i + width
  }

  lemma ZipOfBurst<S(!new)>(xor: (S, S) -> S, zero: S, width: nat, x: seq<S>, y: seq<S>, i: int) returns (k: nat)
    requires Cancels(xor, zero) && DifferWithin(width, x, y, i)
    ensures Burst(zero, width, Zip(xor, x, y), i)
    ensures k < |x| && Zip(xor, x, y)[k] != zero
  {
    k :| k < |x| && x[k] != y[k];
  }

  /** Two inputs that differ, but only within `width` places, leave different registers. */
  lemma BurstsDiffer<S(!new)>(d: Divider<S>, c: S, x: seq<S>, y: seq<S>, i: int)
    requires Divides(d) && DifferWithin(d.width, x, y, i) && AllBits(d.isBit, x) && AllBits(d.isBit, y)
    ensures Fold(d.turn, c, x) != Fold(d.turn, c, y)
  {
    var k := ZipOfBurst(d.xor, d.zero, d.width, x, y, i);
    ZipOfBits(d.xor, d.isBit, x, y);
    DifferencesFold(d.xor, d.xor, d.turn, c, c, x, y);
    assert d.xor(c, c) == d.zero;
    BurstLasts(d, Zip(d.xor, x, y), i, k);
    assert d.xor(Fold(d.turn, c, x), Fold(d.turn, c, y)) != d.zero;
  }

  // ---- Bytes -------------------------------------------------------------------------------

  ghost predicate Rebuilds<S(!new)>(low: S -> S, half: S -> S) {
    forall a, b :: low(a) == low(b) && half(a) == half(b) ==> a == b
  }

  lemma {:induction false} PartsDetermine<S(!new)>(low: S -> S, half: S -> S, a: S, b: S, n: nat)
    requires Rebuilds(low, half)
    requires Parts(low, half, a, n) == Parts(low, half, b, n) && Iterate(half, a, n) == Iterate(half, b, n)
    ensures a == b
    decreases n
  {
    if n > 0 {
      var p, q := Parts(low, half, a, n), Parts(low, half, b, n);
      assert p[0] == low(a) && q[0] == low(b);
      assert p[1..] == Parts(low, half, half(a), n - 1) && q[1..] == Parts(low, half, half(b), n - 1);
      PartsDetermine(low, half, half(a), half(b), n - 1);
    }
  }

  /** Bit `r` of byte `j`. */
  lemma {:induction false} FlatAt<S, B>(parts: B -> seq<S>, data: seq<B>, j: nat, r: nat)
    requires forall b :: b in data ==> |parts(b)| == 8
    requires j < |data| && r < 8
    ensures 8 * j + r < |Flat(parts, data)| && Flat(parts, data)[8 * j + r] == parts(data[j])[r]
    decreases |data|
  {
    FlatLength(parts, data[1..]);
    if j > 0 {
      FlatAt(parts, data[1..], j - 1, r);
    }
  }

  lemma {:induction false} FlatLength<S, B>(parts: B -> seq<S>, data: seq<B>)
    requires forall b :: b in data ==> |parts(b)| == 8
    ensures |Flat(parts, data)| == 8 * |data|
    decreases |data|
  {
    if data != [] {
      FlatLength(parts, data[1..]);
      assert |parts(data[0])| == 8;
    }
  }

  lemma {:induction false} PartsAreBits<S(!new)>(low: S -> S, half: S -> S, isBit: S -> bool, b: S, n: nat)
    requires forall b :: isBit(low(b))
    ensures AllBits(isBit, Parts(low, half, b, n))
    decreases n
  {
    if n > 0 {
      PartsAreBits(low, half, isBit, half(b), n - 1);
    }
  }

  lemma {:induction false} FlatOfBits<S, B>(parts: B -> seq<S>, isBit: S -> bool, data: seq<B>)
    requires forall b :: b in data ==> AllBits(isBit, parts(b))
    ensures AllBits(isBit, Flat(parts, data))
    decreases |data|
  {
    if data != [] {
      FlatOfBits(parts, isBit, data[1..]);
      assert AllBits(isBit, parts(data[0]));
    }
  }

  // ---- Steps that lose nothing -------------------------------------------------------------

  ghost predicate LosesNothing<S(!new), B(!new)>(step: (S, B) -> S) {
    forall c, d, b :: step(c, b) == step(d, b) ==> c == d
  }

  lemma {:induction false} DifferenceStays<S(!new), B(!new)>(step: (S, B) -> S, c: S, d: S, rest: seq<B>)
    requires LosesNothing(step) && c != d
    ensures Fold(step, c, rest) != Fold(step, d, rest)
    decreases |rest|
  {
    if rest != [] {
      assert step(c, rest[0]) != step(d, rest[0]);
      DifferenceStays(step, step(c, rest[0]), step(d, rest[0]), rest[1..]);
    }
  }
}
