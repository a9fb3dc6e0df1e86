/**
 * The reflected CRC-32 of app-native/src/qu_composition.rs and what it detects: every burst of
 * errors within 32 consecutive bits, and not every one within 33.
 */
module Crc32 {
  import opened Folds

  type Byte = b: bv32 | b < 0x100 witness 0

  /** One turn of the inner loop. */
  function Shift(c: bv32): bv32 {
    (c >> 1) ^ (0xEDB88320 & (0 - (c & 1)))
  }

  function Xor(a: bv32, b: bv32): bv32 { a ^ b }

  const BITS: nat := 8

  function ByteTurn(c: bv32, b: Byte): bv32 {
    Iterate(Shift, Xor(c, b), BITS)
  }

  function Checksum(data: seq<Byte>): bv32 {
    !Fold(ByteTurn, 0xFFFFFFFF, data)
  }

  /** The inner loop of `crc32`. */
  method ShiftBits(start: bv32, bits: nat) returns (crc: bv32)
    ensures crc == Iterate(Shift, start, bits)
  {
    crc := start;
    for n := 0 to bits
      invariant Iterate(Shift, crc, bits - n) == Iterate(Shift, start, bits)
    {
      var mask := 0 - (crc & 1);
      crc := (crc >> 1) ^ (0xEDB88320 & mask);
    }
  }

  /** `crc32`. */
  method Crc(data: seq<Byte>) returns (r: bv32)
    ensures r == Checksum(data)
  {
    var crc: bv32 := 0xFFFFFFFF;
    for i := 0 to |data|
      invariant crc == Fold(ByteTurn, 0xFFFFFFFF, data[..i])
    {
      FoldGrows(ByteTurn, 0xFFFFFFFF, data, i);
      crc := ShiftBits(Xor(crc, data[i]), BITS);
    }
    assert data[..|data|] == data;
    r := !crc;
  }

  // ---- One bit -----------------------------------------------------------------------------

  function Low(b: bv32): bv32 { b & 1 }

  function Half(b: bv32): bv32 { b >> 1 }

  function BitTurn(c: bv32, bit: bv32): bv32 { Shift(Xor(c, bit)) }

  predicate IsBit(b: bv32) { b == 0 || b == 1 }

  predicate AtLeast(c: bv32, t: bv32) { c >= t }

  /** The polynomial is taken off exactly when a bit falls out. */
  lemma ShiftIs(c: bv32)
    ensures c & 1 == 0 ==> Shift(c) == c >> 1
    ensures c & 1 == 1 ==> Shift(c) == (c >> 1) ^ 0xEDB88320
    ensures c & 1 == 0 || c & 1 == 1
  {
  }

  lemma XorParts(c: bv32, b: bv32)
    ensures (c ^ b) >> 1 == (c >> 1) ^ (b >> 1)
    ensures (c ^ b) & 1 == (c & 1) ^ (b & 1)
  {
  }

  lemma XorMoves(x: bv32, y: bv32, p: bv32)
    ensures (x ^ y) ^ p == (x ^ p) ^ y == x ^ (y ^ p)
    ensures (x ^ p) ^ (y ^ p) == x ^ y
  {
  }

  lemma ShiftIsLinear(c: bv32, b: bv32)
    ensures Shift(c ^ b) == Shift(c) ^ Shift(b)
  {
    ShiftIs(c);
    ShiftIs(b);
    ShiftIs(c ^ b);
    XorParts(c, b);
    XorMoves(c >> 1, b >> 1, 0xEDB88320);
  }

  lemma ShiftsAreLinear()
    ensures ShiftsLinearly(Shift, Xor)
  {
    forall c, b
      ensures Shift(Xor(c, b)) == Xor(Shift(c), Shift(b))
    {
      ShiftIsLinear(c, b);
    }
  }

  function Rest(b: bv32): bv32 { b ^ (b & 1) }

  lemma RestIs(b: bv32)
    ensures Rest(b) & 1 == 0 && Rest(b) >> 1 == b >> 1
  {
  }

  lemma RestsHalve()
    ensures RestHalves(Shift, Rest, Half)
  {
    forall b
      ensures Shift(Rest(b)) == Half(b)
    {
      ShiftIs(Rest(b));
      RestIs(b);
    }
  }

  lemma LowIsTakenOff()
    ensures TakesOff(Xor, Low, Rest)
  {
  }

  lemma XorAssociates()
    ensures Associates(Xor)
  {
  }

  lemma XorCommutes()
    ensures Commutes(Xor)
  {
  }

  lemma TurnsAreShifts()
    ensures TurnsBy(BitTurn, Shift, Xor)
  {
  }

  /** Only the lowest bit of what is folded in matters to a turn; the others wait. */
  lemma TurnsSplit()
    ensures Splits(Shift, Xor, BitTurn, Low, Half)
  {
    ShiftsAreLinear();
    LowIsTakenOff();
    RestsHalve();
    TurnsAreShifts();
    SplitTurns(Shift, Xor, BitTurn, Low, Rest, Half);
  }

  lemma TurnsAreLinear()
    ensures Linear(Xor, Xor, BitTurn)
  {
    ShiftsAreLinear();
    XorAssociates();
    XorCommutes();
    TurnsAreShifts();
    LinearTurns(Shift, Xor, BitTurn);
  }

  lemma NeverCancels(c: bv32)
    ensures (c >> 1) ^ 0xEDB88320 != 0
    ensures c >> 1 == 0 && c & 1 == 0 ==> c == 0
    ensures c ^ 0 == c
  {
  }

  lemma ZeroIsKept()
    ensures KeepsZero(BitTurn, 0)
  {
    forall c
      ensures BitTurn(c, 0) == 0 <==> c == 0
    {
      NeverCancels(c);
      ShiftIs(c);
    }
  }

  lemma FlippedHalves()
    ensures HalvesFlipped(Xor, Half, AtLeast, IsBit)
  {
  }

  lemma PolynomialLifts(x: bv32, t: bv32)
    requires x >> 1 >= t
    ensures (x >> 1) ^ 0xEDB88320 >= t
  {
  }

  lemma ShiftAtLeast(x: bv32, t: bv32)
    requires x >> 1 >= t
    ensures Shift(x) >= t
  {
    PolynomialLifts(x, t);
    ShiftIs(x);
  }

  /** Taking off the polynomial sets the top bit. */
  lemma ShiftIsNoLower()
    ensures ShiftsNoLower(Shift, Half, AtLeast)
  {
    forall x, t | AtLeast(Half(x), t)
      ensures AtLeast(Shift(x), t)
    {
      ShiftAtLeast(x, t);
    }
  }

  /** A turn at most halves the register. */
  lemma RegisterHalvesAtMost()
    ensures HalvesAtMost(BitTurn, Half, AtLeast, IsBit)
  {
    FlippedHalves();
    ShiftIsNoLower();
    TurnsAreShifts();
    TurnsHalveAtMost(Shift, Xor, BitTurn, Half, AtLeast, IsBit);
  }

  lemma EightHalves(t: bv32)
    ensures Iterate(Half, t, 8) == t >> 8
  {
  }

  // ---- Texts as bits -----------------------------------------------------------------------

  /** The bits of a byte, lowest first: the order in which they are divided. */
  function ByteBits(b: Byte): (r: seq<bv32>)
    ensures |r| == BITS
  {
    Parts(Low, Half, b, BITS)
  }

  function TextBits(data: seq<Byte>): seq<bv32> {
    Flat(ByteBits, data)
  }

  lemma NothingAbove(b: Byte)
    ensures Iterate(Half, b, BITS) == 0
  {
  }

  lemma XorZero()
    ensures forall x :: Xor(x, 0) == x
  {
  }

  lemma ByteIsBits(c: bv32, b: Byte)
    ensures ByteTurn(c, b) == Fold(BitTurn, c, ByteBits(b))
  {
    TurnsSplit();
    TurnsAreParts(Shift, Xor, BitTurn, Low, Half, c, b, BITS);
    NothingAbove(b);
    XorZero();
  }

  /** `crc32` divides the bits of the text one by one. */
  lemma BytesAreBits(c: bv32, data: seq<Byte>)
    ensures Fold(ByteTurn, c, data) == Fold(BitTurn, c, TextBits(data))
  {
    forall c, b
      ensures ByteTurn(c, b) == Fold(BitTurn, c, ByteBits(b))
    {
      ByteIsBits(c, b);
    }
    FoldOfParts(ByteTurn, BitTurn, ByteBits, c, data);
  }

  // ---- What is detected --------------------------------------------------------------------

  const DIVIDER := Divider(Xor, BitTurn, Half, AtLeast, IsBit, 0, 1, 0x80000000, 32)

  lemma XorCancels()
    ensures Cancels(Xor, 0)
  {
  }

  lemma AtLeastIsPositive()
    ensures Positive(AtLeast, 0)
  {
  }

  lemma BitsAreClosed()
    ensures BitsClosed(Xor, IsBit)
  {
  }

  lemma SevenHalves()
    ensures Iterate(Half, 0x80, 7) == 1
  {
  }

  lemma StridesOfEight()
    ensures (0x80000000 as bv32) >> 8 == 0x800000 && (0x800000 as bv32) >> 8 == 0x8000 && (0x8000 as bv32) >> 8 == 0x80
  {
  }

  lemma TopAfter(n: nat, m: nat, t: bv32)
    requires Iterate(Half, 0x80000000, n) == t && n + 8 == m
    ensures Iterate(Half, 0x80000000, m) == t >> 8
  {
    IterateThen(Half, 0x80000000, n, 8);
    EightHalves(t);
  }

  lemma TopReachesOne()
    ensures Iterate(Half, 0x80000000, 31) == 1
  {
    StridesOfEight();
    TopAfter(0, 8, 0x80000000);
    TopAfter(8, 16, 0x800000);
    TopAfter(16, 24, 0x8000);
    IterateThen(Half, 0x80000000, 24, 7);
    SevenHalves();
  }

  lemma HalfOfZero()
    ensures Half(0) == 0
  {
  }

  lemma TopLasts(n: nat)
    requires n < 32
    ensures Iterate(Half, 0x80000000, n) != 0
  {
    if Iterate(Half, 0x80000000, n) == 0 {
      HalfOfZero();
      IterateThen(Half, 0x80000000, n, 31 - n);
      IterateFixed(Half, 0, 31 - n);
      TopReachesOne();
    }
  }

  lemma FirstError()
    ensures AtLeast(BitTurn(0, 1), 0x80000000)
  {
  }

  lemma CrcDivides()
    ensures Divides(DIVIDER)
  {
    TurnsAreLinear();
    XorCancels();
    ZeroIsKept();
    RegisterHalvesAtMost();
    AtLeastIsPositive();
    BitsAreClosed();
    FirstError();
    forall n: nat | n < 32
      ensures Iterate(Half, 0x80000000, n) != 0
    {
      TopLasts(n);
    }
  }

  lemma LowIsBit(b: bv32)
    ensures IsBit(Low(b))
  {
  }

  lemma HalfAndLowRebuild()
    ensures Rebuilds(Low, Half)
  {
  }

  lemma TextBitsAreBits(data: seq<Byte>)
    ensures AllBits(IsBit, TextBits(data))
  {
    forall b: Byte
      ensures AllBits(IsBit, ByteBits(b))
    {
      forall b
        ensures IsBit(Low(b))
      {
        LowIsBit(b);
      }
      PartsAreBits(Low, Half, IsBit, b, BITS);
    }
    FlatOfBits(ByteBits, IsBit, data);
  }

  lemma InvertTwice(x: bv32)
    ensures !!x == x
  {
  }

  /** Errors that all lie within 32 consecutive bits always change the checksum. */
  lemma BurstsAreDetected(a: seq<Byte>, b: seq<Byte>, i: int)
    requires DifferWithin(32, TextBits(a), TextBits(b), i)
    ensures Checksum(a) != Checksum(b)
  {
    CrcDivides();
    TextBitsAreBits(a);
    TextBitsAreBits(b);
    BurstsDiffer(DIVIDER, 0xFFFFFFFF, TextBits(a), TextBits(b), i);
    BytesAreBits(0xFFFFFFFF, a);
    BytesAreBits(0xFFFFFFFF, b);
    InvertTwice(Fold(ByteTurn, 0xFFFFFFFF, a));
    InvertTwice(Fold(ByteTurn, 0xFFFFFFFF, b));
  }

  lemma BytesDiffer(a: Byte, b: Byte)
    requires ByteBits(a) == ByteBits(b)
    ensures a == b
  {
    HalfAndLowRebuild();
    NothingAbove(a);
    NothingAbove(b);
    PartsDetermine(Low, Half, a, b, BITS);
  }

  lemma BitOfByte(data: seq<Byte>, k: nat)
    requires k < 8 * |data|
    ensures |TextBits(data)| == 8 * |data| && TextBits(data)[k] == ByteBits(data[k / 8])[k % 8]
  {
    FlatLength(ByteBits, data);
    FlatAt(ByteBits, data, k / 8, k % 8);
  }

  /** The same for errors within four consecutive bytes. */
  lemma FourBytesAreDetected(a: seq<Byte>, b: seq<Byte>, j: nat)
    requires |a| == |b| && a != b && forall m :: 0 <= m < |a| && a[m] != b[m] ==> j <= m < j + 4
    ensures Checksum(a) != Checksum(b)
  {
    var x, y := TextBits(a), TextBits(b);
    FlatLength(ByteBits, a);
    FlatLength(ByteBits, b);
    forall k | 0 <= k < |x| && x[k] != y[k]
      ensures 8 * j <= k < 8 * j + 32
    {
      BitOfByte(a, k);
      BitOfByte(b, k);
      assert a[k / 8] != b[k / 8];
    }
    if x == y {
      var m :| 0 <= m < |a| && a[m] != b[m];
      forall r: nat | r < 8
        ensures ByteBits(a[m])[r] == ByteBits(b[m])[r]
      {
        FlatAt(ByteBits, a, m, r);
        FlatAt(ByteBits, b, m, r);
      }
      BytesDiffer(a[m], b[m]);
    }
    BurstsAreDetected(a, b, 8 * j);
  }

  // ---- What is not -------------------------------------------------------------------------

  /** The polynomial itself, from its first bit to its thirty-third. */
  const POLYNOMIAL: seq<Byte> := [0x41, 0x06, 0x71, 0xDB, 0x01]

  lemma PolynomialTurns()
    ensures ByteTurn(0, 0x41) == 0x1DB7106
    ensures ByteTurn(0x1DB7106, 0x06) == 0x1DB71
    ensures ByteTurn(0x1DB71, 0x71) == 0x1DB
    ensures ByteTurn(0x1DB, 0xDB) == 0x1
    ensures ByteTurn(0x1, 0x01) == 0
  {
  }

  lemma PolynomialDividesItself()
    ensures Fold(ByteTurn, 0, POLYNOMIAL) == 0
  {
    PolynomialTurns();
    assert POLYNOMIAL[1..] == [0x06, 0x71, 0xDB, 0x01];
    assert POLYNOMIAL[1..][1..] == [0x71, 0xDB, 0x01];
    assert POLYNOMIAL[1..][1..][1..] == [0xDB, 0x01];
    assert POLYNOMIAL[1..][1..][1..][1..] == [0x01];
    assert POLYNOMIAL[1..][1..][1..][1..][1..] == [];
  }

  lemma BytesStayBytes(a: Byte, b: Byte)
    ensures a ^ b < 0x100
  {
  }

  function Mix(a: Byte, b: Byte): Byte {
    BytesStayBytes(a, b);
    a ^ b
  }

  lemma ByteTurnIsLinear(c: bv32, d: bv32, x: Byte, y: Byte)
    ensures Xor(ByteTurn(c, x), ByteTurn(d, y)) == ByteTurn(Xor(c, d), Mix(x, y))
  {
    ShiftsAreLinear();
    IterateLinearly(Shift, Xor, Xor(c, x), Xor(d, y), BITS);
    XorAssociates();
    XorCommutes();
    PairsRegroup(Xor);
    assert Xor(Xor(c, x), Xor(d, y)) == Xor(Xor(c, d), Xor(x, y));
  }

  lemma ByteTurnsAreLinear()
    ensures Linear(Xor, Mix, ByteTurn)
  {
    forall c: bv32, d: bv32, x: Byte, y: Byte
      ensures Xor(ByteTurn(c, x), ByteTurn(d, y)) == ByteTurn(Xor(c, d), Mix(x, y))
    {
      ByteTurnIsLinear(c, d, x, y);
    }
  }

  lemma PolynomialChangesNothing(c: bv32, x: seq<Byte>)
    requires |x| == |POLYNOMIAL|
    ensures Fold(ByteTurn, c, Zip(Mix, x, POLYNOMIAL)) == Fold(ByteTurn, c, x)
  {
    ByteTurnsAreLinear();
    DifferencesFold(Xor, Mix, ByteTurn, c, 0, x, POLYNOMIAL);
    PolynomialDividesItself();
    XorZero();
    assert Xor(c, 0) == c;
  }

  lemma PolynomialChangesText(x: seq<Byte>)
    requires |x| == |POLYNOMIAL|
    ensures Zip(Mix, x, POLYNOMIAL) != x
  {
    MixChanges(x[0]);
    assert Zip(Mix, x, POLYNOMIAL)[0] == Mix(x[0], 0x41);
  }

  /** The polynomial, 33 bits from its first to its last, goes unnoticed wherever it is added to a text. */
  lemma PolynomialEscapes(before: seq<Byte>, x: seq<Byte>, after: seq<Byte>)
    requires |x| == |POLYNOMIAL|
    ensures Zip(Mix, x, POLYNOMIAL) != x
    ensures Checksum(before + Zip(Mix, x, POLYNOMIAL) + after) == Checksum(before + x + after)
  {
    PolynomialChangesText(x);
    PolynomialChangesNothing(Fold(ByteTurn, 0xFFFFFFFF, before), x);
    FoldMiddle(ByteTurn, 0xFFFFFFFF, before, Zip(Mix, x, POLYNOMIAL), x, after);
  }

  lemma MixChanges(b: Byte)
    ensures Mix(b, 0x41) != b
  {
  }

  // ---- The standard check value ------------------------------------------------------------

  lemma DigitTurns()
    ensures ByteTurn(0xFFFFFFFF, 0x31) == 0x7C231048
    ensures ByteTurn(0x7C231048, 0x32) == 0xB0ACBB32
    ensures ByteTurn(0xB0ACBB32, 0x33) == 0x77B79C2D
    ensures ByteTurn(0x77B79C2D, 0x34) == 0x641C1F5C
    ensures ByteTurn(0x641C1F5C, 0x35) == 0x340AC5E3
    ensures ByteTurn(0x340AC5E3, 0x36) == 0xF68D2C9E
    ensures ByteTurn(0xF68D2C9E, 0x37) == 0xAFFC9660
    ensures ByteTurn(0xAFFC9660, 0x38) == 0x651F2550
    ensures ByteTurn(0x651F2550, 0x39) == 0x340BC6D9
  {
  }

  /** The checksum of the digits 1 to 9. */
  lemma CheckValue()
    ensures Checksum([0x31, 0x32, 0x33, 0x34, 0x35, 0x36, 0x37, 0x38, 0x39]) == 0xCBF43926
  {
    DigitTurns();
    var digits: seq<Byte> := [0x31, 0x32, 0x33, 0x34, 0x35, 0x36, 0x37, 0x38, 0x39];
    FoldFrom(digits, 0, 0xFFFFFFFF);
    FoldFrom(digits, 1, 0x7C231048);
    FoldFrom(digits, 2, 0xB0ACBB32);
    FoldFrom(digits, 3, 0x77B79C2D);
    FoldFrom(digits, 4, 0x641C1F5C);
    FoldFrom(digits, 5, 0x340AC5E3);
    FoldFrom(digits, 6, 0xF68D2C9E);
    FoldFrom(digits, 7, 0xAFFC9660);
    FoldFrom(digits, 8, 0x651F2550);
    assert digits[9..] == [];
    assert digits[0..] == digits;
  }

  lemma FoldFrom(data: seq<Byte>, k: nat, c: bv32)
    requires k < |data|
    ensures Fold(ByteTurn, c, data[k..]) == Fold(ByteTurn, ByteTurn(c, data[k]), data[k + 1..])
  {
    assert data[k..][1..] == data[k + 1..];
  }
}
