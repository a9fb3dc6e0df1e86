/** The EDID-derived output identity of app-native/src/output_registry.rs: FNV-1a on 64 bits. */
module OutputIds {
  import opened Prelude
  import opened Folds

  const WIDTH: nat := 0x1_0000_0000_0000_0000
  type Word = h: nat | h < WIDTH

  const OFFSET: Word := 0xcbf2_9ce4_8422_2325
  const PRIME: nat := 0x0000_0100_0000_01b3
  /** The inverse of the prime on 64 bits. */
  const INVERSE: nat := 0xce96_5057_aff6_957b

  /** Exclusive or on the binary digits. */
  function Xor(a: nat, b: nat): nat {
    if a == 0 && b == 0 then 0 else 2 * Xor(a / 2, b / 2) + if a % 2 == b % 2 then 0 else 1
  }

  /** `wrapping_mul`. */
  function Times(h: nat): Word {
    h * PRIME % WIDTH
  }

  function Turn(h: Word, b: Byte): Word {
    Times(Xor(h, b))
  }

  function OutputId(edid: seq<Byte>): Word {
    Fold<Word, Byte>(Turn, OFFSET, edid)
  }

  /** `edid_output_id`. */
  method EdidOutputId(edid: seq<Byte>) returns (hash: nat)
    ensures hash == OutputId(edid)
  {
    hash := OFFSET;
    for i := 0 to |edid|
      invariant hash == Fold<Word, Byte>(Turn, OFFSET, edid[..i])
    {
      FoldGrows<Word, Byte>(Turn, OFFSET, edid, i);
      hash := Xor(hash, edid[i]);
      hash := hash * PRIME % WIDTH;
    }
    assert edid[..|edid|] == edid;
  }

  lemma {:induction false} XorFits(a: nat, b: nat, n: nat)
    requires a < Pow2(n) && b < Pow2(n)
    ensures Xor(a, b) < Pow2(n)
  {
    if n > 0 && (a != 0 || b != 0) {
      XorFits(a / 2, b / 2, n - 1);
    }
  }

  /** Exclusive or with the same number is undone by nothing else. */
  lemma {:induction false} XorIsInjective(a: nat, b: nat, c: nat)
    requires Xor(a, b) == Xor(c, b)
    ensures a == c
    decreases a + b + c
  {
    if a != 0 || b != 0 || c != 0 {
      assert Xor(a, b) == 2 * Xor(a / 2, b / 2) + if a % 2 == b % 2 then 0 else 1;
      assert Xor(c, b) == 2 * Xor(c / 2, b / 2) + if c % 2 == b % 2 then 0 else 1;
      XorIsInjective(a / 2, b / 2, c / 2);
    }
  }

  lemma {:induction false} XorCommutes(a: nat, b: nat)
    ensures Xor(a, b) == Xor(b, a)
    decreases a + b
  {
    if a != 0 || b != 0 {
      XorCommutes(a / 2, b / 2);
    }
  }

  lemma InverseIs()
    ensures PRIME * INVERSE == 1 + (PRIME * INVERSE / WIDTH) * WIDTH
  {
  }

  lemma MultipleBelow(d: int, z: int)
    requires d == z * WIDTH && -(WIDTH as int) < d < WIDTH
    ensures d == 0
  {
  }

  /** The prime is odd: multiplication by it can be undone. */
  lemma PrimeIsCoprime(d: int, q: int) returns (z: int)
    requires d * PRIME == q * WIDTH
    ensures d == z * WIDTH
  {
    var k := PRIME * INVERSE / WIDTH;
    z := q * INVERSE - d * k;
    InverseIs();
    calc {
      d;
      d * (PRIME * INVERSE) - d * (k * WIDTH);
      (d * PRIME) * INVERSE - d * (k * WIDTH);
      (q * WIDTH) * INVERSE - d * (k * WIDTH);
      z * WIDTH;
    }
  }

  lemma TimesIsInjective(h: Word, g: Word)
    requires Times(h) == Times(g)
    ensures h == g
  {
    var z := PrimeIsCoprime(h - g, h * PRIME / WIDTH - g * PRIME / WIDTH);
    MultipleBelow(h - g, z);
  }

  lemma {:induction false} PowAdds(n: nat, m: nat)
    ensures Pow2(n + m) == Pow2(n) * Pow2(m)
  {
    if n > 0 {
      PowAdds(n - 1, m);
    }
  }

  lemma WidthIsPower()
    ensures Pow2(64) == WIDTH
  {
    assert Pow2(8) == 0x100;
    PowAdds(8, 8);
    PowAdds(16, 16);
    PowAdds(32, 32);
  }

  lemma TurnKeepsWord(h: Word, b: Byte)
    ensures Xor(h, b) < WIDTH
  {
    WidthIsPower();
    XorFits(h, b, 64);
  }

  lemma TurnsLoseNothing()
    ensures LosesNothing<Word, Byte>(Turn)
  {
    forall c: Word, d: Word, b: Byte | Turn(c, b) == Turn(d, b)
      ensures c == d
    {
      TurnKeepsWord(c, b);
      TurnKeepsWord(d, b);
      TimesIsInjective(Xor(c, b), Xor(d, b));
      XorIsInjective(c, b, d);
    }
  }

  // ---- Differences of up to six bytes ------------------------------------------------------

  /** A byte changes only the low byte of what it is mixed into. */
  lemma {:induction false} XorStaysNear(h: nat, b: nat, n: nat)
    requires b < Pow2(n)
    ensures -(Pow2(n) as int) < Xor(h, b) - h < Pow2(n)
    decreases n
  {
    if n == 0 {
      XorWithZero(h);
    } else if h != 0 || b != 0 {
      XorStaysNear(h / 2, b / 2, n - 1);
    }
  }

  lemma {:induction false} XorWithZero(h: nat)
    ensures Xor(h, 0) == h
  {
    if h != 0 {
      XorWithZero(h / 2);
    }
  }

  /** What two bytes add to the difference of two words. */
  function Error(h: Word, g: Word, a: Byte, b: Byte): int {
    (Xor(h, a) - Xor(g, b)) - (h - g)
  }

  lemma ErrorIsSmall(h: Word, g: Word, a: Byte, b: Byte)
    ensures -510 <= Error(h, g, a, b) <= 510
  {
    assert Pow2(8) == 0x100;
    XorStaysNear(h, a, 8);
    XorStaysNear(g, b, 8);
  }

  ghost predicate AllSmall(e: seq<int>) {
    forall i :: 0 <= i < |e| ==> -510 <= e[i] <= 510
  }

  /** The difference that the errors lead to, were the words unbounded. */
  function Carried(d: int, e: seq<int>): int
    decreases |e|
  {
    if e == [] then d else Carried((d + e[0]) * PRIME, e[1..])
  }

  /** Equal on 64 bits. */
  ghost predicate Alike(x: int, y: int) {
    exists q: int :: x - y == q * WIDTH
  }

  lemma {:induction false} CarriedAlike(c: int, d: int, e: seq<int>)
    requires Alike(c, d)
    ensures Alike(Carried(c, e), Carried(d, e))
    decreases |e|
  {
    if e != [] {
      var q: int :| c - d == q * WIDTH;
      assert (c + e[0]) * PRIME - (d + e[0]) * PRIME == (q * PRIME) * WIDTH;
      CarriedAlike((c + e[0]) * PRIME, (d + e[0]) * PRIME, e[1..]);
    }
  }

  lemma AlikeToItself(x: int)
    ensures Alike(x, x)
  {
    assert x - x == 0 * WIDTH;
  }

  lemma AlikeIsTransitive(x: int, y: int, z: int)
    requires Alike(x, y) && Alike(y, z)
    ensures Alike(x, z)
  {
    var p: int :| x - y == p * WIDTH;
    var q: int :| y - z == q * WIDTH;
    assert x - z == (p + q) * WIDTH;
  }

  lemma TurnsAlike(h: Word, g: Word, a: Byte, b: Byte)
    ensures Alike(Turn(h, a) - Turn(g, b), (h - g + Error(h, g, a, b)) * PRIME)
  {
    var x, y := Xor(h, a) * PRIME, Xor(g, b) * PRIME;
    assert (Turn(h, a) - Turn(g, b)) - (x - y) == (y / WIDTH - x / WIDTH) * WIDTH;
  }

  lemma CarriesOn(x: int, u: int, d: int, f: int, rest: seq<int>)
    requires Alike(u, (d + f) * PRIME) && Alike(x, Carried(u, rest))
    ensures Alike(x, Carried(d, [f] + rest))
  {
    CarriedAlike(u, (d + f) * PRIME, rest);
    AlikeIsTransitive(x, Carried(u, rest), Carried((d + f) * PRIME, rest));
    assert ([f] + rest)[1..] == rest;
  }

  ghost predicate AllZero(e: seq<int>) {
    forall i :: 0 <= i < |e| ==> e[i] == 0
  }

  lemma NoErrorMeansEqual(h: Word, a: Byte, b: Byte)
    requires Error(h, h, a, b) == 0
    ensures a == b
  {
    XorCommutes(h, a);
    XorCommutes(h, b);
    XorIsInjective(a, h, b);
  }

  /** Two words, and what two texts make of them, differ by errors that are all zero only for equal texts. */
  lemma {:induction false} Differ(h: Word, g: Word, a: seq<Byte>, b: seq<Byte>) returns (e: seq<int>)
    requires |a| == |b|
    ensures |e| == |a| && AllSmall(e)
    ensures Alike(Fold<Word, Byte>(Turn, h, a) - Fold<Word, Byte>(Turn, g, b), Carried(h - g, e))
    ensures h == g && AllZero(e) ==> a == b
    decreases |a|
  {
    if a == [] {
      e := [];
      AlikeToItself(h - g);
    } else {
      var u, v := Turn(h, a[0]), Turn(g, b[0]);
      var rest := Differ(u, v, a[1..], b[1..]);
      e := FirstDiffers(h, g, a, b, rest);
    }
  }

  lemma FirstDiffers(h: Word, g: Word, a: seq<Byte>, b: seq<Byte>, rest: seq<int>) returns (e: seq<int>)
    requires |a| == |b| > 0 && |rest| + 1 == |a| && AllSmall(rest)
    requires var u, v := Turn(h, a[0]), Turn(g, b[0]);
             && Alike(Fold<Word, Byte>(Turn, u, a[1..]) - Fold<Word, Byte>(Turn, v, b[1..]), Carried(u - v, rest))
             && (u == v && AllZero(rest) ==> a[1..] == b[1..])
    ensures |e| == |a| && AllSmall(e)
    ensures Alike(Fold<Word, Byte>(Turn, h, a) - Fold<Word, Byte>(Turn, g, b), Carried(h - g, e))
    ensures h == g && AllZero(e) ==> a == b
  {
    var f := Error(h, g, a[0], b[0]);
    e := [f] + rest;
    ErrorIsSmall(h, g, a[0], b[0]);
    TurnsAlike(h, g, a[0], b[0]);
    CarriesOn(Fold<Word, Byte>(Turn, h, a) - Fold<Word, Byte>(Turn, g, b),
              Turn(h, a[0]) - Turn(g, b[0]), h - g, f, rest);
    if h == g && AllZero(e) {
      assert e[0] == 0 && forall i :: 0 <= i < |rest| ==> rest[i] == e[i + 1];
      NoErrorMeansEqual(h, a[0], b[0]);
      assert a == [a[0]] + a[1..] && b == [b[0]] + b[1..];
    }
  }

  predicate Small(u: int, v: int, w: int, x: int, y: int, z: int) {
    && -510 <= u <= 510 && -510 <= v <= 510 && -510 <= w <= 510
    && -510 <= x <= 510 && -510 <= y <= 510 && -510 <= z <= 510
  }

  /** The six errors as digits to the base `PRIME`. */
  function Digits(u: int, v: int, w: int, x: int, y: int, z: int): int {
    ((((u * PRIME + v) * PRIME + w) * PRIME + x) * PRIME + y) * PRIME + z
  }

  /** The same on 64 bits. */
  function Residue(u: int, v: int, w: int, x: int, y: int, z: int): int {
    913917546033277539 * u + 11527715348014283921 * v + 624165263380053675 * w
    + 956575116354345 * x + 1099511628211 * y + 1 * z
  }

  lemma DigitsLeave(u: int, v: int, w: int, x: int, y: int, z: int) returns (q: int)
    ensures Digits(u, v, w, x, y, z) == Residue(u, v, w, x, y, z) + q * WIDTH
  {
    q := 87112286104081500251499816140704456780207 * u + 79228162639644551293944856595 * v
      + 72057594123452416 * w + 65536 * x + 0 * y + 0 * z;
  }

  lemma FirstVanishes(u: int, v: int, w: int, x: int, y: int, z: int, q: int)
    requires Small(u, v, w, x, y, z) && Residue(u, v, w, x, y, z) == q * WIDTH
    ensures 4482579670404340 * u - 5247281785750212 * v - 1973864442898476 * w
            - 1178876700584228 * x - 4977183758088268 * y + 5046382459189116 * z == 0
  {
    MultipleBelow(4482579670404340 * u - 5247281785750212 * v - 1973864442898476 * w
                  - 1178876700584228 * x - 4977183758088268 * y + 5046382459189116 * z,
                  5046382459189116 * q - 250015799808299 * u - 3153578772183078 * v
                  - 170749733620761 * w - 261685415528 * x - 300787834 * y);
  }

  lemma SecondVanishes(u: int, v: int, w: int, x: int, y: int, z: int, q: int)
    requires Small(u, v, w, x, y, z) && Residue(u, v, w, x, y, z) == q * WIDTH
    ensures -1150927258463695 * u + 6373219910648459 * v - 2407835907481655 * w
            - 7420022407511405 * x - 521531150890079 * y + 2434785518635867 * z == 0
  {
    MultipleBelow(-1150927258463695 * u + 6373219910648459 * v - 2407835907481655 * w
                  - 7420022407511405 * x - 521531150890079 * y + 2434785518635867 * z,
                  2434785518635867 * q - 120627965424013 * u - 1521543004020078 * v
                  - 82383565275305 * w - 126258337595 * x - 145124526 * y);
  }

  lemma ThirdVanishes(u: int, v: int, w: int, x: int, y: int, z: int, q: int)
    requires Small(u, v, w, x, y, z) && Residue(u, v, w, x, y, z) == q * WIDTH
    ensures 6302646686563376 * u - 1535281643037936 * v + 5452110822838448 * w
            - 559839306353520 * x + 5164142811992368 * y + 4410605614494224 * z == 0
  {
    MultipleBelow(6302646686563376 * u - 1535281643037936 * v + 5452110822838448 * w
                  - 559839306353520 * x + 5164142811992368 * y + 4410605614494224 * z,
                  4410605614494224 * q - 218517145552210 * u - 2756269932139765 * v
                  - 149237545879972 * w - 228716545425 * x - 262892581 * y);
  }

  lemma FourthVanishes(u: int, v: int, w: int, x: int, y: int, z: int, q: int)
    requires Small(u, v, w, x, y, z) && Residue(u, v, w, x, y, z) == q * WIDTH
    ensures -10117495039556816 * u + 644476066068496 * v + 7704392091402160 * w
            - 4253954618046064 * x - 3431600937981904 * y + 2518874921680656 * z == 0
  {
    MultipleBelow(-10117495039556816 * u + 644476066068496 * v + 7704392091402160 * w
                  - 4253954618046064 * x - 3431600937981904 * y + 2518874921680656 * z,
                  2518874921680656 * q - 124794054603275 * u - 1574092044555980 * v
                  - 85228819927790 * w - 130618881124 * x - 150136645 * y);
  }

  lemma FifthVanishes(u: int, v: int, w: int, x: int, y: int, z: int, q: int)
    requires Small(u, v, w, x, y, z) && Residue(u, v, w, x, y, z) == q * WIDTH
    ensures 10753435092956894 * u + 1503490379027114 * v + 2833942984976814 * w
            - 84464088609638 * x - 3509890893664258 * y - 8107455562062582 * z == 0
  {
    MultipleBelow(10753435092956894 * u + 1503490379027114 * v + 2833942984976814 * w
                  - 84464088609638 * x - 3509890893664258 * y - 8107455562062582 * z,
                  -8107455562062582 * q + 401672287653962 * u + 5066500599926096 * v
                  + 274324407386829 * w + 420420547747 * x + 483242009 * y);
  }

  lemma SixthVanishes(u: int, v: int, w: int, x: int, y: int, z: int, q: int)
    requires Small(u, v, w, x, y, z) && Residue(u, v, w, x, y, z) == q * WIDTH
    ensures -964417354571113 * u + 6415703093100941 * v - 1237812376006721 * w
            + 6915764390345669 * x - 1040540266766169 * y + 8671412534092605 * z == 0
  {
    MultipleBelow(-964417354571113 * u + 6415703093100941 * v - 1237812376006721 * w
                  + 6915764390345669 * x - 1040540266766169 * y + 8671412534092605 * z,
                  8671412534092605 * q - 429612729061213 * u - 5418927858422929 * v
                  - 293406493123781 * w - 449665123591 * x - 516856464 * y);
  }

  /**
   * Six small errors never cancel out on 64 bits: the six linear forms above, a reduced basis of the
   * dual lattice, are multiples of 2^64 that are too small to be any but zero.
   */
  lemma ErrorsNeverCancel(u: int, v: int, w: int, x: int, y: int, z: int, q: int)
    requires Small(u, v, w, x, y, z) && Residue(u, v, w, x, y, z) == q * WIDTH
    ensures u == v == w == x == y == z == 0
  {
    FirstVanishes(u, v, w, x, y, z, q);
    SecondVanishes(u, v, w, x, y, z, q);
    ThirdVanishes(u, v, w, x, y, z, q);
    FourthVanishes(u, v, w, x, y, z, q);
    FifthVanishes(u, v, w, x, y, z, q);
    SixthVanishes(u, v, w, x, y, z, q);
  }

  lemma CarriedOnce(d: int, f: int, e: seq<int>, rest: seq<int>)
    requires e == [f] + rest
    ensures Carried(d, e) == Carried((d + f) * PRIME, rest)
  {
    assert e[1..] == rest;
  }

  lemma CarriedOfSix(u: int, v: int, w: int, x: int, y: int, z: int)
    ensures Carried(0, [u, v, w, x, y, z]) == Digits(u, v, w, x, y, z) * PRIME
  {
    var a := u * PRIME;
    var b := (a + v) * PRIME;
    var c := (b + w) * PRIME;
    var d := (c + x) * PRIME;
    var f := (d + y) * PRIME;
    CarriedOnce(0, u, [u, v, w, x, y, z], [v, w, x, y, z]);
    CarriedOnce(a, v, [v, w, x, y, z], [w, x, y, z]);
    CarriedOnce(b, w, [w, x, y, z], [x, y, z]);
    CarriedOnce(c, x, [x, y, z], [y, z]);
    CarriedOnce(d, y, [y, z], [z]);
    CarriedOnce(f, z, [z], []);
  }

  lemma DigitsVanish(u: int, v: int, w: int, x: int, y: int, z: int, q: int)
    requires Small(u, v, w, x, y, z) && Digits(u, v, w, x, y, z) * PRIME == q * WIDTH
    ensures u == v == w == x == y == z == 0
  {
    var r := PrimeIsCoprime(Digits(u, v, w, x, y, z), q);
    var p := DigitsLeave(u, v, w, x, y, z);
    ErrorsNeverCancel(u, v, w, x, y, z, r - p);
  }

  lemma SixVanish(e: seq<int>)
    requires |e| == 6 && AllSmall(e) && Alike(0, Carried(0, e))
    ensures AllZero(e)
  {
    var q: int :| 0 - Carried(0, e) == q * WIDTH;
    CarriedOfSix(e[0], e[1], e[2], e[3], e[4], e[5]);
    assert e == [e[0], e[1], e[2], e[3], e[4], e[5]];
    DigitsVanish(e[0], e[1], e[2], e[3], e[4], e[5], -q);
  }

  /** Fewer errors are six of which the first are zero. */
  lemma {:induction false} FewVanish(e: seq<int>)
    requires |e| <= 6 && AllSmall(e) && Alike(0, Carried(0, e))
    ensures AllZero(e)
    decreases 6 - |e|
  {
    if |e| == 6 {
      SixVanish(e);
    } else {
      var more := [0] + e;
      assert more[1..] == e;
      FewVanish(more);
      assert forall i :: 0 <= i < |e| ==> e[i] == more[i + 1];
    }
  }

  lemma SixBytesTurnApart(h: Word, a: seq<Byte>, b: seq<Byte>)
    requires |a| == |b| <= 6
    requires Fold<Word, Byte>(Turn, h, a) == Fold<Word, Byte>(Turn, h, b)
    ensures a == b
  {
    var e := Differ(h, h, a, b);
    FewVanish(e);
  }

  /** EDIDs of the same length that differ only within six consecutive bytes have different ids. */
  lemma SixBytesTellApart(before: seq<Byte>, a: seq<Byte>, b: seq<Byte>, after: seq<Byte>)
    requires |a| == |b| <= 6 && a != b
    ensures OutputId(before + a + after) != OutputId(before + b + after)
  {
    var h: Word := Fold<Word, Byte>(Turn, OFFSET, before);
    if Fold<Word, Byte>(Turn, h, a) == Fold<Word, Byte>(Turn, h, b) {
      SixBytesTurnApart(h, a, b);
    }
    TurnsLoseNothing();
    DifferenceStays<Word, Byte>(Turn, Fold<Word, Byte>(Turn, h, a), Fold<Word, Byte>(Turn, h, b), after);
    FoldThen<Word, Byte>(Turn, OFFSET, before, a);
    FoldThen<Word, Byte>(Turn, OFFSET, before, b);
    FoldThen<Word, Byte>(Turn, OFFSET, before + a, after);
    FoldThen<Word, Byte>(Turn, OFFSET, before + b, after);
  }

  // ---- Seven bytes -------------------------------------------------------------------------

  lemma XorHalves(h: nat, b: nat)
    ensures Xor(h, b) == 2 * Xor(h / 2, b / 2) + if h % 2 == b % 2 then 0 else 1
  {
  }

  /** Some byte turns the low byte of a word into any other. */
  lemma {:induction false} XorReaches(h: nat, x: nat, n: nat) returns (b: nat)
    requires x < Pow2(n)
    ensures b < Pow2(n) && Xor(h, b) == h - h % Pow2(n) + x
    decreases n
  {
    if n == 0 {
      b := 0;
      XorWithZero(h);
    } else {
      var c := XorReaches(h / 2, x / 2, n - 1);
      b := 2 * c + if h % 2 == x % 2 then 0 else 1;
      HalvesAgree(h, Pow2(n - 1));
      XorHalves(h, b);
    }
  }

  lemma HalvesAgree(h: nat, p: nat)
    requires p > 0
    ensures h % (2 * p) == 2 * (h / 2 % p) + h % 2
  {
    var q, r := h / 2 / p, h / 2 % p;
    assert h / 2 == p * q + r;
    assert h == (2 * p) * q + (2 * r + h % 2);
    QuotientIs(h, 2 * p, q, 2 * r + h % 2);
  }

  /** A byte that makes the low byte of the word to be `x` leads on to `r`. */
  predicate Leads(w: Word, x: nat, r: Word) {
    Times(w - w % 0x100 + x) == r
  }

  /** The words that come one after the other when a text makes the low bytes to be these. */
  ghost predicate Through(words: seq<Word>, low: seq<Byte>) {
    |words| == |low| + 1 && forall i :: 0 <= i < |low| ==> Leads(words[i], low[i], words[i + 1])
  }

  lemma {:induction false} TextThrough(words: seq<Word>, low: seq<Byte>) returns (text: seq<Byte>)
    requires Through(words, low)
    ensures |text| == |low| && Fold<Word, Byte>(Turn, words[0], text) == words[|low|]
    ensures low != [] ==> Xor(words[0], text[0]) == words[0] - words[0] % 0x100 + low[0]
    decreases |low|
  {
    if low == [] {
      text := [];
    } else {
      assert Pow2(8) == 0x100 && Leads(words[0], low[0], words[1]);
      var b := XorReaches(words[0], low[0], 8);
      var rest := TextThrough(words[1..], low[1..]);
      text := [b] + rest;
      FoldFirst<Word, Byte>(Turn, words[0], b, rest);
    }
  }

  const COMMON: Word := 0xf1fa_8746_977f_ce00

  const ONE: seq<Word> :=
    [OFFSET, 0xaf63_af4c_8601_a015, 0x802_e307_b4c2_e6cc, 0x5fcd_c618_272c_d200,
     0xf779_9b0a_9128_d600, 0xac78_73f4_a863_a3b3, 0x7450_09ba_214d_fab3, COMMON]
  const ONE_LOW: seq<Byte> := [23, 4, 0, 0, 1, 1, 0]

  const OTHER: seq<Word> :=
    [OFFSET, 0xaf63_984c_8601_7900, 0x7b4_ca07_b480_9b00, 0x98cf_4417_b689_081b,
     0x3138_e94b_2ad8_f20f, 0x7ca7_19b9_cea4_5f5d, 0x7450_09ba_214d_fa09, COMMON]
  const OTHER_LOW: seq<Byte> := [0, 0, 249, 53, 175, 83, 0]

  lemma OneLeads()
    ensures Through(ONE, ONE_LOW)
  {
    assert Leads(OFFSET, 23, 0xaf63_af4c_8601_a015);
    assert Leads(0xaf63_af4c_8601_a015, 4, 0x802_e307_b4c2_e6cc);
    assert Leads(0x802_e307_b4c2_e6cc, 0, 0x5fcd_c618_272c_d200);
    assert Leads(0x5fcd_c618_272c_d200, 0, 0xf779_9b0a_9128_d600);
    assert Leads(0xf779_9b0a_9128_d600, 1, 0xac78_73f4_a863_a3b3);
    assert Leads(0xac78_73f4_a863_a3b3, 1, 0x7450_09ba_214d_fab3);
    assert Leads(0x7450_09ba_214d_fab3, 0, COMMON);
  }

  lemma OtherLeads()
    ensures Through(OTHER, OTHER_LOW)
  {
    assert Leads(OFFSET, 0, 0xaf63_984c_8601_7900);
    assert Leads(0xaf63_984c_8601_7900, 0, 0x7b4_ca07_b480_9b00);
    assert Leads(0x7b4_ca07_b480_9b00, 249, 0x98cf_4417_b689_081b);
    assert Leads(0x98cf_4417_b689_081b, 53, 0x3138_e94b_2ad8_f20f);
    assert Leads(0x3138_e94b_2ad8_f20f, 175, 0x7ca7_19b9_cea4_5f5d);
    assert Leads(0x7ca7_19b9_cea4_5f5d, 83, 0x7450_09ba_214d_fa09);
    assert Leads(0x7450_09ba_214d_fa09, 0, COMMON);
  }

  lemma TextsCollide(one: seq<Word>, x: seq<Byte>, other: seq<Word>, y: seq<Byte>) returns (a: seq<Byte>, b: seq<Byte>)
    requires Through(one, x) && Through(other, y) && |x| == |y| > 0 && x[0] != y[0]
    requires one[0] == other[0] == OFFSET && one[|x|] == other[|y|]
    ensures |a| == |b| == |x| && a != b && OutputId(a) == OutputId(b)
  {
    a := TextThrough(one, x);
    b := TextThrough(other, y);
  }

  /** Two EDIDs of seven bytes with the same id: 32 11 cc 00 01 b2 b3 and 25 00 f9 2e a0 0e 09. */
  lemma SevenBytesCollide() returns (a: seq<Byte>, b: seq<Byte>)
    ensures |a| == |b| == 7 && a != b && OutputId(a) == OutputId(b)
  {
    OneLeads();
    OtherLeads();
    a, b := TextsCollide(ONE, ONE_LOW, OTHER, OTHER_LOW);
  }

  ghost predicate TellsApart(n: nat) {
    forall before: seq<Byte>, a: seq<Byte>, b: seq<Byte>, after: seq<Byte> :: |a| == |b| <= n && a != b ==>
      OutputId(before + a + after) != OutputId(before + b + after)
  }

  lemma NotToldApart(a: seq<Byte>, b: seq<Byte>, n: nat)
    requires |a| == |b| <= n && a != b && OutputId(a) == OutputId(b)
    ensures !TellsApart(n)
  {
    assert [] + a + [] == a && [] + b + [] == b;
  }

  /**
   * Distinct EDIDs are documented to get distinct ids. Those of the same length that differ only
   * within `n` consecutive bytes always do exactly for `n` up to six.
   */
  lemma TellsApartExactly(n: nat)
    ensures TellsApart(n) <==> n <= 6
  {
    if n <= 6 {
      forall before: seq<Byte>, a: seq<Byte>, b: seq<Byte>, after: seq<Byte> | |a| == |b| <= n && a != b
        ensures OutputId(before + a + after) != OutputId(before + b + after)
      {
        SixBytesTellApart(before, a, b, after);
      }
    } else if TellsApart(n) {
      var a, b := SevenBytesCollide();
      NotToldApart(a, b, n);
    }
  }
}
