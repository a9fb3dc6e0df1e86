/** Types and sequence facts shared by the modules below. */
module Prelude {

  datatype Option<+T> = None | Some(value: T)

  type Byte = b: nat | b < 0x100

  function Pow2(n: nat): nat {
    if n == 0 then 1 else 2 * Pow2(n - 1)
  }

  /** The last element of a non-empty sequence. */
  function Last<T>(s: seq<T>): T
    requires s != []
  {
    s[|s| - 1]
  }

  /** A sequence without its last element. */
  function Front<T>(s: seq<T>): seq<T>
    requires s != []
  {
    s[..|s| - 1]
  }

  lemma FrontThenLast<T>(s: seq<T>)
    requires s != []
    ensures Front(s) + [Last(s)] == s
  {
  }

  /** The integers in [lo, hi). */
  ghost function Range(lo: int, hi: int): (r: set<int>)
    requires lo <= hi
    ensures |r| == hi - lo
    ensures forall i :: i in r <==> lo <= i < hi
    decreases hi - lo
  {
    if lo == hi then {} else {hi - 1} + Range(lo, hi - 1)
  }

  lemma SubsetCardinality<T>(a: set<T>, b: set<T>)
    requires a <= b
    ensures |a| <= |b|
  {
    if x :| x in a {
      SubsetCardinality(a - {x}, b - {x});
    }
  }

  lemma AtLeastOne(k: int, d: int)
    requires d >= 0
    ensures k >= 1 ==> k * d >= d
    ensures k <= -1 ==> k * d <= -d
  {
    if k >= 1 {
      assert k * d == d + (k - 1) * d;
    } else if k <= -1 {
      assert k * d == -d + (k + 1) * d;
    }
  }

  lemma QuotientIs(n: nat, d: nat, q: nat, r: nat)
    requires n == q * d + r && r < d
    ensures n / d == q
  {
    var k := n / d - q;
    assert n == (n / d) * d + n % d;
    assert k * d == r - n % d;
    AtLeastOne(k, d);
  }
}
