/**
 * The restart limiter of app-native/src/supervisor.rs: a bounded number of restarts per
 * rolling window, with an exponential ladder of delays between them.
 *
 * Instants and durations are integers, in nanoseconds.
 */
module RestartBudgets {
  import opened Prelude

  const MILLISECOND := 1_000_000

  /** The ends of the ladder. */
  const SHORTEST := 100 * MILLISECOND
  const LONGEST := 6400 * MILLISECOND
  const U32_MAX := 0xFFFF_FFFF

  /** The limiter as a value. */
  datatype Ledger = Ledger(maxRestarts: nat, window: nat, attempts: seq<int>, consecutive: nat)
  {
    predicate Valid() {
      && |attempts| <= maxRestarts <= U32_MAX
      && consecutive <= U32_MAX
    }
  }

  function Fresh(maxRestarts: nat, window: nat): Ledger {
    Ledger(maxRestarts, window, [], 0)
  }

  /** `duration_since` of the standard library: zero when `earlier` is in fact later. */
  function DurationSince(now: int, earlier: int): nat {
    if earlier <= now then now - earlier else 0
  }

  /** A deque length cast to `u32`. */
  function AsU32(n: nat): nat {
    n % (U32_MAX + 1)
  }

  lemma CastIsLossless(n: nat)
    requires n <= U32_MAX
    ensures AsU32(n) == n
  {
  }

  function Pruned(attempts: seq<int>, window: nat, now: int): seq<int> {
    if attempts != [] && DurationSince(now, attempts[0]) >= window
    then Pruned(attempts[1..], window, now)
    else attempts
  }

  ghost predicate IsSuffix(part: seq<int>, whole: seq<int>) {
    |part| <= |whole| && part == whole[|whole| - |part|..]
  }

  lemma SuffixIsTransitive(a: seq<int>, b: seq<int>, c: seq<int>)
    requires IsSuffix(a, b) && IsSuffix(b, c)
    ensures IsSuffix(a, c)
  {
  }

  lemma SuffixGrows(part: seq<int>, whole: seq<int>, x: int)
    requires IsSuffix(part, whole)
    ensures IsSuffix(part + [x], whole + [x])
  {
  }

  /** 100 ms shifted left once per earlier consecutive restart, at most six times. */
  function Backoff(earlier: nat): nat {
    100 * MILLISECOND * Pow2(if earlier < 6 then earlier else 6)
  }

  lemma {:induction false} BackoffMonotone(a: nat, b: nat)
    requires a <= b
    ensures Backoff(0) == SHORTEST
    ensures Backoff(a) <= Backoff(b)
    ensures b >= 6 ==> Backoff(b) == LONGEST
  {
    if a < b {
      BackoffMonotone(a, b - 1);
    }
  }

  lemma BackoffIsBounded(earlier: nat)
    ensures SHORTEST <= Backoff(earlier) <= LONGEST
  {
    BackoffMonotone(0, earlier);
    BackoffMonotone(earlier, earlier + 6);
  }

  function Counted(b: Ledger, now: int): Ledger {
    b.(attempts := Pruned(b.attempts, b.window, now))
  }

  /** `record_and_check`: the delay to wait, or `None` when the window is full. */
  function Recorded(b: Ledger, now: int): (Ledger, Option<nat>) {
    var p := Counted(b, now);
    if |p.attempts| >= p.maxRestarts then (p, None)
    else
      var c := if p.consecutive < U32_MAX then p.consecutive + 1 else U32_MAX;
      (p.(attempts := p.attempts + [now], consecutive := c), Some(Backoff(c - 1)))
  }

  function Stabilised(b: Ledger): Ledger {
    b.(consecutive := 0)
  }

  class RestartBudget {
    const maxRestarts: nat
    const window: nat
    var attempts: seq<int>
    var consecutive: nat

    function Value(): Ledger
      reads this
    {
      Ledger(maxRestarts, window, attempts, consecutive)
    }

    constructor (maxRestarts: nat, window: nat)
      ensures Value() == Fresh(maxRestarts, window)
    {
      this.maxRestarts := maxRestarts;
      this.window := window;
      attempts := [];
      consecutive := 0;
    }

    method Prune(now: int)
      modifies this
      ensures Value() == Counted(old(Value()), now)
    {
      while attempts != [] && DurationSince(now, attempts[0]) >= window
        invariant consecutive == old(consecutive)
        invariant Pruned(attempts, window, now) == Pruned(old(attempts), window, now)
        decreases |attempts|
      {
        attempts := attempts[1..];
      }
    }

    /** The length of the deque is truncated to 32 bits, which loses nothing in a valid state. */
    method CountInWindow(now: int) returns (n: nat)
      requires Value().Valid()
      modifies this
      ensures Value() == Counted(old(Value()), now) && Value().Valid()
      ensures n == |attempts|
    {
      Prune(now);
      PrunedIsSuffix(old(attempts), window, now);
      CastIsLossless(|attempts|);
      n := AsU32(|attempts|);
    }

    method RecordAndCheck(now: int) returns (delay: Option<nat>)
      requires Value().Valid()
      modifies this
      ensures (Value(), delay) == Recorded(old(Value()), now)
      ensures Value().Valid()
    {
      Prune(now);
      PrunedIsSuffix(old(attempts), window, now);
      CastIsLossless(|attempts|);
      if AsU32(|attempts|) >= maxRestarts {
        return None;
      }
      attempts := attempts + [now];
      consecutive := if consecutive < U32_MAX then consecutive + 1 else U32_MAX;
      delay := Some(Backoff(consecutive - 1));
    }

    method NoteStable()
      modifies this
      ensures Value() == Stabilised(old(Value()))
    {
      consecutive := 0;
    }
  }

  lemma {:induction false} PrunedIsSuffix(attempts: seq<int>, window: nat, now: int)
    ensures var p := Pruned(attempts, window, now);
            && IsSuffix(p, attempts)
            && (forall i :: 0 <= i < |attempts| - |p| ==> DurationSince(now, attempts[i]) >= window)
            && (p != [] ==> DurationSince(now, p[0]) < window)
  {
    if attempts != [] && DurationSince(now, attempts[0]) >= window {
      PrunedIsSuffix(attempts[1..], window, now);
      var p := Pruned(attempts[1..], window, now);
      assert forall i :: 0 < i < |attempts| - |p| ==> attempts[i] == attempts[1..][i - 1];
    }
  }

  // ---- Whole histories -----------------------------------------------------------------

  /** One call on the limiter; `Count` is the prune made by `snapshot`. */
  datatype Call = Record(now: int) | Count(now: int) | Stable

  /**
   * What a history of calls leads to: the limiter, every granted instant in order, the delays
   * granted since the last `Stable`, and the number of refusals.
   */
  datatype Trace = Trace(ledger: Ledger, grants: seq<int>, ladder: seq<nat>, refusals: nat)

  function Extend(t: Trace, call: Call): Trace {
    match call
    case Count(now) => t.(ledger := Counted(t.ledger, now))
    case Stable => t.(ledger := Stabilised(t.ledger), ladder := [])
    case Record(now) =>
      var (b, delay) := Recorded(t.ledger, now);
      if delay.None? then t.(ledger := b, refusals := t.refusals + 1)
      else t.(ledger := b, grants := t.grants + [now], ladder := t.ladder + [delay.value])
  }

  function Run(start: Ledger, calls: seq<Call>): Trace {
    if calls == [] then Trace(start, [], [], 0) else Extend(Run(start, Front(calls)), Last(calls))
  }

  /** Clock readings never go back by more than `skew`; zero means a monotonic clock. */
  ghost predicate ClockWithin(calls: seq<Call>, skew: nat) {
    forall i, j :: 0 <= i < j < |calls| && !calls[i].Stable? && !calls[j].Stable?
                   ==> calls[j].now >= calls[i].now - skew
  }

  ghost predicate NotEarlierThan(now: int, calls: seq<Call>, skew: nat) {
    forall i :: 0 <= i < |calls| && !calls[i].Stable? ==> now >= calls[i].now - skew
  }

  /** The granted instants inside [lo, lo + length), by their place in the history. */
  ghost function GrantsIn(grants: seq<int>, lo: int, length: int): set<int> {
    set i | 0 <= i < |grants| && lo <= grants[i] < lo + length
  }

  /** The place of the first grant inside [lo, lo + length), or the length of the history. */
  ghost function FirstIn(grants: seq<int>, lo: int, length: int): (k: nat)
    ensures k <= |grants|
    ensures k < |grants| ==> lo <= grants[k] < lo + length
    ensures forall i :: 0 <= i < k ==> !(lo <= grants[i] < lo + length)
  {
    if grants == [] || lo <= grants[0] < lo + length then 0 else 1 + FirstIn(grants[1..], lo, length)
  }

  ghost predicate Spaced(grants: seq<int>, distance: nat, gap: int) {
    forall i, j :: 0 <= i <= j < |grants| && j - i >= distance ==> grants[j] - grants[i] >= gap
  }

  ghost predicate NondecreasingUpTo(grants: seq<int>, bound: int) {
    && (forall i :: 0 <= i < |grants| ==> grants[i] <= bound)
    && (forall i, j :: 0 <= i < j < |grants| ==> grants[i] <= grants[j])
  }

  lemma ClockOfPrefix(calls: seq<Call>, skew: nat)
    requires calls != [] && ClockWithin(calls, skew)
    ensures ClockWithin(Front(calls), skew)
    ensures !Last(calls).Stable? ==> NotEarlierThan(Last(calls).now, Front(calls), skew)
  {
    var prior := Front(calls);
    assert forall i :: 0 <= i < |prior| ==> prior[i] == calls[i];
  }

  /** The deque is always the tail of the history of grants. */
  ghost predicate Consistent(t: Trace, maxRestarts: nat, window: nat) {
    && t.ledger.Valid() && t.ledger.maxRestarts == maxRestarts && t.ledger.window == window
    && IsSuffix(t.ledger.attempts, t.grants)
  }

  lemma ExtendIsConsistent(t: Trace, maxRestarts: nat, window: nat, call: Call)
    requires Consistent(t, maxRestarts, window)
    ensures Consistent(Extend(t, call), maxRestarts, window)
  {
    if !call.Stable? {
      PrunedIsSuffix(t.ledger.attempts, window, call.now);
      var p := Pruned(t.ledger.attempts, window, call.now);
      SuffixIsTransitive(p, t.ledger.attempts, t.grants);
      SuffixGrows(p, t.grants, call.now);
    }
  }

  lemma {:induction false} RunKeepsLedger(maxRestarts: nat, window: nat, calls: seq<Call>)
    requires maxRestarts <= U32_MAX
    ensures Consistent(Run(Fresh(maxRestarts, window), calls), maxRestarts, window)
  {
    if calls != [] {
      RunKeepsLedger(maxRestarts, window, Front(calls));
      ExtendIsConsistent(Run(Fresh(maxRestarts, window), Front(calls)), maxRestarts, window, Last(calls));
    }
  }

  /** The grants no longer in the deque lie at least `age` before `next`. */
  ghost predicate ForgottenAreOld(t: Trace, next: int, age: int) {
    forall i :: 0 <= i < |t.grants| - |t.ledger.attempts| && i < |t.grants| ==> next - t.grants[i] >= age
  }

  /** Every grant the deque has forgotten is, for any call yet to come, at least `window - skew` old. */
  lemma {:induction false} ForgottenGrantsAreOld(maxRestarts: nat, window: nat, calls: seq<Call>, skew: nat, next: int)
    requires maxRestarts <= U32_MAX && 0 < window
    requires NotEarlierThan(next, calls, skew)
    ensures ForgottenAreOld(Run(Fresh(maxRestarts, window), calls), next, window - skew)
  {
    if calls != [] {
      var prior := Front(calls);
      assert forall i :: 0 <= i < |prior| ==> prior[i] == calls[i];
      ForgottenGrantsAreOld(maxRestarts, window, prior, skew, next);
      RunKeepsLedger(maxRestarts, window, prior);
      var t := Run(Fresh(maxRestarts, window), prior);
      var call := Last(calls);
      if !call.Stable? {
        assert calls[|calls| - 1] == call;
        PrunedIsSuffix(t.ledger.attempts, window, call.now);
        var k := |t.grants| - |t.ledger.attempts|;
        var forgotten := |t.grants| - |Pruned(t.ledger.attempts, window, call.now)|;
        forall i | 0 <= i < forgotten
          ensures next - t.grants[i] >= window - skew
        {
          assert i >= k ==> t.grants[i] == t.ledger.attempts[i - k];
        }
        assert |Extend(t, call).grants| - |Extend(t, call).ledger.attempts| == forgotten;
      }
    }
  }

  /** Any `maxRestarts + 1` consecutive grants span at least `window - skew`. */
  lemma {:induction false} GrantsAreSpaced(maxRestarts: nat, window: nat, calls: seq<Call>, skew: nat)
    requires maxRestarts <= U32_MAX && 0 < window && ClockWithin(calls, skew)
    ensures Spaced(Run(Fresh(maxRestarts, window), calls).grants, maxRestarts, window - skew)
  {
    if calls != [] {
      var prior := Front(calls);
      ClockOfPrefix(calls, skew);
      GrantsAreSpaced(maxRestarts, window, prior, skew);
      var call := Last(calls);
      var t := Run(Fresh(maxRestarts, window), prior);
      if call.Record? {
        RunKeepsLedger(maxRestarts, window, prior);
        var early := prior + [Count(call.now)];
        assert Front(early) == prior && Last(early) == Count(call.now);
        ForgottenGrantsAreOld(maxRestarts, window, early, skew, call.now);
        RunKeepsLedger(maxRestarts, window, early);
      }
    }
  }

  /**
   * The rolling-window theorem: with clock readings that go back by at most `skew`, no interval
   * of length `window - skew` holds more than `maxRestarts` granted restarts.
   */
  lemma WindowHoldsAtMostMax(maxRestarts: nat, window: nat, calls: seq<Call>, skew: nat, lo: int, length: int)
    requires maxRestarts <= U32_MAX && ClockWithin(calls, skew) && length <= window - skew
    ensures |GrantsIn(Run(Fresh(maxRestarts, window), calls).grants, lo, length)| <= maxRestarts
  {
    if length > 0 {
      GrantsAreSpaced(maxRestarts, window, calls, skew);
      var h := Run(Fresh(maxRestarts, window), calls).grants;
      var inside := GrantsIn(h, lo, length);
      var first := FirstIn(h, lo, length);
      forall i | i in inside
        ensures i in Range(first, first + maxRestarts)
      {
        assert i >= first && h[first] >= lo;
        assert h[i] - h[first] < length;
      }
      SubsetCardinality(inside, Range(first, first + maxRestarts));
    }
  }

  /** `n` grants at time zero: the history that fills a window. */
  function Burst(n: nat): seq<Call> {
    if n == 0 then [] else Burst(n - 1) + [Record(0)]
  }

  lemma {:induction false} BurstIsGranted(maxRestarts: nat, window: nat, n: nat)
    requires n <= maxRestarts <= U32_MAX && window > 0
    ensures |Burst(n)| == n && forall i :: 0 <= i < n ==> Burst(n)[i] == Record(0)
    ensures var t := Run(Fresh(maxRestarts, window), Burst(n));
            t.grants == seq(n, _ => 0) && t.ledger.attempts == t.grants && t.ledger.window == window
            && t.ledger.maxRestarts == maxRestarts
  {
    if n > 0 {
      BurstIsGranted(maxRestarts, window, n - 1);
      assert Front(Burst(n)) == Burst(n - 1);
    }
  }

  lemma {:induction false} AllPruned(attempts: seq<int>, window: nat, now: int)
    requires forall i :: 0 <= i < |attempts| ==> DurationSince(now, attempts[i]) >= window
    ensures Pruned(attempts, window, now) == []
  {
    if attempts != [] {
      AllPruned(attempts[1..], window, now);
    }
  }

  /** A full window that `snapshot` prunes at its end grants again to a reading `skew` older. */
  lemma {:induction false} LateReadingIsGranted(maxRestarts: nat, window: nat, skew: nat)
    requires 0 < maxRestarts <= U32_MAX && 0 < window && skew <= window
    ensures var calls := Burst(maxRestarts) + [Count(window)] + [Record(window - skew)];
            Run(Fresh(maxRestarts, window), calls).grants == seq(maxRestarts, _ => 0) + [window - skew]
  {
    var start := Fresh(maxRestarts, window);
    var burst := Burst(maxRestarts);
    var counted := burst + [Count(window)];
    var calls := counted + [Record(window - skew)];
    BurstIsGranted(maxRestarts, window, maxRestarts);
    assert Front(counted) == burst && Last(counted) == Count(window);
    assert Front(calls) == counted && Last(calls) == Record(window - skew);
    AllPruned(Run(start, burst).ledger.attempts, window, window);
  }

  lemma LateReadingOverfills(maxRestarts: nat, window: nat, skew: nat)
    requires 0 < maxRestarts <= U32_MAX && 0 < window && skew <= window
    ensures var calls := Burst(maxRestarts) + [Count(window)] + [Record(window - skew)];
            && ClockWithin(calls, skew)
            && |GrantsIn(Run(Fresh(maxRestarts, window), calls).grants, 0, window - skew + 1)| > maxRestarts
  {
    LateReadingIsGranted(maxRestarts, window, skew);
    BurstIsGranted(maxRestarts, window, maxRestarts);
    var h := seq(maxRestarts, _ => 0) + [window - skew];
    assert GrantsIn(h, 0, window - skew + 1) == Range(0, maxRestarts + 1);
  }

  /**
   * `window - skew` is exactly the length that is safe: the limiter keeps its promise for a given
   * length, over every history with that clock, if and only if the length is no greater.
   */
  lemma SafeLengthIsExact(maxRestarts: nat, window: nat, skew: nat, length: int)
    requires 0 < maxRestarts <= U32_MAX && 0 < window && skew <= window
    ensures (forall calls, lo :: ClockWithin(calls, skew)
                 ==> |GrantsIn(Run(Fresh(maxRestarts, window), calls).grants, lo, length)| <= maxRestarts)
            <==> length <= window - skew
  {
    if length <= window - skew {
      forall calls, lo | ClockWithin(calls, skew)
        ensures |GrantsIn(Run(Fresh(maxRestarts, window), calls).grants, lo, length)| <= maxRestarts
      {
        WindowHoldsAtMostMax(maxRestarts, window, calls, skew, lo, length);
      }
    } else {
      LateReadingOverfills(maxRestarts, window, skew);
      var calls := Burst(maxRestarts) + [Count(window)] + [Record(window - skew)];
      var h := Run(Fresh(maxRestarts, window), calls).grants;
      SubsetCardinality(GrantsIn(h, 0, window - skew + 1), GrantsIn(h, 0, length));
      assert ClockWithin(calls, skew) && |GrantsIn(h, 0, length)| > maxRestarts;
    }
  }

  /** On a monotonic clock the granted instants are nondecreasing and bounded by every later reading. */
  lemma {:induction false} GrantsAreSorted(maxRestarts: nat, window: nat, calls: seq<Call>, next: int)
    requires maxRestarts <= U32_MAX && ClockWithin(calls, 0) && NotEarlierThan(next, calls, 0)
    ensures NondecreasingUpTo(Run(Fresh(maxRestarts, window), calls).grants, next)
  {
    if calls != [] {
      var prior := Front(calls);
      var call := Last(calls);
      ClockOfPrefix(calls, 0);
      assert forall i :: 0 <= i < |prior| ==> prior[i] == calls[i];
      assert calls[|calls| - 1] == call;
      GrantsAreSorted(maxRestarts, window, prior, next);
      if call.Record? {
        GrantsAreSorted(maxRestarts, window, prior, call.now);
      }
    }
  }

  /** In sorted history the grants younger than `window` start at the first one that is. */
  lemma WindowStartsAt(grants: seq<int>, k: nat, window: nat, now: int)
    requires k <= |grants| && NondecreasingUpTo(grants, now)
    requires forall i :: 0 <= i < k ==> now - grants[i] >= window
    requires k < |grants| ==> now - grants[k] < window
    ensures |GrantsIn(grants, now - window + 1, window)| == |grants| - k
  {
    assert GrantsIn(grants, now - window + 1, window) == Range(k, |grants|);
  }

  /** What a prune at `now` leaves of the history: everything before it has expired. */
  lemma PrunedInHistory(t: Trace, now: int)
    requires IsSuffix(t.ledger.attempts, t.grants) && 0 < t.ledger.window
    requires ForgottenAreOld(t, now, t.ledger.window)
    ensures IsSuffix(Counted(t.ledger, now).attempts, t.grants)
    ensures ForgottenAreOld(t.(ledger := Counted(t.ledger, now)), now, t.ledger.window)
  {
    var h, attempts := t.grants, t.ledger.attempts;
    PrunedIsSuffix(attempts, t.ledger.window, now);
    var p := Pruned(attempts, t.ledger.window, now);
    SuffixIsTransitive(p, attempts, h);
    var f := |h| - |attempts|;
    forall i | f <= i < |h| - |p|
      ensures now - h[i] >= t.ledger.window
    {
      assert h[i] == attempts[i - f];
    }
  }

  lemma PrunedIsTheWindow(t: Trace, now: int)
    requires IsSuffix(t.ledger.attempts, t.grants) && 0 < t.ledger.window
    requires NondecreasingUpTo(t.grants, now) && ForgottenAreOld(t, now, t.ledger.window)
    ensures IsSuffix(Counted(t.ledger, now).attempts, t.grants)
    ensures |Counted(t.ledger, now).attempts| == |GrantsIn(t.grants, now - t.ledger.window + 1, t.ledger.window)|
  {
    PrunedInHistory(t, now);
    var p := Counted(t.ledger, now).attempts;
    assert p != [] ==> now - t.grants[|t.grants| - |p|] < t.ledger.window by {
      PrunedIsSuffix(t.ledger.attempts, t.ledger.window, now);
      assert p != [] ==> t.grants[|t.grants| - |p|] == p[0];
    }
    WindowStartsAt(t.grants, |t.grants| - |p|, t.ledger.window, now);
  }

  /**
   * A monotonic clock makes the limiter exact: the deque is the grants of the window that ends
   * now, and a restart is granted if and only if they are fewer than `maxRestarts`.
   */
  lemma GrantedExactlyUnderBudget(maxRestarts: nat, window: nat, calls: seq<Call>, now: int)
    requires maxRestarts <= U32_MAX && 0 < window
    requires ClockWithin(calls, 0) && NotEarlierThan(now, calls, 0)
    ensures var t := Run(Fresh(maxRestarts, window), calls);
            var inWindow := |GrantsIn(t.grants, now - window + 1, window)|;
            && IsSuffix(Counted(t.ledger, now).attempts, t.grants)
            && |Counted(t.ledger, now).attempts| == inWindow
            && (Recorded(t.ledger, now).1.Some? <==> inWindow < maxRestarts)
  {
    GrantsAreSorted(maxRestarts, window, calls, now);
    RunKeepsLedger(maxRestarts, window, calls);
    ForgottenGrantsAreOld(maxRestarts, window, calls, 0, now);
    PrunedIsTheWindow(Run(Fresh(maxRestarts, window), calls), now);
  }

  /** The rungs, in milliseconds. */
  const RUNGS := [100, 200, 400, 800, 1600, 3200, 6400]

  lemma BackoffIsRung(earlier: nat)
    ensures Backoff(earlier) == RUNGS[if earlier < 6 then earlier else 6] * 1_000_000
  {
    assert Pow2(1) == 2 && Pow2(2) == 4 && Pow2(3) == 8 && Pow2(4) == 16 && Pow2(5) == 32 && Pow2(6) == 64;
  }

  /** The delays granted since the last stable run are 100, 200, 400, ... ms, capped at 6400 ms. */
  lemma {:induction false} LadderDoublesToCap(maxRestarts: nat, window: nat, calls: seq<Call>)
    ensures var t := Run(Fresh(maxRestarts, window), calls);
            && t.ledger.consecutive == (if |t.ladder| < U32_MAX then |t.ladder| else U32_MAX)
            && (forall i :: 0 <= i < |t.ladder| ==> t.ladder[i] == RUNGS[if i < 6 then i else 6] * 1_000_000)
  {
    if calls != [] {
      LadderDoublesToCap(maxRestarts, window, Front(calls));
      BackoffIsRung(Run(Fresh(maxRestarts, window), Front(calls)).ledger.consecutive);
    }
  }

  lemma LadderIsMonotoneAndBounded(maxRestarts: nat, window: nat, calls: seq<Call>)
    ensures var ladder := Run(Fresh(maxRestarts, window), calls).ladder;
            && (forall i :: 0 <= i < |ladder| ==> SHORTEST <= ladder[i] <= LONGEST)
            && (forall i, j :: 0 <= i < j < |ladder| ==> ladder[i] <= ladder[j])
  {
    LadderDoublesToCap(maxRestarts, window, calls);
    var ladder := Run(Fresh(maxRestarts, window), calls).ladder;
    forall i, j | 0 <= i <= j < |ladder|
      ensures SHORTEST <= ladder[i] <= ladder[j] <= LONGEST
    {
    }
  }
}
