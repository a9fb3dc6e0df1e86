/**
 * How often the supervisor spawns again. A grant leaves the budget's window counted from the grant,
 * but the spawn it pays for comes after the delay of the ladder and with the next poll.
 */
module RestartRuns {
  import opened Prelude
  import opened RestartBudgets
  import opened Supervisor
  import opened SupervisorRuns

  /** An attempt granted after a spawn was not read from the clock more than `skew` before it. */
  ghost predicate SpawnClockWithin(s: System, skew: nat) {
    forall k, i :: 0 <= k < |s.respawns| && s.respawns[k].paid <= i < |s.granted| ==>
      s.granted[i] >= s.respawns[k].now - skew
  }

  function Times(respawns: seq<Respawning>): (r: seq<int>)
    ensures |r| == |respawns| && forall k :: 0 <= k < |r| ==> r[k] == respawns[k].now
  {
    seq(|respawns|, k requires 0 <= k < |respawns| => respawns[k].now)
  }

  /** One spawn may use an older grant; the others come as far apart as the grants made since. */
  lemma RespawnsAreSpaced(s: System, distance: nat, skew: nat, gap: int, j: nat, k: nat)
    requires PaidFor(s) && SpawnClockWithin(s, skew) && Spaced(s.granted, distance, gap)
    requires j + distance < k < |s.respawns|
    ensures s.respawns[k].now - s.respawns[j].now >= gap - skew
  {
    assert Covered(s.granted, s.respawns[k]);
    assert s.granted[s.respawns[j].paid] >= s.respawns[j].now - skew;
    assert s.granted[s.respawns[k].paid - 1] - s.granted[s.respawns[j].paid] >= gap;
  }

  lemma RespawnsAreFew(s: System, distance: nat, skew: nat, gap: int, lo: int, length: int)
    requires PaidFor(s) && SpawnClockWithin(s, skew) && Spaced(s.granted, distance, gap) && length <= gap - skew
    ensures |GrantsIn(Times(s.respawns), lo, length)| <= distance + 1
  {
    var inside := GrantsIn(Times(s.respawns), lo, length);
    var first := FirstIn(Times(s.respawns), lo, length);
    forall k | k in inside
      ensures k in Range(first, first + distance + 1)
    {
      if k > first + distance {
        RespawnsAreSpaced(s, distance, skew, gap, first, k);
      }
    }
    SubsetCardinality(inside, Range(first, first + distance + 1));
  }

  /** Every spawn comes within `lag` after the grant it uses. */
  ghost predicate Prompt(s: System, lag: int) {
    forall r :: r in s.respawns ==> 1 <= r.paid <= |s.granted| && r.now <= s.granted[r.paid - 1] + lag
  }

  /** Every spawn comes within `late` after its deadline: the polls are no further apart than that. */
  ghost predicate Punctual(s: System, late: int) {
    forall r :: r in s.respawns ==> r.now <= r.due + late
  }

  lemma PunctualIsPrompt(s: System, late: int)
    requires PaidFor(s) && Punctual(s, late)
    ensures Prompt(s, late + LONGEST)
  {
    forall r | r in s.respawns
      ensures Covered(s.granted, r)
    {
      var k :| 0 <= k < |s.respawns| && s.respawns[k] == r;
      assert Covered(s.granted, s.respawns[k]);
    }
  }

  /** Prompt spawns come as far apart as their grants, but for the lag. */
  lemma PromptSpawnsAreSpaced(s: System, distance: nat, gap: int, lag: int, j: nat, k: nat)
    requires PaidFor(s) && Prompt(s, lag) && Spaced(s.granted, distance, gap)
    requires j < k < |s.respawns| && j + distance <= k
    ensures s.respawns[k].now - s.respawns[j].now >= gap - lag + SHORTEST
  {
    assert s.respawns[j] in s.respawns && Covered(s.granted, s.respawns[j]) && Covered(s.granted, s.respawns[k]);
    var g, h := s.respawns[j].paid - 1, s.respawns[k].paid - 1;
    assert s.granted[h] - s.granted[g] >= gap;
  }

  lemma PromptSpawnsAreFew(s: System, distance: nat, gap: int, lag: int, lo: int, length: int)
    requires PaidFor(s) && Prompt(s, lag) && Spaced(s.granted, distance, gap)
    requires 1 <= distance && length <= gap - lag + SHORTEST
    ensures |GrantsIn(Times(s.respawns), lo, length)| <= distance
  {
    var inside := GrantsIn(Times(s.respawns), lo, length);
    var first := FirstIn(Times(s.respawns), lo, length);
    forall k | k in inside
      ensures k in Range(first, first + distance)
    {
      if k >= first + distance {
        PromptSpawnsAreSpaced(s, distance, gap, lag, first, k);
      }
    }
    SubsetCardinality(inside, Range(first, first + distance));
  }

  /**
   * `poll` spawns no more often than the budget grants. The grants inside any interval shorter than
   * the window by the clock skew are at most the budget, and the spawns inside any interval shorter
   * by twice the skew at most one more.
   */
  lemma RestartsAreBudgeted(maxRestarts: nat, window: nat, steps: seq<Step>, skew: nat, lo: int, length: int)
    requires maxRestarts <= U32_MAX
    requires Runnable(Begin(Fresh(maxRestarts, window)), steps)
    ensures var s := After(Begin(Fresh(maxRestarts, window)), steps);
            && |s.respawns| <= |s.granted| && s.granted == Run(Fresh(maxRestarts, window), s.budgetCalls).grants
            && (ClockWithin(s.budgetCalls, skew) && length <= window - skew ==>
                  |GrantsIn(s.granted, lo, length)| <= maxRestarts)
            && (ClockWithin(s.budgetCalls, skew) && SpawnClockWithin(s, skew) && length <= window - 2 * skew ==>
                  |GrantsIn(Times(s.respawns), lo, length)| <= maxRestarts + 1)
  {
    var b := Fresh(maxRestarts, window);
    Reachable(b, steps);
    var s := After(Begin(b), steps);
    assert s.respawns != [] ==> Covered(s.granted, s.respawns[|s.respawns| - 1]);
    if ClockWithin(s.budgetCalls, skew) && length <= window - skew {
      WindowHoldsAtMostMax(maxRestarts, window, s.budgetCalls, skew, lo, length);
    }
    if ClockWithin(s.budgetCalls, skew) && SpawnClockWithin(s, skew) && 0 < length <= window - 2 * skew {
      GrantsAreSpaced(maxRestarts, window, s.budgetCalls, skew);
      RespawnsAreFew(s, maxRestarts, skew, window - skew, lo, length);
    }
    assert length <= 0 ==> GrantsIn(Times(s.respawns), lo, length) == {};
  }

  /**
   * What a caller that polls often enough gets: with every spawn at most `lag` after its grant, no
   * interval of length `window - skew - lag + 100 ms` holds more spawns than the budget.
   */
  lemma PromptSpawnsKeepBudget(maxRestarts: nat, window: nat, steps: seq<Step>,
                              skew: nat, lag: int, lo: int, length: int)
    requires 1 <= maxRestarts <= U32_MAX && length <= window - skew - lag + SHORTEST
    requires Runnable(Begin(Fresh(maxRestarts, window)), steps)
    requires var s := After(Begin(Fresh(maxRestarts, window)), steps);
             ClockWithin(s.budgetCalls, skew) && Prompt(s, lag)
    ensures |GrantsIn(Times(After(Begin(Fresh(maxRestarts, window)), steps).respawns), lo, length)| <= maxRestarts
  {
    var b := Fresh(maxRestarts, window);
    Reachable(b, steps);
    var s := After(Begin(b), steps);
    if window > 0 {
      GrantsAreSpaced(maxRestarts, window, s.budgetCalls, skew);
      PromptSpawnsAreFew(s, maxRestarts, window - skew, lag, lo, length);
    } else {
      NoWindowNoSpawns(s, lag, lo, length);
    }
  }

  /** A lag shorter than the first delay leaves no spawn at all. */
  lemma NoWindowNoSpawns(s: System, lag: int, lo: int, length: int)
    requires PaidFor(s) && Prompt(s, lag) && length <= SHORTEST - lag
    ensures GrantsIn(Times(s.respawns), lo, length) == {}
  {
    if s.respawns != [] {
      assert s.respawns[0] in s.respawns && Covered(s.granted, s.respawns[0]);
    }
  }

  // ---- Runs step by step -------------------------------------------------------------------

  ghost predicate Leads(s: System, steps: seq<Step>, r: System)
    decreases |steps|
  {
    if steps == [] then s == r else Enabled(s, steps[0]) && Leads(Apply(s, steps[0]), steps[1..], r)
  }

  lemma {:induction false} LeadsAfter(s: System, steps: seq<Step>, r: System)
    requires Leads(s, steps, r)
    ensures Runnable(s, steps) && After(s, steps) == r
    decreases |steps|
  {
    if steps != [] {
      LeadsAfter(Apply(s, steps[0]), steps[1..], r);
    }
  }

  lemma {:induction false} LeadsThrough(s: System, first: seq<Step>, m: System, second: seq<Step>, r: System)
    requires Leads(s, first, m) && Leads(m, second, r)
    ensures Leads(s, first + second, r)
    decreases |first|
  {
    if first == [] {
      assert first + second == second;
    } else {
      LeadsThrough(Apply(s, first[0]), first[1..], m, second, r);
      assert (first + second)[1..] == first[1..] + second;
    }
  }

  lemma OneStep(s: System, step: Step)
    requires Enabled(s, step)
    ensures Leads(s, [step], Apply(s, step))
  {
    assert [step][1..] == [];
  }

  lemma TwoSteps(s: System, x: Step, y: Step)
    requires Enabled(s, x) && Enabled(Apply(s, x), y)
    ensures Leads(s, [x, y], Apply(Apply(s, x), y))
  {
    OneStep(s, x);
    OneStep(Apply(s, x), y);
    LeadsThrough(s, [x], Apply(s, x), [y], Apply(Apply(s, x), y));
    assert [x] + [y] == [x, y];
  }

  lemma FourSteps(s: System, x: Step, y: Step, v: Step, w: Step)
    requires Enabled(s, x) && Enabled(Apply(s, x), y)
    requires Enabled(Apply(Apply(s, x), y), v) && Enabled(Apply(Apply(Apply(s, x), y), v), w)
    ensures Leads(s, [x, y, v, w], Apply(Apply(Apply(Apply(s, x), y), v), w))
  {
    var m := Apply(Apply(s, x), y);
    TwoSteps(s, x, y);
    TwoSteps(m, v, w);
    LeadsThrough(s, [x, y], m, [v, w], Apply(Apply(m, v), w));
    assert [x, y] + [v, w] == [x, y, v, w];
  }

  /** Nothing is in the slot or on its way, and callers 0 and 1 are idle. */
  ghost predicate Vacant(s: System) {
    s.inner.child.None? && !s.inner.spawning && 0 !in s.calls && 1 !in s.calls
  }

  ghost predicate Waiting(s: System, due: int) {
    Vacant(s) && s.inner.state == Restarting && s.inner.restartNotBefore == Some(due)
  }

  ghost predicate Up(s: System, pid: Instance) {
    s.inner.child == Some(pid) && pid in s.live && !s.inner.spawning && 0 !in s.calls && 1 !in s.calls
  }

  ghost predicate Alive(s: System, pid: Instance, since: int) {
    Up(s, pid) && s.inner.spawnedAt == Some(since) && !s.inner.stableRecorded
  }

  ghost predicate SameBooks(s: System, r: System) {
    r.inner.budget == s.inner.budget && r.budgetCalls == s.budgetCalls && r.granted == s.granted
  }

  /** Between the two the budget has granted an attempt at `now`, and it is due after its delay. */
  ghost predicate Granted(s: System, r: System, now: int) {
    var (b, delay) := Recorded(s.inner.budget, now);
    && delay.Some? && r.inner.budget == b && Waiting(r, now + delay.value)
    && r.budgetCalls == s.budgetCalls + [Record(now)] && r.granted == s.granted + [now]
  }

  function Life(now: int): seq<Step> {
    [StartCall(0), SpawnReturns(0, true), Commit(0, "", now), Emit(0)]
  }

  lemma LifeLeads(s: System, now: int) returns (r: System)
    requires Vacant(s)
    ensures Leads(s, Life(now), r) && Alive(r, s.next, now) && SameBooks(s, r)
    ensures r.respawns == s.respawns && r.next == s.next + 1
  {
    r := Apply(Apply(Apply(Apply(s, StartCall(0)), SpawnReturns(0, true)), Commit(0, "", now)), Emit(0));
    FourSteps(s, StartCall(0), SpawnReturns(0, true), Commit(0, "", now), Emit(0));
  }

  function Death(pid: Instance, now: int): seq<Step> {
    [Dies(pid), PollCall(1, now, None), Emit(1), PollSchedule(1)]
  }

  lemma DeathLeads(s: System, pid: Instance, now: int) returns (r: System)
    requires Up(s, pid) && Recorded(s.inner.budget, now).1.Some?
    ensures Leads(s, Death(pid, now), r) && Granted(s, r, now) && r.respawns == s.respawns && r.next == s.next
  {
    r := Apply(Apply(Apply(Apply(s, Dies(pid)), PollCall(1, now, None)), Emit(1)), PollSchedule(1));
    FourSteps(s, Dies(pid), PollCall(1, now, None), Emit(1), PollSchedule(1));
  }

  lemma StopLeads(s: System, due: int) returns (r: System)
    requires Waiting(s, due)
    ensures Leads(s, [StopCall(1, None)], r) && Vacant(r) && SameBooks(s, r)
    ensures r.respawns == s.respawns && r.next == s.next
  {
    r := Apply(s, StopCall(1, None));
    OneStep(s, StopCall(1, None));
  }

  /** The poll that meets a deadline. */
  lemma RespawnLeads(s: System, due: int, now: int) returns (r: System)
    requires Waiting(s, due) && due <= now
    ensures Leads(s, [PollCall(1, now, None)], r) && SameBooks(s, r)
    ensures r.respawns == s.respawns + [Respawning(now, due, |s.granted|)]
  {
    r := Apply(s, PollCall(1, now, None));
    OneStep(s, PollCall(1, now, None));
  }

  /** A respawn that fails asks the budget again. */
  function Retry(now: int): seq<Step> {
    [PollCall(1, now, None), SpawnReturns(1, false)] + [Commit(1, "", now)]
  }

  lemma RetryLeads(s: System, due: int, now: int) returns (r: System)
    requires Waiting(s, due) && due <= now && Recorded(s.inner.budget, now).1.Some?
    ensures Leads(s, Retry(now), r) && Granted(s, r, now) && r.next == s.next
    ensures r.respawns == s.respawns + [Respawning(now, due, |s.granted|)]
  {
    var m := Apply(Apply(s, PollCall(1, now, None)), SpawnReturns(1, false));
    TwoSteps(s, PollCall(1, now, None), SpawnReturns(1, false));
    r := Apply(m, Commit(1, "", now));
    OneStep(m, Commit(1, "", now));
    LeadsThrough(s, [PollCall(1, now, None), SpawnReturns(1, false)], m, [Commit(1, "", now)], r);
  }

  /** A respawn that succeeds. */
  function Revival(now: int): seq<Step> {
    [PollCall(1, now, None), SpawnReturns(1, true), Commit(1, "", now), Emit(1)]
  }

  lemma RevivalLeads(s: System, due: int, now: int) returns (r: System)
    requires Waiting(s, due) && due <= now
    ensures Leads(s, Revival(now), r) && Alive(r, s.next, now) && SameBooks(s, r)
    ensures r.respawns == s.respawns + [Respawning(now, due, |s.granted|)]
  {
    r := Apply(Apply(Apply(Apply(s, PollCall(1, now, None)), SpawnReturns(1, true)), Commit(1, "", now)), Emit(1));
    FourSteps(s, PollCall(1, now, None), SpawnReturns(1, true), Commit(1, "", now), Emit(1));
  }

  // ---- A row of failing respawns -----------------------------------------------------------

  /** When the `n`-th of a row of failing respawns comes after the first, at rung `c` of the ladder. */
  function Later(c: nat, n: nat): nat {
    if n == 0 then 0 else Later(c, n - 1) + Backoff(c + n - 1)
  }

  function Retries(now: int, c: nat, n: nat): seq<Step> {
    if n == 0 then [] else Retries(now, c, n - 1) + Retry(now + Later(c, n - 1))
  }

  /** The budget stands at rung `c` of the ladder. */
  predicate AtRung(b: Ledger, c: nat) {
    if b.consecutive < 6 then c == b.consecutive else c >= 6
  }

  lemma GrantClimbs(b: Ledger, c: nat, now: int)
    requires b.Valid() && AtRung(b, c) && |Counted(b, now).attempts| < b.maxRestarts
    ensures var (r, delay) := Recorded(b, now);
            && delay == Some(Backoff(c)) && AtRung(r, c + 1) && r.Valid() && r.maxRestarts == b.maxRestarts
            && |r.attempts| == |Counted(b, now).attempts| + 1 && r.window == b.window
  {
  }

  /** All readings the budget has seen are in order, and none is after `now`. */
  ghost predicate SeenBy(calls: seq<Call>, now: int) {
    ClockWithin(calls, 0) && NotEarlierThan(now, calls, 0)
  }

  lemma SeenGrows(calls: seq<Call>, call: Call, now: int)
    requires SeenBy(calls, now) && (!call.Stable? ==> call.now == now)
    ensures SeenBy(calls + [call], now)
  {
  }

  lemma SeenLater(calls: seq<Call>, now: int, later: int)
    requires SeenBy(calls, now) && now <= later
    ensures SeenBy(calls, later)
  {
  }

  function RetryOf(s: System, due: int, now: int, c: nat, k: nat): Respawning {
    Respawning(now + Later(c, k), if k == 0 then due else now + Later(c, k), |s.granted| + k)
  }

  /** Of each retry there is the spawn, and the grant after it. */
  ghost predicate Listed(s: System, r: System, due: int, now: int, c: nat, n: nat) {
    && |r.granted| == |s.granted| + n && s.granted <= r.granted
    && (forall k :: 0 <= k < n ==> r.granted[|s.granted| + k] == now + Later(c, k))
    && |r.respawns| == |s.respawns| + n && s.respawns <= r.respawns
    && (forall k :: 0 <= k < n ==> r.respawns[|s.respawns| + k] == RetryOf(s, due, now, c, k))
  }

  /** The budget of `b` after `n` more grants: so many rungs up, and with room for as many fewer. */
  predicate Used(b: Ledger, r: Ledger, now: int, c: nat, n: nat) {
    && AtRung(r, c + n) && r.Valid() && r.maxRestarts == b.maxRestarts && r.window == b.window
    && |Counted(r, now + Later(c, n)).attempts| <= |Counted(b, now).attempts| + n
  }

  /** `r` comes after `n` failing respawns, the first of them at `now` for the deadline `due`. */
  ghost predicate Retried(s: System, r: System, due: int, now: int, c: nat, n: nat) {
    && Waiting(r, if n == 0 then due else now + Later(c, n)) && r.next == s.next
    && Used(s.inner.budget, r.inner.budget, now, c, n)
    && SeenBy(r.budgetCalls, now + Later(c, n))
    && Listed(s, r, due, now, c, n)
  }

  lemma UsedOnceMore(b: Ledger, m: Ledger, now: int, c: nat, n: nat)
    requires Used(b, m, now, c, n) && |Counted(b, now).attempts| + n < b.maxRestarts
    ensures Recorded(m, now + Later(c, n)).1 == Some(Backoff(c + n))
    ensures Used(b, Recorded(m, now + Later(c, n)).0, now, c, n + 1)
  {
    var r := Recorded(m, now + Later(c, n)).0;
    GrantClimbs(m, c + n, now + Later(c, n));
    PrunedIsSuffix(r.attempts, r.window, now + Later(c, n + 1));
  }

  lemma ListedOnceMore(s: System, m: System, r: System, due: int, now: int, c: nat, n: nat)
    requires Listed(s, m, due, now, c, n) && r.granted == m.granted + [now + Later(c, n)]
    requires r.respawns == m.respawns + [RetryOf(s, due, now, c, n)]
    ensures Listed(s, r, due, now, c, n + 1)
  {
  }

  /** One more grant, at the time of the next retry, to the budget of `m`. */
  lemma RetriesOn(s: System, m: System, r: System, due: int, now: int, c: nat, n: nat)
    requires Retried(s, m, due, now, c, n)
    requires |Counted(s.inner.budget, now).attempts| + n < s.inner.budget.maxRestarts
    requires Granted(m, r, now + Later(c, n)) && r.next == m.next
    requires r.respawns == m.respawns + [RetryOf(s, due, now, c, n)]
    ensures Retried(s, r, due, now, c, n + 1)
  {
    var at := now + Later(c, n);
    UsedOnceMore(s.inner.budget, m.inner.budget, now, c, n);
    ListedOnceMore(s, m, r, due, now, c, n);
    SeenGrows(m.budgetCalls, Record(at), at);
    SeenLater(r.budgetCalls, at, now + Later(c, n + 1));
  }

  lemma RetryOnceMore(s: System, m: System, due: int, now: int, c: nat, n: nat) returns (r: System)
    requires Retried(s, m, due, now, c, n) && due <= now && Leads(s, Retries(now, c, n), m)
    requires |Counted(s.inner.budget, now).attempts| + n < s.inner.budget.maxRestarts
    ensures Leads(s, Retries(now, c, n + 1), r) && Retried(s, r, due, now, c, n + 1)
  {
    var at := now + Later(c, n);
    UsedOnceMore(s.inner.budget, m.inner.budget, now, c, n);
    r := RetryLeads(m, if n == 0 then due else at, at);
    assert Retries(now, c, n + 1) == Retries(now, c, n) + Retry(at);
    LeadsThrough(s, Retries(now, c, n), m, Retry(at), r);
    RetriesOn(s, m, r, due, now, c, n);
  }

  lemma RetriedNone(s: System, due: int, now: int, c: nat)
    requires Waiting(s, due) && AtRung(s.inner.budget, c) && s.inner.budget.Valid() && SeenBy(s.budgetCalls, now)
    ensures Retried(s, s, due, now, c, 0)
  {
  }

  lemma NoRetries(s: System, now: int, c: nat)
    ensures Retries(now, c, 0) == [] && Leads(s, Retries(now, c, 0), s)
  {
  }

  lemma {:induction false} RetriesLead(s: System, due: int, now: int, c: nat, n: nat) returns (r: System)
    requires Retried(s, s, due, now, c, 0) && due <= now
    requires |Counted(s.inner.budget, now).attempts| + n <= s.inner.budget.maxRestarts
    ensures Leads(s, Retries(now, c, n), r) && Retried(s, r, due, now, c, n)
    decreases n
  {
    if n == 0 {
      NoRetries(s, now, c);
      r := s;
    } else {
      var m := RetriesLead(s, due, now, c, n - 1);
      r := RetryOnceMore(s, m, due, now, c, n - 1);
    }
  }

  // ---- The first grants --------------------------------------------------------------------

  /** The time of the `i`-th of grants that are a window apart. */
  function Apart(window: nat, i: nat): nat {
    if i == 0 then 0 else Apart(window, i - 1) + window
  }

  /** A child that dies at once, after which the caller stops: the ladder goes up one rung each time. */
  function Climb(window: nat, i: nat): seq<Step> {
    if i == 0 then []
    else Climb(window, i - 1) + (Life(Apart(window, i - 1)) + Death(i - 1, Apart(window, i - 1)) + [StopCall(1, None)])
  }

  /** The budget has granted an attempt at each of the first `i` times, the last of them in its deque. */
  ghost predicate Climbed(s: System, maxRestarts: nat, window: nat, i: nat) {
    && s.inner.budget == Ledger(maxRestarts, window, if i == 0 then [] else [Apart(window, i - 1)], i)
    && s.next == i && s.respawns == [] && |s.granted| == i
    && SeenBy(s.budgetCalls, Apart(window, if i == 0 then 0 else i - 1))
  }

  lemma NextGrant(maxRestarts: nat, window: nat, i: nat)
    requires 1 <= maxRestarts && i <= 6
    ensures var b := Ledger(maxRestarts, window, if i == 0 then [] else [Apart(window, i - 1)], i);
            Recorded(b, Apart(window, i)) == (Ledger(maxRestarts, window, [Apart(window, i)], i + 1), Some(Backoff(i)))
  {
    var now := Apart(window, i);
    assert Pruned([], window, now) == [] && [] + [now] == [now];
    if i > 0 {
      var before := [Apart(window, i - 1)];
      assert before[1..] == [] && DurationSince(now, before[0]) == window;
      assert Pruned(before, window, now) == [];
    }
  }

  lemma ClimbsOn(s: System, a: System, r: System, maxRestarts: nat, window: nat, i: nat)
    requires 1 <= maxRestarts && i <= 6 && Climbed(s, maxRestarts, window, i)
    requires SameBooks(s, a) && a.respawns == s.respawns && Granted(a, r, Apart(window, i))
    requires r.next == i + 1 && r.respawns == a.respawns
    ensures Waiting(r, Apart(window, i) + Backoff(i)) && Climbed(r, maxRestarts, window, i + 1)
    ensures Last(r.granted) == Apart(window, i)
  {
    NextGrant(maxRestarts, window, i);
    SeenLater(s.budgetCalls, Apart(window, if i == 0 then 0 else i - 1), Apart(window, i));
    SeenGrows(s.budgetCalls, Record(Apart(window, i)), Apart(window, i));
  }

  /** One more life and death at the next time. */
  lemma DiesAgain(s: System, maxRestarts: nat, window: nat, i: nat) returns (r: System)
    requires 1 <= maxRestarts && i <= 6 && Vacant(s) && Climbed(s, maxRestarts, window, i)
    ensures Leads(s, Life(Apart(window, i)) + Death(i, Apart(window, i)), r)
    ensures Waiting(r, Apart(window, i) + Backoff(i)) && Climbed(r, maxRestarts, window, i + 1)
    ensures Last(r.granted) == Apart(window, i)
  {
    var now := Apart(window, i);
    NextGrant(maxRestarts, window, i);
    var a := LifeLeads(s, now);
    r := DeathLeads(a, i, now);
    LeadsThrough(s, Life(now), a, Death(i, now), r);
    ClimbsOn(s, a, r, maxRestarts, window, i);
  }

  lemma {:induction false} ClimbLeads(maxRestarts: nat, window: nat, i: nat) returns (r: System)
    requires 1 <= maxRestarts && i <= 6
    ensures Leads(Begin(Fresh(maxRestarts, window)), Climb(window, i), r)
    ensures Vacant(r) && Climbed(r, maxRestarts, window, i)
    decreases i
  {
    var s := Begin(Fresh(maxRestarts, window));
    if i == 0 {
      r := s;
    } else {
      var now := Apart(window, i - 1);
      var m := ClimbLeads(maxRestarts, window, i - 1);
      var d := DiesAgain(m, maxRestarts, window, i - 1);
      r := StopLeads(d, now + Backoff(i - 1));
      LeadsThrough(m, Life(now) + Death(i - 1, now), d, [StopCall(1, None)], r);
      LeadsThrough(s, Climb(window, i - 1), m, Life(now) + Death(i - 1, now) + [StopCall(1, None)], r);
    }
  }

  /** A death that is not followed by a stop, at the bottom of the ladder or further up. */
  lemma FirstDue(maxRestarts: nat, window: nat, i: nat) returns (steps: seq<Step>, r: System)
    requires 1 <= maxRestarts && i <= 6
    ensures Leads(Begin(Fresh(maxRestarts, window)), steps, r)
    ensures Waiting(r, Apart(window, i) + Backoff(i)) && Climbed(r, maxRestarts, window, i + 1)
    ensures Last(r.granted) == Apart(window, i)
  {
    var s := Begin(Fresh(maxRestarts, window));
    var m := ClimbLeads(maxRestarts, window, i);
    r := DiesAgain(m, maxRestarts, window, i);
    steps := Climb(window, i) + (Life(Apart(window, i)) + Death(i, Apart(window, i)));
    LeadsThrough(s, Climb(window, i), m, Life(Apart(window, i)) + Death(i, Apart(window, i)), r);
  }

  // ---- One spawn more than the budget ------------------------------------------------------

  lemma {:induction false} LaterGrows(c: nat, j: nat, k: nat)
    requires j <= k
    ensures Later(c, j) <= Later(c, k)
    decreases k - j
  {
    if j < k {
      LaterGrows(c, j, k - 1);
    }
  }

  /** The spawns of `s` inside [lo, lo + length). */
  ghost function SpawnsIn(s: System, lo: int, length: int): set<int> {
    GrantsIn(Times(s.respawns), lo, length)
  }

  /** A run of the supervisor with this budget on a clock that never goes back. */
  ghost predicate Monotonic(maxRestarts: nat, window: nat, steps: seq<Step>, s: System) {
    && Leads(Begin(Fresh(maxRestarts, window)), steps, s)
    && ClockWithin(s.budgetCalls, 0) && SpawnClockWithin(s, 0)
  }

  lemma CrowdStarts(maxRestarts: nat, window: nat) returns (steps: seq<Step>, a: System)
    requires 1 <= maxRestarts <= U32_MAX && Later(1, maxRestarts) < window
    ensures Leads(Begin(Fresh(maxRestarts, window)), steps, a)
    ensures Retried(a, a, SHORTEST, window, 1, 0) && SHORTEST <= window && a.respawns == [] && |a.granted| == 1
    ensures Counted(a.inner.budget, window).attempts == [] && a.inner.budget.maxRestarts == maxRestarts
  {
    steps, a := FirstDue(maxRestarts, window, 0);
    LaterGrows(1, 1, maxRestarts);
    BackoffMonotone(0, 1);
    assert Later(1, 1) == Backoff(1);
    SeenLater(a.budgetCalls, 0, window);
    FirstHasExpired(maxRestarts, window);
    RetriedNone(a, SHORTEST, window, 1);
  }

  /** The first respawn waits until its grant has left the window; those that follow fail at once. */
  lemma CrowdedRun(maxRestarts: nat, window: nat) returns (steps: seq<Step>, r: System)
    requires 1 <= maxRestarts <= U32_MAX && Later(1, maxRestarts) < window
    ensures Monotonic(maxRestarts, window, steps, r)
    ensures |SpawnsIn(r, window, window)| == maxRestarts + 1
  {
    var s := Begin(Fresh(maxRestarts, window));
    var first, a := CrowdStarts(maxRestarts, window);
    var b := RetriesLead(a, SHORTEST, window, 1, maxRestarts);
    LeadsThrough(s, first, a, Retries(window, 1, maxRestarts), b);
    var last := window + Later(1, maxRestarts);
    r := RespawnLeads(b, last, last);
    LeadsThrough(s, first + Retries(window, 1, maxRestarts), b, [PollCall(1, last, None)], r);
    steps := first + Retries(window, 1, maxRestarts) + [PollCall(1, last, None)];
    CrowdCounts(a, b, r, maxRestarts, window);
  }

  lemma FirstHasExpired(maxRestarts: nat, window: nat)
    ensures Counted(Ledger(maxRestarts, window, [0], 1), window).attempts == []
  {
    assert [0][1..] == [] && DurationSince(window, [0][0]) == window && Pruned([], window, window) == [];
  }

  /** Every one of the spawns lies in the window, each before all the grants that come after it. */
  lemma CrowdCounts(a: System, b: System, r: System, maxRestarts: nat, window: nat)
    requires Retried(a, b, SHORTEST, window, 1, maxRestarts) && a.respawns == [] && |a.granted| == 1
    requires Later(1, maxRestarts) < window && SameBooks(b, r)
    requires var last := window + Later(1, maxRestarts);
             r.respawns == b.respawns + [Respawning(last, last, |b.granted|)]
    ensures SpawnClockWithin(r, 0) && |SpawnsIn(r, window, window)| == maxRestarts + 1
  {
    forall k | 0 <= k <= maxRestarts
      ensures r.respawns[k].now == window + Later(1, k) && r.respawns[k].paid == k + 1 && Later(1, k) < window
    {
      LaterGrows(1, k, maxRestarts);
      if k < maxRestarts {
        assert b.respawns[|a.respawns| + k] == RetryOf(a, SHORTEST, window, 1, k);
      }
    }
    forall k, i | 0 <= k < |r.respawns| && r.respawns[k].paid <= i < |r.granted|
      ensures r.granted[i] >= r.respawns[k].now
    {
      LaterGrows(1, k, i - 1);
      assert b.granted[|a.granted| + (i - 1)] == window + Later(1, i - 1);
    }
    assert SpawnsIn(r, window, window) == Range(0, maxRestarts + 1);
  }

  /**
   * The budget is documented as so many restarts within the window. It bounds the grants; of the
   * spawns a window can hold exactly one more, for every budget whose ladder fits into the window.
   */
  lemma SpawnsPerWindowExactly(maxRestarts: nat, window: nat, n: nat)
    requires 1 <= maxRestarts <= U32_MAX && Later(1, maxRestarts) < window
    ensures (forall steps, s, lo :: Monotonic(maxRestarts, window, steps, s) ==> |SpawnsIn(s, lo, window)| <= n)
            <==> n >= maxRestarts + 1
  {
    if n >= maxRestarts + 1 {
      forall steps, s, lo | Monotonic(maxRestarts, window, steps, s)
        ensures |SpawnsIn(s, lo, window)| <= n
      {
        LeadsAfter(Begin(Fresh(maxRestarts, window)), steps, s);
        RestartsAreBudgeted(maxRestarts, window, steps, 0, lo, window);
      }
    } else {
      var steps, r := CrowdedRun(maxRestarts, window);
      assert Monotonic(maxRestarts, window, steps, r) && |SpawnsIn(r, window, window)| > n;
    }
  }

  // ---- Polls that come in time -------------------------------------------------------------

  /** A run of the supervisor with this budget in which the polls come at most `late` after a deadline. */
  ghost predicate Timely(maxRestarts: nat, window: nat, skew: nat, late: nat, steps: seq<Step>, s: System) {
    && Leads(Begin(Fresh(maxRestarts, window)), steps, s)
    && ClockWithin(s.budgetCalls, skew) && Punctual(s, late)
  }

  /** The window has room for the slow end of the ladder and a stable run. */
  predicate Roomy(maxRestarts: nat, window: nat, skew: nat, late: nat) {
    maxRestarts * LONGEST + late + STABILITY_WINDOW <= window - skew
  }

  lemma {:induction false} LaterAtTheTop(n: nat)
    ensures Later(7, n) == n * LONGEST
  {
    if n > 0 {
      LaterAtTheTop(n - 1);
      BackoffMonotone(7 + n - 1, 7 + n - 1);
    }
  }

  /** At `now` the child has been up long enough, and the ladder starts again. */
  lemma StableLeads(s: System, pid: Instance, since: int, now: int) returns (r: System)
    requires Alive(s, pid, since) && now - since == STABILITY_WINDOW
    ensures Leads(s, [PollCall(1, now, None)], r) && r.inner.budget == Stabilised(s.inner.budget)
    ensures Up(r, pid)
    ensures r.budgetCalls == s.budgetCalls + [Stable] && r.granted == s.granted && r.respawns == s.respawns
  {
    r := Apply(s, PollCall(1, now, None));
    OneStep(s, PollCall(1, now, None));
  }

  lemma SnapshotLeads(s: System, pid: Instance, now: int) returns (r: System)
    requires Up(s, pid)
    ensures Leads(s, [TakeSnapshot(now)], r) && Up(r, pid) && r.inner.budget == Counted(s.inner.budget, now)
    ensures r.budgetCalls == s.budgetCalls + [Count(now)] && r.granted == s.granted && r.respawns == s.respawns
  {
    r := Apply(s, TakeSnapshot(now));
    OneStep(s, TakeSnapshot(now));
  }

  /** The child lives to be stable, and then a snapshot is taken. */
  function OldAge(since: int, snapshot: int): seq<Step> {
    [PollCall(1, since + STABILITY_WINDOW, None)] + [TakeSnapshot(snapshot)]
  }

  lemma OldAgeLeads(s: System, pid: Instance, since: int, snapshot: int) returns (r: System)
    requires Alive(s, pid, since) && s.inner.budget.Valid()
    ensures Leads(s, OldAge(since, snapshot), r) && Up(r, pid) && r.granted == s.granted && r.respawns == s.respawns
    ensures r.inner.budget == Stabilised(s.inner.budget).(attempts := Counted(s.inner.budget, snapshot).attempts)
    ensures r.budgetCalls == s.budgetCalls + [Stable] + [Count(snapshot)]
  {
    var a := StableLeads(s, pid, since, since + STABILITY_WINDOW);
    r := SnapshotLeads(a, pid, snapshot);
    LeadsThrough(s, [PollCall(1, since + STABILITY_WINDOW, None)], a, [TakeSnapshot(snapshot)], r);
  }

  /** A budget with room grants the shortest delay at the bottom of the ladder. */
  lemma BottomGrant(b: Ledger, now: int)
    requires b.Valid() && b.consecutive == 0 && |b.attempts| < b.maxRestarts
    ensures Recorded(b, now).1 == Some(SHORTEST)
  {
    PrunedIsSuffix(b.attempts, b.window, now);
    GrantClimbs(b, 0, now);
    BackoffMonotone(0, 0);
  }

  /** It dies, and the respawn comes at its deadline. */
  function Rebirth(pid: Instance, now: int): seq<Step> {
    Death(pid, now) + [PollCall(1, now + SHORTEST, None)]
  }

  lemma RebirthLeads(s: System, pid: Instance, now: int) returns (r: System)
    requires Up(s, pid) && s.inner.budget.Valid() && s.inner.budget.consecutive == 0
    requires |s.inner.budget.attempts| < s.inner.budget.maxRestarts
    ensures Leads(s, Rebirth(pid, now), r)
    ensures r.granted == s.granted + [now] && r.budgetCalls == s.budgetCalls + [Record(now)]
    ensures r.respawns == s.respawns + [Respawning(now + SHORTEST, now + SHORTEST, |s.granted| + 1)]
  {
    BottomGrant(s.inner.budget, now);
    var d := DeathLeads(s, pid, now);
    r := RespawnLeads(d, now + SHORTEST, now + SHORTEST);
    LeadsThrough(s, Death(pid, now), d, [PollCall(1, now + SHORTEST, None)], r);
  }

  lemma LastDaysLead(s: System, pid: Instance, since: int, snapshot: int, now: int) returns (r: System)
    requires Alive(s, pid, since) && s.inner.budget.Valid()
    requires |Counted(s.inner.budget, snapshot).attempts| < s.inner.budget.maxRestarts
    ensures Leads(s, OldAge(since, snapshot) + Rebirth(pid, now), r)
    ensures r.respawns == s.respawns + [Respawning(now + SHORTEST, now + SHORTEST, |s.granted| + 1)]
    ensures r.budgetCalls == s.budgetCalls + [Stable] + [Count(snapshot)] + [Record(now)]
  {
    var m := OldAgeLeads(s, pid, since, snapshot);
    r := RebirthLeads(m, pid, now);
    LeadsThrough(s, OldAge(since, snapshot), m, Rebirth(pid, now), r);
  }

  /** The oldest of a full deque leaves it at the end of its window. */
  lemma OldestLeaves(b: Ledger, granted: seq<int>, g: int)
    requires b.Valid() && b.maxRestarts > 0 && IsSuffix(b.attempts, granted)
    requires |granted| >= b.maxRestarts && granted[|granted| - b.maxRestarts] == g
    ensures |Counted(b, g + b.window).attempts| < b.maxRestarts
  {
    if |b.attempts| == b.maxRestarts {
      assert b.attempts[0] == g;
      PrunedIsSuffix(b.attempts[1..], b.window, g + b.window);
    } else {
      PrunedIsSuffix(b.attempts, b.window, g + b.window);
    }
  }

  lemma ReachedLedger(maxRestarts: nat, window: nat, steps: seq<Step>, s: System)
    requires maxRestarts <= U32_MAX && Leads(Begin(Fresh(maxRestarts, window)), steps, s)
    ensures Consistent(Run(Fresh(maxRestarts, window), s.budgetCalls), maxRestarts, window)
    ensures s.inner.budget.Valid() && s.inner.budget.maxRestarts == maxRestarts && s.inner.budget.window == window
    ensures IsSuffix(s.inner.budget.attempts, s.granted)
  {
    LeadsAfter(Begin(Fresh(maxRestarts, window)), steps, s);
    Reachable(Fresh(maxRestarts, window), steps);
    RunKeepsLedger(maxRestarts, window, s.budgetCalls);
  }

  /** The last clock readings of the run: only the very last is out of order, and by no more than `skew`. */
  lemma LastReadings(calls: seq<Call>, since: int, now: int, skew: nat)
    requires SeenBy(calls, since) && since <= now - skew
    ensures ClockWithin(calls + [Stable] + [Count(now)] + [Record(now - skew)], skew)
  {
  }

  /** Where the tight run starts: a grant made at the top of the ladder. */
  lemma AtTheTop(maxRestarts: nat, window: nat, lo: int) returns (steps: seq<Step>, a: System)
    requires 1 <= maxRestarts && Apart(window, 6) + LONGEST <= lo
    ensures Leads(Begin(Fresh(maxRestarts, window)), steps, a) && Waiting(a, Apart(window, 6) + LONGEST)
    ensures a.respawns == [] && |a.granted| == 7 && a.granted[6] == Apart(window, 6) && SeenBy(a.budgetCalls, lo)
    ensures AtRung(a.inner.budget, 7) && a.inner.budget.maxRestarts == maxRestarts
    ensures |Counted(a.inner.budget, lo).attempts| <= 1
  {
    steps, a := FirstDue(maxRestarts, window, 6);
    BackoffMonotone(6, 6);
    SeenLater(a.budgetCalls, Apart(window, 6), lo);
    PrunedIsSuffix([Apart(window, 6)], window, lo);
  }

  /** `c` is reached from `a` by failing respawns and one that succeeds. */
  ghost predicate Survives(a: System, b: System, c: System, due: int, lo: int, n: nat) {
    && Retried(a, b, due, lo, 7, n) && SameBooks(b, c) && Alive(c, b.next, lo + Later(7, n))
    && c.respawns == b.respawns + [RetryOf(a, due, lo, 7, n)]
  }

  lemma Revives(a: System, b: System, due: int, lo: int, n: nat) returns (c: System)
    requires Retried(a, b, due, lo, 7, n) && due <= lo
    ensures Leads(b, Revival(lo + Later(7, n)), c) && Survives(a, b, c, due, lo, n)
  {
    c := RevivalLeads(b, if n == 0 then due else lo + Later(7, n), lo + Later(7, n));
  }

  lemma Survivor(maxRestarts: nat, window: nat, lo: int) returns (steps: seq<Step>, a: System, b: System, c: System)
    requires 1 <= maxRestarts <= U32_MAX && Apart(window, 6) + LONGEST <= lo
    ensures Leads(Begin(Fresh(maxRestarts, window)), steps, c)
    ensures Survives(a, b, c, Apart(window, 6) + LONGEST, lo, maxRestarts - 1)
    ensures a.respawns == [] && |a.granted| == 7 && a.granted[6] == Apart(window, 6)
  {
    var s, due, n := Begin(Fresh(maxRestarts, window)), Apart(window, 6) + LONGEST, maxRestarts - 1;
    var first, start := AtTheTop(maxRestarts, window, lo);
    a := start;
    ReachedLedger(maxRestarts, window, first, a);
    RetriedNone(a, due, lo, 7);
    b := RetriesLead(a, due, lo, 7, n);
    c := Revives(a, b, due, lo, n);
    LeadsThrough(s, first, a, Retries(lo, 7, n), b);
    LeadsThrough(s, first + Retries(lo, 7, n), b, Revival(lo + Later(7, n)), c);
    steps := first + Retries(lo, 7, n) + Revival(lo + Later(7, n));
  }

  /** The deque of the survivor's budget has room once the first of its grants has left the window. */
  lemma RoomAfterWindow(a: System, b: System, c: System, due: int, lo: int, g: int, maxRestarts: nat, window: nat)
    requires 1 <= maxRestarts && Survives(a, b, c, due, lo, maxRestarts - 1) && |a.granted| == 7 && a.granted[6] == g
    requires c.inner.budget.Valid() && c.inner.budget.maxRestarts == maxRestarts && c.inner.budget.window == window
    requires IsSuffix(c.inner.budget.attempts, c.granted)
    ensures |Counted(c.inner.budget, g + window).attempts| < maxRestarts
  {
    assert c.granted[6] == g;
    OldestLeaves(c.inner.budget, c.granted, g);
  }

  /**
   * The run that packs the spawns as tightly as they can be: the first uses a grant made at the top
   * of the ladder and comes `late` after its deadline, the last one made at the bottom and none.
   */
  lemma TightRun(maxRestarts: nat, window: nat, skew: nat, late: nat) returns (steps: seq<Step>, r: System, lo: int)
    requires 1 <= maxRestarts <= U32_MAX && Roomy(maxRestarts, window, skew, late)
    ensures Timely(maxRestarts, window, skew, late, steps, r)
    ensures forall length :: length > window - skew - late - (LONGEST - SHORTEST) ==>
              |SpawnsIn(r, lo, length)| == maxRestarts + 1
  {
    var g := Apart(window, 6);
    lo := g + LONGEST + late;
    var first, a, b, c := Survivor(maxRestarts, window, lo);
    ReachedLedger(maxRestarts, window, first, c);
    var more, t := TightEnd(a, b, c, lo, g, maxRestarts, window, skew, late);
    r := t;
    steps := first + more;
    LeadsThrough(Begin(Fresh(maxRestarts, window)), first, c, more, r);
  }

  lemma TightEnd(a: System, b: System, c: System, lo: int, g: nat, maxRestarts: nat, window: nat, skew: nat, late: nat)
    returns (more: seq<Step>, r: System)
    requires 1 <= maxRestarts && Roomy(maxRestarts, window, skew, late) && lo == g + LONGEST + late
    requires Survives(a, b, c, g + LONGEST, lo, maxRestarts - 1)
    requires a.respawns == [] && |a.granted| == 7 && a.granted[6] == g
    requires c.inner.budget.Valid() && c.inner.budget.maxRestarts == maxRestarts && c.inner.budget.window == window
    requires IsSuffix(c.inner.budget.attempts, c.granted)
    ensures Leads(c, more, r) && ClockWithin(r.budgetCalls, skew) && Punctual(r, late)
    ensures forall length :: length > window - skew - late - (LONGEST - SHORTEST) ==>
              |SpawnsIn(r, lo, length)| == maxRestarts + 1
  {
    RoomAfterWindow(a, b, c, g + LONGEST, lo, g, maxRestarts, window);
    var since := lo + Later(7, maxRestarts - 1);
    r := LastDaysLead(c, b.next, since, g + window, g + window - skew);
    more := OldAge(since, g + window) + Rebirth(b.next, g + window - skew);
    TightClock(a, b, c, g, lo, maxRestarts, window, skew, late);
    TightCounts(a, b, c, r, lo, g, maxRestarts, window, skew, late);
  }

  lemma TightClock(a: System, b: System, c: System, g: nat, lo: int,
                   maxRestarts: nat, window: nat, skew: nat, late: nat)
    requires 1 <= maxRestarts && Roomy(maxRestarts, window, skew, late) && lo == g + LONGEST + late
    requires Survives(a, b, c, g + LONGEST, lo, maxRestarts - 1)
    ensures ClockWithin(c.budgetCalls + [Stable] + [Count(g + window)] + [Record(g + window - skew)], skew)
  {
    LaterAtTheTop(maxRestarts - 1);
    LastReadings(c.budgetCalls, lo + Later(7, maxRestarts - 1), g + window, skew);
  }

  /** The spawns of the tight run, none of them later than `late`. */
  lemma TightCounts(a: System, b: System, c: System, r: System, lo: int, g: nat,
                    maxRestarts: nat, window: nat, skew: nat, late: nat)
    requires 1 <= maxRestarts && Roomy(maxRestarts, window, skew, late) && lo == g + LONGEST + late
    requires a.respawns == [] && Survives(a, b, c, g + LONGEST, lo, maxRestarts - 1)
    requires var last := g + window - skew + SHORTEST;
             r.respawns == c.respawns + [Respawning(last, last, |c.granted| + 1)]
    ensures Punctual(r, late)
    ensures forall length :: length > window - skew - late - (LONGEST - SHORTEST) ==>
              |SpawnsIn(r, lo, length)| == maxRestarts + 1
  {
    var n := maxRestarts - 1;
    LaterAtTheTop(n);
    forall k | 0 <= k <= maxRestarts
      ensures r.respawns[k].now <= r.respawns[k].due + late && lo <= r.respawns[k].now <= g + window - skew + SHORTEST
    {
      if k < n {
        assert b.respawns[|a.respawns| + k] == RetryOf(a, g + LONGEST, lo, 7, k);
      }
      if k <= n {
        LaterGrows(7, k, n);
      }
    }
    forall length | length > window - skew - late - (LONGEST - SHORTEST)
      ensures |SpawnsIn(r, lo, length)| == maxRestarts + 1
    {
      assert SpawnsIn(r, lo, length) == Range(0, maxRestarts + 1);
    }
  }

  /**
   * The spawns themselves stay within the budget over a given length, in every run with that clock
   * and those polls, if and only if the length is shorter than the window by the skew, by what the
   * polls are late and by what the delay of a spawn can differ from that of another.
   */
  lemma SpawnsKeepBudgetExactly(maxRestarts: nat, window: nat, skew: nat, late: nat, length: int)
    requires 1 <= maxRestarts <= U32_MAX && Roomy(maxRestarts, window, skew, late)
    ensures (forall steps, s, lo :: Timely(maxRestarts, window, skew, late, steps, s) ==>
               |SpawnsIn(s, lo, length)| <= maxRestarts)
            <==> length <= window - skew - late - (LONGEST - SHORTEST)
  {
    if length <= window - skew - late - (LONGEST - SHORTEST) {
      forall steps, s, lo | Timely(maxRestarts, window, skew, late, steps, s)
        ensures |SpawnsIn(s, lo, length)| <= maxRestarts
      {
        LeadsAfter(Begin(Fresh(maxRestarts, window)), steps, s);
        Reachable(Fresh(maxRestarts, window), steps);
        PunctualIsPrompt(s, late);
        PromptSpawnsKeepBudget(maxRestarts, window, steps, skew, late + LONGEST, lo, length);
      }
    } else {
      var steps, r, lo := TightRun(maxRestarts, window, skew, late);
      assert Timely(maxRestarts, window, skew, late, steps, r) && |SpawnsIn(r, lo, length)| > maxRestarts;
    }
  }
}
