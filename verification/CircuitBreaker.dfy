// The per-bank circuit breaker: the pure policy, the counting bounds it gives over whole failure histories, and the
// repository that applies it.
module CircuitBreaker {
  import opened Wrappers

  datatype BreakerState = Closed | Open

  datatype Breaker = Breaker(state: BreakerState, count: int, windowStart: Option<int>, openedAt: Option<int>)

  /** How many failures open the breaker, and in which window (milliseconds) they must land. */
  datatype Policy = Policy(threshold: nat, windowMs: int)

  const AUTO_LOGIN_POLICY := Policy(3, 30 * 60 * 1000)

  const MINUTE := 60 * 1000

  predicate WindowFresh(p: Policy, start: Option<int>, now: int) { start.Some? && now - start.value < p.windowMs }

  function NextStateOnFailure(p: Policy, b: Breaker, now: int): Breaker {
    if b.state == Open then b
    else
      var fresh' := WindowFresh(p, b.windowStart, now);
      var count := if fresh' then b.count + 1 else 1;
      var start := if fresh' then b.windowStart else Some(now);
      if count >= p.threshold then Breaker(Open, count, start, Some(now)) else Breaker(Closed, count, start, None)
  }

  /** A row that has just been created, or reset. */
  const RESET := Breaker(Closed, 0, None, None)

  // ---- failure histories since a reset ----------------------------------------------------------------------

  function AfterFailures(p: Policy, times: seq<int>): Breaker {
    if times == [] then RESET
    else NextStateOnFailure(p, AfterFailures(p, times[..|times| - 1]), times[|times| - 1])
  }

  predicate Nondecreasing(times: seq<int>) { forall i, j :: 0 <= i <= j < |times| ==> times[i] <= times[j] }

  /** The failures at positions `i` to `i + n - 1` happened in less than one window. */
  predicate Burst(p: Policy, times: seq<int>, i: nat, n: nat) {
    1 <= n && i + n <= |times| && times[i + n - 1] - times[i] < p.windowMs
  }

  /** Opened by the failures from `i` on, when as many of them had been counted as it takes. */
  function OpenedBy(p: Policy, times: seq<int>, i: nat): Breaker
    requires Burst(p, times, i, p.threshold)
  {
    Breaker(Open, p.threshold, Some(times[i]), Some(times[i + p.threshold - 1]))
  }

  /** While closed, the counted failures are the latest ones, the window starts at the first, and all are inside it. */
  predicate Counts(p: Policy, times: seq<int>, b: Breaker) {
    && 0 <= b.count <= |times| && b.count < p.threshold && b.openedAt.None?
    && (b.windowStart.Some? <==> b.count > 0)
    && (b.count > 0 ==>
          b.windowStart == Some(times[|times| - b.count]) && Burst(p, times, |times| - b.count, b.count))
  }

  lemma {:induction false} ClosedCounts(p: Policy, times: seq<int>)
    requires p.threshold >= 1 && p.windowMs > 0 && AfterFailures(p, times).state == Closed
    ensures Counts(p, times, AfterFailures(p, times))
  {
    if times != [] {
      ClosedCounts(p, times[..|times| - 1]);
    }
  }

  /** An open breaker saw a threshold of failures in less than one window, and is as it was at the last of them. */
  lemma {:induction false} OpenHadABurst(p: Policy, times: seq<int>)
    requires p.threshold >= 1 && p.windowMs > 0 && AfterFailures(p, times).state == Open
    ensures exists i: nat :: Burst(p, times, i, p.threshold) && AfterFailures(p, times) == OpenedBy(p, times, i)
  {
    var before := times[..|times| - 1];
    if AfterFailures(p, before).state == Open {
      OpenHadABurst(p, before);
      var i: nat :| Burst(p, before, i, p.threshold)
          && AfterFailures(p, before) == OpenedBy(p, before, i);
      assert Burst(p, times, i, p.threshold);
    } else {
      ClosedCounts(p, before);
      assert Burst(p, times, |times| - p.threshold, p.threshold);
    }
  }

  lemma {:induction false} OpenStays(p: Policy, times: seq<int>, k: nat)
    requires k <= |times| && AfterFailures(p, times[..k]).state == Open
    ensures AfterFailures(p, times) == AfterFailures(p, times[..k])
    decreases |times|
  {
    if k == |times| {
      assert times[..k] == times;
    } else {
      assert times[..|times| - 1][..k] == times[..k];
      OpenStays(p, times[..|times| - 1], k);
    }
  }

  /**
   * After `m` failures of a burst that begins at `i`: open already, or counting in the window from before the burst, or
   * counting in one that began within it and missed at most `threshold - 2` of its failures.
   */
  predicate Absorbing(p: Policy, times: seq<int>, i: nat, m: nat, b: Breaker)
    requires i < |times|
  {
    || b.state == Open
    || m == 0
    || b.count >= m + 1
    || (b.windowStart.Some? && b.windowStart.value >= times[i] && b.count >= m - (p.threshold - 2))
  }

  lemma {:induction false} BurstIsAbsorbed(p: Policy, times: seq<int>, i: nat, n: nat, m: nat)
    requires p.threshold >= 2 && p.windowMs > 0 && Nondecreasing(times) && Burst(p, times, i, n) && m <= n
    ensures Absorbing(p, times, i, m, AfterFailures(p, times[..i + m]))
    decreases m
  {
    if m > 0 {
      BurstIsAbsorbed(p, times, i, n, m - 1);
      var before := times[..i + m - 1];
      assert times[..i + m][..i + m - 1] == before;
      if AfterFailures(p, before).state == Closed { ClosedCounts(p, before); }
    }
  }

  /** Any `2 * threshold - 2` failures in less than one window force the breaker open. */
  lemma BurstForcesOpen(p: Policy, times: seq<int>, i: nat)
    requires p.threshold >= 2 && p.windowMs > 0 && Nondecreasing(times)
    requires Burst(p, times, i, 2 * p.threshold - 2)
    ensures AfterFailures(p, times).state == Open
  {
    var n := 2 * p.threshold - 2;
    BurstIsAbsorbed(p, times, i, n, n);
    if AfterFailures(p, times[..i + n]).state == Closed {
      ClosedCounts(p, times[..i + n]);
      assert false;
    }
    OpenStays(p, times, i + n);
  }

  // ---- when a threshold of failures in one window opens it --------------------------------------------------

  /** Failures that stay in a fresh window without reaching the threshold are simply counted. */
  lemma {:induction false} FreshAreCounted(p: Policy, times: seq<int>, i: nat, k: nat)
    requires i + k <= |times|
    requires var b := AfterFailures(p, times[..i]);
             && b.state == Closed && b.openedAt.None? && b.count + k < p.threshold
             && forall m :: i <= m < i + k ==> WindowFresh(p, b.windowStart, times[m])
    ensures var b := AfterFailures(p, times[..i]); AfterFailures(p, times[..i + k]) == b.(count := b.count + k)
    decreases k
  {
    if k > 0 {
      FreshAreCounted(p, times, i, k - 1);
      assert times[..i + k][..i + k - 1] == times[..i + k - 1];
    }
  }

  /** The stored window runs out inside the burst at `i`, after `k` of its failures and before the count is reached. */
  predicate LapsesInside(p: Policy, b: Breaker, times: seq<int>, i: nat, k: nat)
    requires i + p.threshold <= |times|
  {
    && 1 <= k < p.threshold && b.count + k < p.threshold
    && WindowFresh(p, b.windowStart, times[i + k - 1]) && !WindowFresh(p, b.windowStart, times[i + k])
  }

  /** A closed breaker whose window has run out begins to count anew. */
  lemma LapseCountsAnew(p: Policy, times: seq<int>, j: nat)
    requires p.threshold >= 2 && p.windowMs > 0 && j < |times|
    requires AfterFailures(p, times[..j]).state == Closed
    requires !WindowFresh(p, AfterFailures(p, times[..j]).windowStart, times[j])
    ensures AfterFailures(p, times[..j + 1]) == Breaker(Closed, 1, Some(times[j]), None)
  {
    assert times[..j + 1][..j] == times[..j];
  }

  /** Where the stored window runs out inside the burst, a new one begins with the count at one. */
  lemma LapseBeginsAnew(p: Policy, times: seq<int>, i: nat, k: nat)
    requires p.threshold >= 2 && p.windowMs > 0 && Nondecreasing(times) && i + p.threshold <= |times|
    requires AfterFailures(p, times[..i]).state == Closed && LapsesInside(p, AfterFailures(p, times[..i]), times, i, k)
    ensures AfterFailures(p, times[..i + k + 1]) == Breaker(Closed, 1, Some(times[i + k]), None)
  {
    ClosedCounts(p, times[..i]);
    FreshAreCounted(p, times, i, k);
    LapseCountsAnew(p, times, i + k);
  }

  lemma LapseLeavesClosed(p: Policy, times: seq<int>, i: nat, k: nat)
    requires p.threshold >= 2 && p.windowMs > 0 && Nondecreasing(times)
    requires |times| == i + p.threshold && Burst(p, times, i, p.threshold)
    requires AfterFailures(p, times[..i]).state == Closed && LapsesInside(p, AfterFailures(p, times[..i]), times, i, k)
    ensures AfterFailures(p, times[..|times|]).state == Closed
  {
    LapseBeginsAnew(p, times, i, k);
    FreshAreCounted(p, times, i + k + 1, p.threshold - k - 1);
  }

  /** A burst of which `k` failures are counted in a window that reaches the threshold with the next one opens. */
  lemma CountReached(p: Policy, times: seq<int>, i: nat, k: nat)
    requires p.threshold >= 1 && p.windowMs > 0 && Nondecreasing(times) && i + k < |times|
    requires var b := AfterFailures(p, times[..i]);
             b.state == Closed && b.count + k == p.threshold - 1 && WindowFresh(p, b.windowStart, times[i + k])
    ensures AfterFailures(p, times[..i + k + 1]).state == Open
  {
    ClosedCounts(p, times[..i]);
    FreshAreCounted(p, times, i, k);
    assert times[..i + k + 1][..i + k] == times[..i + k];
  }

  lemma CountReachedOpens(p: Policy, times: seq<int>, i: nat, k: nat)
    requires p.threshold >= 1 && p.windowMs > 0 && Nondecreasing(times) && i + k < |times|
    requires var b := AfterFailures(p, times[..i]);
             b.state == Closed && b.count + k == p.threshold - 1 && WindowFresh(p, b.windowStart, times[i + k])
    ensures AfterFailures(p, times).state == Open
  {
    CountReached(p, times, i, k);
    OpenStays(p, times, i + k + 1);
  }

  lemma NoLapseOpens(p: Policy, times: seq<int>, i: nat)
    requires p.threshold >= 2 && p.windowMs > 0 && Nondecreasing(times)
    requires |times| == i + p.threshold && Burst(p, times, i, p.threshold)
    requires AfterFailures(p, times[..i]).state == Closed
    requires forall k :: 1 <= k < p.threshold ==> !LapsesInside(p, AfterFailures(p, times[..i]), times, i, k)
    ensures AfterFailures(p, times).state == Open
  {
    var b := AfterFailures(p, times[..i]);
    ClosedCounts(p, times[..i]);
    if WindowFresh(p, b.windowStart, times[i]) {
      var k := 1;
      while k < p.threshold && b.count + k < p.threshold
        invariant 1 <= k <= p.threshold && b.count + k <= p.threshold
        invariant WindowFresh(p, b.windowStart, times[i + k - 1])
      {
        assert !LapsesInside(p, b, times, i, k);
        k := k + 1;
      }
      CountReachedOpens(p, times, i, k - 1);
    } else {
      LapseCountsAnew(p, times, i);
      CountReachedOpens(p, times, i + 1, p.threshold - 2);
    }
  }

  /**
   * Exactly when a threshold of failures in less than one window opens the breaker: always, unless the window it was
   * counting in runs out after some of them and before the count is reached. Only the stored row and the failure times
   * matter.
   */
  lemma BurstOpensExactly(p: Policy, times: seq<int>, i: nat)
    requires p.threshold >= 2 && p.windowMs > 0 && Nondecreasing(times)
    requires |times| == i + p.threshold && Burst(p, times, i, p.threshold)
    ensures var b := AfterFailures(p, times[..i]);
            AfterFailures(p, times).state == Closed <==>
              b.state == Closed && exists k :: 1 <= k < p.threshold && LapsesInside(p, b, times, i, k)
  {
    var b := AfterFailures(p, times[..i]);
    if b.state == Open {
      OpenStays(p, times, i);
    } else if exists k :: 1 <= k < p.threshold && LapsesInside(p, b, times, i, k) {
      var k :| 1 <= k < p.threshold && LapsesInside(p, b, times, i, k);
      LapseLeavesClosed(p, times, i, k);
      assert times[..|times|] == times;
    } else {
      NoLapseOpens(p, times, i);
    }
  }

  /**
   * The shipped policy: three failures in under 30 minutes leave it closed exactly when one failure was already counted
   * in a window that covers the first of them and not the second.
   */
  lemma ThreeOpenExactly(times: seq<int>, i: nat)
    requires Nondecreasing(times) && |times| == i + 3 && times[i + 2] - times[i] < 30 * MINUTE
    ensures var b := AfterFailures(AUTO_LOGIN_POLICY, times[..i]);
            AfterFailures(AUTO_LOGIN_POLICY, times).state == Closed <==>
              && b.state == Closed && b.count == 1 && b.windowStart.Some?
              && times[i] - b.windowStart.value < 30 * MINUTE <= times[i + 1] - b.windowStart.value
  {
    var p, b := AUTO_LOGIN_POLICY, AfterFailures(AUTO_LOGIN_POLICY, times[..i]);
    assert Burst(p, times, i, 3);
    BurstOpensExactly(p, times, i);
    if b.state == Closed { ClosedCounts(p, times[..i]); }
    assert LapsesInside(p, b, times, i, 1) || LapsesInside(p, b, times, i, 2) <==>
      exists k :: 1 <= k < p.threshold && LapsesInside(p, b, times, i, k);
  }

  // ---- the bound cannot be lowered --------------------------------------------------------------------------

  function Repeat(t: int, n: nat): seq<int> { seq(n, _ => t) }

  lemma RepeatCounts(p: Policy, times: seq<int>, t: int, n: nat)
    requires var b := AfterFailures(p, times);
             b.state == Closed && b.openedAt.None? && WindowFresh(p, b.windowStart, t) && b.count + n < p.threshold
    ensures var b := AfterFailures(p, times); AfterFailures(p, times + Repeat(t, n)) == b.(count := b.count + n)
  {
    var all := times + Repeat(t, n);
    assert all[..|times|] == times && all[..|times| + n] == all;
    FreshAreCounted(p, all, |times|, n);
  }

  /** One failure, almost a window later `threshold - 2`, and just outside it `threshold - 1`. */
  function StraddlingFailures(p: Policy): seq<int>
    requires p.threshold >= 2
  {
    [0] + Repeat(p.windowMs - 1, p.threshold - 2) + Repeat(p.windowMs, p.threshold - 1)
  }

  /** One fewer is not always enough: `2 * threshold - 3` failures within a millisecond leave this breaker closed. */
  lemma BoundIsTight(p: Policy)
    requires p.threshold >= 2 && p.windowMs > 1
    ensures Nondecreasing(StraddlingFailures(p))
    ensures p.threshold >= 3 ==> Burst(p, StraddlingFailures(p), 1, 2 * p.threshold - 3)
    ensures AfterFailures(p, StraddlingFailures(p)).state == Closed
  {
    var one := [0];
    assert one[..0] == [];
    assert AfterFailures(p, one) == Breaker(Closed, 1, Some(0), None);
    RepeatCounts(p, one, p.windowMs - 1, p.threshold - 2);
    var late := one + Repeat(p.windowMs - 1, p.threshold - 2);
    var next := late + [p.windowMs];
    assert next[..|late|] == late;
    assert AfterFailures(p, next) == Breaker(Closed, 1, Some(p.windowMs), None);
    RepeatCounts(p, next, p.windowMs, p.threshold - 2);
    assert StraddlingFailures(p) == next + Repeat(p.windowMs, p.threshold - 2);
  }

  /** The shipped policy: open means three failures in under 30 minutes, and any four force it open. */
  lemma ShippedPolicyBounds(times: seq<int>, i: nat)
    requires Nondecreasing(times)
    ensures AfterFailures(AUTO_LOGIN_POLICY, times).state == Open ==>
              exists k: nat :: k + 3 <= |times| && times[k + 2] - times[k] < 30 * MINUTE
    ensures i + 4 <= |times| && times[i + 3] - times[i] < 30 * MINUTE ==>
              AfterFailures(AUTO_LOGIN_POLICY, times).state == Open
  {
    if AfterFailures(AUTO_LOGIN_POLICY, times).state == Open {
      OpenHadABurst(AUTO_LOGIN_POLICY, times);
      var k: nat :| Burst(AUTO_LOGIN_POLICY, times, k, 3);
      assert k + 3 <= |times| && times[k + 2] - times[k] < 30 * MINUTE;
    }
    if i + 4 <= |times| && times[i + 3] - times[i] < 30 * MINUTE {
      assert Burst(AUTO_LOGIN_POLICY, times, i, 4);
      BurstForcesOpen(AUTO_LOGIN_POLICY, times, i);
    }
  }

  /** Three are not always enough: failures at minutes 0, 29, 30 and 31 leave it closed. */
  lemma ThreeMayNotOpen()
    ensures AfterFailures(AUTO_LOGIN_POLICY, [0, 29 * MINUTE, 30 * MINUTE, 31 * MINUTE])
            == Breaker(Closed, 2, Some(30 * MINUTE), None)
  {
    var one, two, three := [0], [0, 29 * MINUTE], [0, 29 * MINUTE, 30 * MINUTE];
    var all := [0, 29 * MINUTE, 30 * MINUTE, 31 * MINUTE];
    assert one[..0] == [] && two[..1] == one && three[..2] == two && all[..3] == three;
    assert AfterFailures(AUTO_LOGIN_POLICY, one) == Breaker(Closed, 1, Some(0), None);
    assert AfterFailures(AUTO_LOGIN_POLICY, two) == Breaker(Closed, 2, Some(0), None);
    assert AfterFailures(AUTO_LOGIN_POLICY, three) == Breaker(Closed, 1, Some(30 * MINUTE), None);
  }

  // ---- every history of operations --------------------------------------------------------------------------

  datatype Op = Fail(at: int) | OpenByHand(at: int) | Reset

  function Apply(p: Policy, b: Breaker, op: Op): Breaker {
    match op
    case Fail(at) => NextStateOnFailure(p, b, at)
    case OpenByHand(at) => if b.state == Open then b else b.(state := Open, openedAt := Some(at))
    case Reset => RESET
  }

  function AfterOps(p: Policy, ops: seq<Op>): Breaker {
    if ops == [] then RESET else Apply(p, AfterOps(p, ops[..|ops| - 1]), ops[|ops| - 1])
  }

  /** The failures since the last reset, up to the first opening by hand since, and the time of that opening. */
  datatype SinceReset = SinceReset(failures: seq<int>, openedByHand: Option<int>)

  function LastEpoch(ops: seq<Op>): SinceReset {
    if ops == [] then SinceReset([], None)
    else
      var before := LastEpoch(ops[..|ops| - 1]);
      match ops[|ops| - 1]
      case Reset => SinceReset([], None)
      case OpenByHand(at) => if before.openedByHand.Some? then before else before.(openedByHand := Some(at))
      case Fail(at) => if before.openedByHand.Some? then before else before.(failures := before.failures + [at])
  }

  /**
   * Only what happened since the last reset matters: the failures, until a hand opens the breaker. A hand changes
   * nothing on a breaker that is open, and keeps the count and the window of one that is not. Only a reset closes it.
   */
  lemma {:induction false} OnlyResetCloses(p: Policy, ops: seq<Op>)
    ensures var since := LastEpoch(ops);
            var b := AfterFailures(p, since.failures);
            AfterOps(p, ops) == if since.openedByHand.None? || b.state == Open then b
                                else Breaker(Open, b.count, b.windowStart, since.openedByHand)
  {
    if ops != [] {
      var before := ops[..|ops| - 1];
      OnlyResetCloses(p, before);
      match ops[|ops| - 1]
      case Fail(at) =>
        var times := LastEpoch(before).failures;
        assert (times + [at])[..|times|] == times;
      case _ =>
    }
  }

  // ---- the repository ---------------------------------------------------------------------------------------

  datatype Config = Config(enabled: bool, breaker: Breaker, lastResetAt: Option<int>, updatedBy: Option<string>)

  datatype ConfigResult = Row(config: Config) | NoRow | ConfigThrew | SerializationExhausted

  const SERIALIZABLE_RETRY_ATTEMPTS := 3

  class BreakerRepository {
    var row: Option<Config>

    /** Anybody may insert the row, fail, open, reset or switch at any time; a quiet call meets nobody. */
    method Interfere(quiet: bool)
      modifies this
      ensures old(row).Some? ==> row.Some?
      ensures quiet ==> row == old(row)
    {
      var c: Config := *;
      var changes := Fails(quiet);
      if changes { row := Some(c); }
    }

    /**
     * A serializable transaction tried three times, the first `conflicts` of which meet a serialization conflict.
     * `base` is the row the last try began with. A conflict leads to the next try and the third to
     * `SerializationExhausted`; any other error is thrown at once, and may hide a commit.
     */
    method RecordFailure(now: int, conflicts: nat, quiet: bool)
        returns (r: ConfigResult, base: Option<Config>, tries: nat)
      modifies this
      ensures tries == if conflicts < 3 then conflicts + 1 else 3
      ensures r.SerializationExhausted? <==> conflicts >= 3
      ensures r.SerializationExhausted? ==> row == base
      ensures quiet ==> base == old(row) && !r.ConfigThrew? && (conflicts < 3 ==> (r.NoRow? <==> old(row).None?))
      ensures r.NoRow? ==> base.None? && row.None?
      ensures r.Row? ==>
                && base.Some? && row == Some(r.config)
                && r.config == base.value.(breaker := NextStateOnFailure(AUTO_LOGIN_POLICY, base.value.breaker, now))
      ensures r.ConfigThrew? ==>
                || row == base
                || (base.Some? && row == Some(base.value.(
                      breaker := NextStateOnFailure(AUTO_LOGIN_POLICY, base.value.breaker, now))))
    {
      tries, base := 0, row;
      while tries < SERIALIZABLE_RETRY_ATTEMPTS
        invariant tries <= SERIALIZABLE_RETRY_ATTEMPTS && tries <= conflicts && row == base
        invariant quiet ==> row == old(row)
      {
        tries := tries + 1;
        Interfere(quiet);
        base := row;
        if tries > conflicts {
          var throwsBefore := Fails(quiet);
          if throwsBefore { return ConfigThrew, base, tries; }
          if row.None? { return NoRow, None, tries; }
          var current := row.value;
          if current.breaker.state == Open { return Row(current), base, tries; }
          var next := NextStateOnFailure(AUTO_LOGIN_POLICY, current.breaker, now);
          row := Some(current.(breaker := next));
          var replyLost := Fails(quiet);
          return if replyLost then ConfigThrew else Row(row.value), base, tries;
        }
      }
      return SerializationExhausted, base, tries;
    }

    /** A read and an update with others in between: it may date an opening later, but it always leaves it open. */
    method OpenBreaker(now: int, quiet: bool) returns (r: ConfigResult)
      modifies this
      ensures old(row).None? <==> r.NoRow?
      ensures r.NoRow? ==> row == old(row)
      ensures r.Row? ==> r.config.breaker.state == Open
      ensures r.Row? && old(row).value.breaker.state == Open ==> row == old(row) == Some(r.config)
      ensures r.Row? && old(row).value.breaker.state == Closed ==>
                && row == Some(r.config)
                && r.config.breaker.openedAt == Some(now)
      ensures r.Row? || r.NoRow?
      ensures quiet && r.Row? ==>
                var c := old(row).value;
                row == Some(c.(breaker := Apply(AUTO_LOGIN_POLICY, c.breaker, OpenByHand(now))))
    {
      if row.None? { return NoRow; }
      if row.value.breaker.state == Open { return Row(row.value); }
      Interfere(quiet);
      row := Some(row.value.(breaker := row.value.breaker.(state := Open, openedAt := Some(now))));
      return Row(row.value);
    }

    /** The one way back to closed, and never anonymous. */
    method ResetBreaker(updatedBy: string, now: int, quiet: bool) returns (r: ConfigResult)
      modifies this
      ensures r.ConfigThrew? <==> updatedBy == ""
      ensures r.ConfigThrew? || r.NoRow? ==> row == old(row)
      ensures r.NoRow? <==> updatedBy != "" && old(row).None?
      ensures r.Row? ==>
                && row == Some(r.config) && r.config.breaker == RESET
                && r.config.lastResetAt == Some(now) && r.config.updatedBy == Some(updatedBy)
      ensures quiet && r.Row? ==> r.config.enabled == old(row).value.enabled
    {
      if updatedBy == "" { return ConfigThrew; }
      if row.None? { return NoRow; }
      Interfere(quiet);
      row := Some(row.value.(breaker := RESET, lastResetAt := Some(now), updatedBy := Some(updatedBy)));
      return Row(row.value);
    }
  }
}
