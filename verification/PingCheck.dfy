/** The periodic check of the tunnel: pings with retries, an adaptive timeout, and one recovery
    for every streak of failures. Durations are in nanoseconds. */
module PingCheck {
  import opened Common

  const MAX_INTERVAL := 6_000_000_000
  const MAX_TIMEOUT := 15_000_000_000
  const FAILURE_THRESHOLD := 4
  const WINDOW := 10

  /** What each attempt of a check would bring: the latency, or nothing. */
  type Attempts = seq<Option<nat>>

  function AttemptsAllowed(failures: nat): nat {
    if failures > 4 then 4 else 2
  }

  /** No attempt among the first n was answered. */
  predicate Unanswered(attempts: Attempts, n: nat)
    requires n <= |attempts|
  {
    forall i :: 0 <= i < n ==> attempts[i].None?
  }

  /** The first answered attempt, among the first n, took this long. */
  predicate FirstAnswer(attempts: Attempts, n: nat, latency: nat)
    requires n <= |attempts|
  {
    exists i :: 0 <= i < n && attempts[i] == Some(latency) && Unanswered(attempts, i)
  }

  /** The latency of the first answered attempt. */
  method ReliablePing(attempts: Attempts, maxAttempts: nat) returns (latency: Option<nat>)
    requires maxAttempts <= |attempts|
    ensures latency.None? <==> Unanswered(attempts, maxAttempts)
    ensures latency.Some? ==> FirstAnswer(attempts, maxAttempts, latency.value)
  {
    for attempt := 0 to maxAttempts
      invariant Unanswered(attempts, attempt)
    {
      if attempts[attempt].Some? {
        return attempts[attempt];
      }
    }
    return None;
  }

  // ---------------------------------------------------------------- streaks

  /** One check: whether it failed, whether recovery fired, the timeout it used, the latency it
      remembered, and the interval and the period of the ticker after it. */
  datatype Tick = Tick(failed: bool, fired: bool, timeout: nat, latency: nat, interval: nat, period: nat)

  /** How many of the checks before n, counted back from n, failed without a break. */
  function Streak(ticks: seq<Tick>, n: nat): nat
    requires n <= |ticks|
  {
    if n == 0 || !ticks[n - 1].failed then 0 else Streak(ticks, n - 1) + 1
  }

  lemma {:induction false} StreakPrefix(ticks: seq<Tick>, more: seq<Tick>, n: nat)
    requires n <= |ticks|
    ensures Streak(ticks + more, n) == Streak(ticks, n)
  {
    if n > 0 {
      StreakPrefix(ticks, more, n - 1);
    }
  }

  lemma {:induction false} StreakReaches(ticks: seq<Tick>, start: nat, n: nat)
    requires start <= n <= |ticks| && (start == 0 || !ticks[start - 1].failed)
    requires forall i :: start <= i < n ==> ticks[i].failed
    ensures Streak(ticks, n) == n - start
  {
    if start < n {
      StreakReaches(ticks, start, n - 1);
    }
  }

  // ---------------------------------------------------------------- timeout and interval

  function Sum(latencies: seq<nat>): nat {
    if |latencies| == 0 then 0 else Sum(latencies[..|latencies| - 1]) + latencies[|latencies| - 1]
  }

  /** Three times the average latency, within the limits. */
  function Timeout(pingTimeout: nat, latencies: seq<nat>): nat {
    if |latencies| == 0 then pingTimeout
    else
      var t := Sum(latencies) / |latencies| * 3;
      var t := if t < pingTimeout then pingTimeout else t;
      if t > MAX_TIMEOUT then MAX_TIMEOUT else t
  }

  /** With a measured latency the timeout lies within the limits exactly if they are in order. */
  lemma TimeoutWithinIff(pingTimeout: nat, latencies: seq<nat>)
    requires |latencies| > 0
    ensures pingTimeout <= Timeout(pingTimeout, latencies) <= MAX_TIMEOUT <==> pingTimeout <= MAX_TIMEOUT
  {
  }

  function Remember(latencies: seq<nat>, latency: nat): seq<nat> {
    var all := latencies + [latency];
    if |all| > WINDOW then all[1..] else all
  }

  /** The latencies remembered by the last ten checks before n. */
  function LastTen(ticks: seq<Tick>, n: nat): (window: seq<nat>)
    requires n <= |ticks|
    ensures |window| <= WINDOW
  {
    var first := if n > WINDOW then n - WINDOW else 0;
    seq<nat>(n - first, i requires 0 <= i < n - first => ticks[first + i].latency)
  }

  lemma RememberIsLastTen(ticks: seq<Tick>, t: Tick)
    ensures Remember(LastTen(ticks, |ticks|), t.latency) == LastTen(ticks + [t], |ticks + [t]|)
  {
  }

  lemma LastTenPrefix(ticks: seq<Tick>, more: seq<Tick>, n: nat)
    requires n <= |ticks|
    ensures LastTen(ticks + more, n) == LastTen(ticks, n)
  {
  }

  function Longer(interval: nat): nat {
    var longer := interval * 13 / 10;
    if longer > MAX_INTERVAL then MAX_INTERVAL else longer
  }

  function Shorter(interval: nat, pingInterval: nat): nat {
    var shorter := interval * 9 / 10;
    if shorter < pingInterval then pingInterval else shorter
  }

  /** The interval after a check: longer from the fourth failure on, shorter after a success. */
  function NextInterval(interval: nat, pingInterval: nat, streak: nat): nat {
    if streak >= FAILURE_THRESHOLD && interval < MAX_INTERVAL then Longer(interval)
    else if streak == 0 && interval > pingInterval then Shorter(interval, pingInterval)
    else interval
  }

  function IntervalBefore(ticks: seq<Tick>, pingInterval: nat, i: nat): nat
    requires i <= |ticks|
  {
    if i == 0 then pingInterval else ticks[i - 1].interval
  }

  function PeriodBefore(ticks: seq<Tick>, pingInterval: nat, i: nat): nat
    requires i <= |ticks|
  {
    if i == 0 then pingInterval else ticks[i - 1].period
  }

  predicate ShouldFireRecovery(failures: nat, lost: bool) {
    failures >= FAILURE_THRESHOLD && !lost
  }

  /** Every tick of a run keeps to the limits. */
  predicate WithinLimits(t: Tick, pingInterval: nat, pingTimeout: nat) {
    && (pingTimeout <= MAX_TIMEOUT ==> pingTimeout <= t.timeout <= MAX_TIMEOUT)
    && pingInterval <= t.interval && (t.interval <= pingInterval || t.interval <= MAX_INTERVAL)
    && pingInterval <= t.period && (t.period <= pingInterval || t.period <= MAX_INTERVAL)
  }

  /** Tick i is what the answers make it: recovery fires at the fourth failure of a streak and at
      no other time, and the ticker is only set after a success that shortens the interval. */
  predicate ExplainedAt(ticks: seq<Tick>, answers: seq<Attempts>, pingInterval: nat, pingTimeout: nat, i: nat)
    requires i < |ticks| <= |answers| && |answers[i]| >= 4
  {
    var t, interval := ticks[i], IntervalBefore(ticks, pingInterval, i);
    && t.failed == Unanswered(answers[i], AttemptsAllowed(Streak(ticks, i)))
    && (t.fired <==> Streak(ticks, i + 1) == FAILURE_THRESHOLD)
    && t.timeout == Timeout(pingTimeout, LastTen(ticks, i))
    && (if t.failed then t.latency == t.timeout
        else FirstAnswer(answers[i], AttemptsAllowed(Streak(ticks, i)), t.latency))
    && t.interval == NextInterval(interval, pingInterval, Streak(ticks, i + 1))
    && t.period == if !t.failed && interval > pingInterval then t.interval else PeriodBefore(ticks, pingInterval, i)
  }

  predicate EnoughAttempts(answers: seq<Attempts>) {
    forall i :: 0 <= i < |answers| ==> |answers[i]| >= 4
  }

  predicate Explained(ticks: seq<Tick>, answers: seq<Attempts>, pingInterval: nat, pingTimeout: nat)
    requires |ticks| <= |answers| && EnoughAttempts(answers)
  {
    forall i :: 0 <= i < |ticks| ==> ExplainedAt(ticks, answers, pingInterval, pingTimeout, i)
  }

  lemma ExplainedPrefix(ticks: seq<Tick>, t: Tick, answers: seq<Attempts>, pingInterval: nat, pingTimeout: nat, i: nat)
    requires i < |ticks| < |answers| && |answers[i]| >= 4 && ExplainedAt(ticks, answers, pingInterval, pingTimeout, i)
    ensures ExplainedAt(ticks + [t], answers, pingInterval, pingTimeout, i)
  {
    StreakPrefix(ticks, [t], i);
    StreakPrefix(ticks, [t], i + 1);
    LastTenPrefix(ticks, [t], i);
  }

  lemma ExplainedMore(ticks: seq<Tick>, t: Tick, answers: seq<Attempts>, pingInterval: nat, pingTimeout: nat)
    requires |ticks| < |answers| && EnoughAttempts(answers) && Explained(ticks, answers, pingInterval, pingTimeout)
    requires ExplainedAt(ticks + [t], answers, pingInterval, pingTimeout, |ticks|)
    ensures Explained(ticks + [t], answers, pingInterval, pingTimeout)
  {
    forall i | 0 <= i < |ticks|
      ensures ExplainedAt(ticks + [t], answers, pingInterval, pingTimeout, i)
    {
      ExplainedPrefix(ticks, t, answers, pingInterval, pingTimeout, i);
    }
  }

  lemma {:induction false} IntervalsWithinLimits(ticks: seq<Tick>, answers: seq<Attempts>, pingInterval: nat, pingTimeout: nat, n: nat)
    requires n <= |ticks| <= |answers| && EnoughAttempts(answers) && Explained(ticks, answers, pingInterval, pingTimeout)
    ensures var i, p := IntervalBefore(ticks, pingInterval, n), PeriodBefore(ticks, pingInterval, n);
            && pingInterval <= i && (i <= pingInterval || i <= MAX_INTERVAL)
            && pingInterval <= p && (p <= pingInterval || p <= MAX_INTERVAL)
  {
    if n > 0 {
      IntervalsWithinLimits(ticks, answers, pingInterval, pingTimeout, n - 1);
      assert ExplainedAt(ticks, answers, pingInterval, pingTimeout, n - 1);
    }
  }

  /** In every run the timeout, the interval and the ticker's period stay within their limits. */
  lemma TicksWithinLimits(ticks: seq<Tick>, answers: seq<Attempts>, pingInterval: nat, pingTimeout: nat, i: nat)
    requires i < |ticks| <= |answers| && EnoughAttempts(answers) && Explained(ticks, answers, pingInterval, pingTimeout)
    ensures WithinLimits(ticks[i], pingInterval, pingTimeout)
  {
    assert ExplainedAt(ticks, answers, pingInterval, pingTimeout, i);
    IntervalsWithinLimits(ticks, answers, pingInterval, pingTimeout, i + 1);
  }

  /** The check loop, over any sequence of answers. */
  method CheckLoop(pingInterval: nat, pingTimeout: nat, answers: seq<Attempts>) returns (ticks: seq<Tick>)
    requires EnoughAttempts(answers)
    ensures |ticks| == |answers| && Explained(ticks, answers, pingInterval, pingTimeout)
  {
    var currentInterval, period := pingInterval, pingInterval;
    var consecutiveFailures: nat, connectionLost := 0, false;
    var recentLatencies: seq<nat> := [];
    ticks := [];
    for n := 0 to |answers|
      invariant |ticks| == n && Explained(ticks, answers, pingInterval, pingTimeout)
      invariant consecutiveFailures == Streak(ticks, n)
      invariant connectionLost <==> consecutiveFailures >= FAILURE_THRESHOLD
      invariant recentLatencies == LastTen(ticks, n)
      invariant currentInterval == IntervalBefore(ticks, pingInterval, n)
      invariant period == PeriodBefore(ticks, pingInterval, n)
    {
      var timeout := Timeout(pingTimeout, recentLatencies);
      var answer := ReliablePing(answers[n], AttemptsAllowed(consecutiveFailures));
      var latency, fired := timeout, false;
      if answer.None? {
        consecutiveFailures := consecutiveFailures + 1;
        if ShouldFireRecovery(consecutiveFailures, connectionLost) {
          connectionLost := true;
          fired := true;
        }
        if consecutiveFailures >= FAILURE_THRESHOLD && currentInterval < MAX_INTERVAL {
          currentInterval := Longer(currentInterval);
        }
      } else {
        latency := answer.value;
        connectionLost := false;
        if currentInterval > pingInterval {
          currentInterval := Shorter(currentInterval, pingInterval);
          period := currentInterval;
        }
        consecutiveFailures := 0;
      }
      recentLatencies := Remember(recentLatencies, latency);
      ghost var t := Tick(answer.None?, fired, timeout, latency, currentInterval, period);
      StreakPrefix(ticks, [t], n);
      LastTenPrefix(ticks, [t], n);
      RememberIsLastTen(ticks, t);
      ExplainedMore(ticks, t, answers, pingInterval, pingTimeout);
      ticks := ticks + [Tick(answer.None?, fired, timeout, latency, currentInterval, period)];
    }
  }

  /** Recovery fires once for every streak of four or more failures, at the fourth. */
  lemma FiresOncePerStreak(ticks: seq<Tick>, answers: seq<Attempts>, pingInterval: nat, pingTimeout: nat, start: nat, end: nat)
    requires |ticks| <= |answers| && EnoughAttempts(answers) && Explained(ticks, answers, pingInterval, pingTimeout)
    requires start <= end <= |ticks| && (start == 0 || !ticks[start - 1].failed)
    requires forall i :: start <= i < end ==> ticks[i].failed
    ensures forall i :: start <= i < end ==> (ticks[i].fired <==> i == start + FAILURE_THRESHOLD - 1)
  {
    forall i | start <= i < end
      ensures ticks[i].fired <==> i == start + FAILURE_THRESHOLD - 1
    {
      assert ExplainedAt(ticks, answers, pingInterval, pingTimeout, i);
      StreakReaches(ticks, start, i + 1);
    }
  }

  // ---------------------------------------------------------------- the ticker lags behind

  /** In every run the ticker's period is at most the interval. It is the interval exactly while
      the failure streak is below four, or if the interval cannot grow from the period: because
      the period has reached the maximum, or is too short for the factor to show. */
  lemma {:induction false} PeriodIsIntervalIff(ticks: seq<Tick>, answers: seq<Attempts>, pingInterval: nat, pingTimeout: nat, n: nat)
    requires n <= |ticks| <= |answers| && EnoughAttempts(answers) && Explained(ticks, answers, pingInterval, pingTimeout)
    ensures var interval, period := IntervalBefore(ticks, pingInterval, n), PeriodBefore(ticks, pingInterval, n);
            && pingInterval <= period <= interval
            && (period == interval <==> Streak(ticks, n) < FAILURE_THRESHOLD || period >= MAX_INTERVAL || period < 4)
  {
    if n > 0 {
      PeriodIsIntervalIff(ticks, answers, pingInterval, pingTimeout, n - 1);
      assert ExplainedAt(ticks, answers, pingInterval, pingTimeout, n - 1);
    }
  }

  /** Four checks in a row without an answer, at three seconds each: the interval has grown to
      3.9 s and the ticker still runs at 3 s. */
  method LagExample() returns (ticks: seq<Tick>)
    ensures |ticks| == 4 && ticks[3].period == 3_000_000_000 && ticks[3].interval == 3_900_000_000
  {
    var none: Attempts := [None, None, None, None];
    var answers := [none, none, none, none];
    ticks := CheckLoop(3_000_000_000, 5_000_000_000, answers);
    forall i | 0 <= i < 4
      ensures ticks[i].failed && ExplainedAt(ticks, answers, 3_000_000_000, 5_000_000_000, i)
    {
      assert ExplainedAt(ticks, answers, 3_000_000_000, 5_000_000_000, i);
      assert answers[i] == none;
    }
    assert Streak(ticks, 1) == 1 && Streak(ticks, 2) == 2 && Streak(ticks, 3) == 3 && Streak(ticks, 4) == 4;
    assert ticks[0].interval == ticks[0].period == 3_000_000_000;
    assert ticks[1].interval == ticks[1].period == 3_000_000_000;
    assert ticks[2].interval == ticks[2].period == 3_000_000_000;
  }

  // ---------------------------------------------------------------- the same, in plain numbers

  /** A check after c failures in a row fails if and only if its first two attempts go unanswered,
      and after more than four failures the next two as well. */
  lemma FailsIff(ticks: seq<Tick>, answers: seq<Attempts>, pingInterval: nat, pingTimeout: nat, i: nat, c: nat)
    requires |ticks| <= |answers| && EnoughAttempts(answers) && Explained(ticks, answers, pingInterval, pingTimeout)
    requires c <= i < |ticks| && (c == i || !ticks[i - c - 1].failed) && forall j :: i - c <= j < i ==> ticks[j].failed
    ensures ticks[i].failed <==>
            && answers[i][0].None? && answers[i][1].None?
            && (c > 4 ==> answers[i][2].None? && answers[i][3].None?)
  {
    assert ExplainedAt(ticks, answers, pingInterval, pingTimeout, i);
    StreakReaches(ticks, i - c, i);
    assert Streak(ticks, i) == c;
  }

  /** The latencies of the checks from lo up to hi, added up. */
  function LatencySum(ticks: seq<Tick>, lo: nat, hi: nat): nat
    requires lo <= hi <= |ticks|
    decreases hi - lo
  {
    if lo == hi then 0 else ticks[lo].latency + LatencySum(ticks, lo + 1, hi)
  }

  lemma {:induction false} LatencySumLast(ticks: seq<Tick>, lo: nat, hi: nat)
    requires lo < hi <= |ticks|
    ensures LatencySum(ticks, lo, hi) == LatencySum(ticks, lo, hi - 1) + ticks[hi - 1].latency
    decreases hi - lo
  {
    if lo < hi - 1 {
      LatencySumLast(ticks, lo + 1, hi);
    }
  }

  lemma {:induction false} SumIsLatencySum(ticks: seq<Tick>, lo: nat, window: seq<nat>)
    requires lo + |window| <= |ticks| && forall j :: 0 <= j < |window| ==> window[j] == ticks[lo + j].latency
    ensures Sum(window) == LatencySum(ticks, lo, lo + |window|)
    decreases |window|
  {
    if |window| > 0 {
      SumIsLatencySum(ticks, lo, window[..|window| - 1]);
      LatencySumLast(ticks, lo, lo + |window|);
    }
  }

  /** The timeout of a check is three times the mean of the last ten latencies, rounded down before
      it is tripled, but at least the configured timeout and at most 15 s. */
  lemma TimeoutIsThreeMeans(ticks: seq<Tick>, answers: seq<Attempts>, pingInterval: nat, pingTimeout: nat, i: nat, lo: nat, mean: nat)
    requires |ticks| <= |answers| && EnoughAttempts(answers) && Explained(ticks, answers, pingInterval, pingTimeout)
    requires 0 < i < |ticks| && lo == (if i > 10 then i - 10 else 0)
    requires mean * (i - lo) <= LatencySum(ticks, lo, i) < (mean + 1) * (i - lo)
    ensures ticks[i].timeout ==
            if 3 * mean > 15_000_000_000 || pingTimeout > 15_000_000_000 then 15_000_000_000
            else if 3 * mean < pingTimeout then pingTimeout else 3 * mean
  {
    assert ExplainedAt(ticks, answers, pingInterval, pingTimeout, i);
    var window := LastTen(ticks, i);
    SumIsLatencySum(ticks, lo, window);
    QuotientIs(Sum(window), |window|, mean);
  }

  lemma QuotientIs(a: nat, n: nat, q: nat)
    requires n > 0 && q * n <= a < (q + 1) * n
    ensures a / n == q
  {
    if a / n < q {
      ProductGrows(a / n + 1, q, n);
    } else if a / n > q {
      ProductGrows(q + 1, a / n, n);
    }
  }

  lemma ProductGrows(x: nat, y: nat, n: nat)
    requires x <= y
    ensures x * n <= y * n
  {
  }

  /** The first check uses the configured timeout. */
  lemma FirstTimeout(ticks: seq<Tick>, answers: seq<Attempts>, pingInterval: nat, pingTimeout: nat)
    requires 0 < |ticks| <= |answers| && EnoughAttempts(answers) && Explained(ticks, answers, pingInterval, pingTimeout)
    ensures ticks[0].timeout == pingTimeout
  {
    assert ExplainedAt(ticks, answers, pingInterval, pingTimeout, 0);
  }

  /** After the fourth failure in a row and every further one the interval is 1.3 times what it was,
      rounded down, up to 6 s; after a success it is 0.9 times that, down to the configured
      interval; otherwise it stays. */
  lemma IntervalFactors(ticks: seq<Tick>, answers: seq<Attempts>, pingInterval: nat, pingTimeout: nat, i: nat, longer: nat, shorter: nat)
    requires |ticks| <= |answers| && EnoughAttempts(answers) && Explained(ticks, answers, pingInterval, pingTimeout) && i < |ticks|
    requires var before := IntervalBefore(ticks, pingInterval, i);
             10 * longer <= 13 * before < 10 * longer + 10 && 10 * shorter <= 9 * before < 10 * shorter + 10
    ensures var before := IntervalBefore(ticks, pingInterval, i);
            ticks[i].interval ==
            if ticks[i].failed && i >= 3 && ticks[i - 1].failed && ticks[i - 2].failed && ticks[i - 3].failed && before < 6_000_000_000
            then (if longer > 6_000_000_000 then 6_000_000_000 else longer)
            else if !ticks[i].failed && before > pingInterval then (if shorter < pingInterval then pingInterval else shorter)
            else before
  {
    assert ExplainedAt(ticks, answers, pingInterval, pingTimeout, i);
    StreakOfFour(ticks, i);
  }

  lemma StreakOfFour(ticks: seq<Tick>, i: nat)
    requires i < |ticks|
    ensures Streak(ticks, i + 1) >= 4 <==>
            ticks[i].failed && i >= 3 && ticks[i - 1].failed && ticks[i - 2].failed && ticks[i - 3].failed
  {
    StreakAtLeast(ticks, i + 1, 4);
  }

  lemma {:induction false} StreakAtLeast(ticks: seq<Tick>, n: nat, c: nat)
    requires n <= |ticks|
    ensures Streak(ticks, n) >= c <==> c <= n && forall j :: n - c <= j < n ==> ticks[j].failed
  {
    if c > 0 && n > 0 {
      StreakAtLeast(ticks, n - 1, c - 1);
    }
  }
}
