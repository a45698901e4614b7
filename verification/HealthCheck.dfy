/** Health of a target: a streak of checks of one kind has to reach its threshold. */
module HealthCheck {

  datatype Status = Unknown | Healthy | Unhealthy

  /** A threshold that is not configured is one. */
  function Threshold(configured: int): int {
    if configured == 0 then 1 else configured
  }

  // ---------------------------------------------------------------- histories

  /** How many of the checks before n, counted back from n, had this result. */
  function Streak(history: seq<bool>, result: bool, n: nat): nat
    requires n <= |history|
  {
    if n == 0 || history[n - 1] != result then 0 else Streak(history, result, n - 1) + 1
  }

  /** A streak of this result has reached its threshold at check i. */
  predicate Reaches(history: seq<bool>, result: bool, threshold: int, i: nat)
    requires i < |history|
  {
    history[i] == result && Streak(history, result, i + 1) >= threshold
  }

  /** It has if and only if that many checks in a row, up to this one, had the result. */
  lemma ReachesIff(history: seq<bool>, result: bool, threshold: int, i: nat)
    requires i < |history| && threshold >= 1
    ensures Reaches(history, result, threshold, i) <==>
            threshold <= i + 1 && forall j :: i + 1 - threshold <= j <= i ==> history[j] == result
  {
    StreakAtLeast(history, result, i + 1, threshold);
  }

  lemma {:induction false} StreakAtLeast(history: seq<bool>, result: bool, n: nat, c: nat)
    requires n <= |history|
    ensures Streak(history, result, n) >= c <==> c <= n && forall j :: n - c <= j < n ==> history[j] == result
  {
    if c > 0 && n > 0 {
      StreakAtLeast(history, result, n - 1, c - 1);
    }
  }

  /** The status that the first n checks call for: that of the latest streak to reach its
      threshold, unknown if none has. */
  ghost predicate Deserved(history: seq<bool>, up: int, down: int, n: nat, status: Status)
    requires n <= |history|
  {
    match status
    case Unknown => forall i :: 0 <= i < n ==> !Reaches(history, true, up, i) && !Reaches(history, false, down, i)
    case Healthy =>
      exists i :: 0 <= i < n && Reaches(history, true, up, i) && forall j :: i < j < n ==> !Reaches(history, false, down, j)
    case Unhealthy =>
      exists i :: 0 <= i < n && Reaches(history, false, down, i) && forall j :: i < j < n ==> !Reaches(history, true, up, j)
  }

  lemma {:induction false} StreakPrefix(history: seq<bool>, more: seq<bool>, result: bool, n: nat)
    requires n <= |history|
    ensures Streak(history + more, result, n) == Streak(history, result, n)
  {
    if n > 0 {
      StreakPrefix(history, more, result, n - 1);
    }
  }

  lemma ReachesPrefix(history: seq<bool>, more: seq<bool>, result: bool, threshold: int, i: nat)
    requires i < |history|
    ensures Reaches(history + more, result, threshold, i) <==> Reaches(history, result, threshold, i)
  {
    StreakPrefix(history, more, result, i + 1);
  }

  /** After a check exactly one of the two streaks is running. */
  lemma OneStreakOnly(history: seq<bool>, n: nat)
    requires 0 < n <= |history|
    ensures Streak(history, true, n) > 0 <==> Streak(history, false, n) == 0
  {
  }

  /** The status is determined by the history. */
  lemma DeservedIsUnique(history: seq<bool>, up: int, down: int, n: nat, a: Status, b: Status)
    requires n <= |history| && Deserved(history, up, down, n, a) && Deserved(history, up, down, n, b)
    ensures a == b
  {
  }

  /** One more check: the status changes if and only if it lets a streak reach its threshold. */
  lemma DeservedNext(history: seq<bool>, up: int, down: int, status: Status, result: bool)
    requires Deserved(history, up, down, |history|, status)
    ensures var all := history + [result];
            var reached := Reaches(all, result, if result then up else down, |history|);
            Deserved(all, up, down, |all|, if !reached then status else if result then Healthy else Unhealthy)
  {
    var all, n := history + [result], |history|;
    forall i, r, t | 0 <= i < n
      ensures Reaches(all, r, t, i) <==> Reaches(history, r, t, i)
    {
      ReachesPrefix(history, [result], r, t, i);
    }
    if Reaches(all, result, if result then up else down, n) {
    } else if status.Healthy? {
      var i :| 0 <= i < n && Reaches(history, true, up, i) && forall j :: i < j < n ==> !Reaches(history, false, down, j);
      assert Reaches(all, true, up, i);
    } else if status.Unhealthy? {
      var i :| 0 <= i < n && Reaches(history, false, down, i) && forall j :: i < j < n ==> !Reaches(history, true, up, j);
      assert Reaches(all, false, down, i);
    }
  }

  class Target {
    const healthyThreshold: int
    const unhealthyThreshold: int
    var status: Status
    var checkCount: nat
    var consecutiveSuccesses: nat
    var consecutiveFailures: nat
    ghost var history: seq<bool>

    /** Each counter is the length of the current streak of its kind, and the status is the one
        the history calls for. */
    ghost predicate Valid()
      reads this
    {
      && checkCount == |history|
      && consecutiveSuccesses == Streak(history, true, |history|)
      && consecutiveFailures == Streak(history, false, |history|)
      && Deserved(history, healthyThreshold, unhealthyThreshold, |history|, status)
    }

    constructor (healthy: int, unhealthy: int)
      ensures Valid() && history == [] && status == Unknown
      ensures healthyThreshold == (if healthy == 0 then 1 else healthy)
      ensures unhealthyThreshold == (if unhealthy == 0 then 1 else unhealthy)
    {
      healthyThreshold, unhealthyThreshold := Threshold(healthy), Threshold(unhealthy);
      status, checkCount, consecutiveSuccesses, consecutiveFailures, history := Unknown, 0, 0, 0, [];
    }

    method PerformHealthCheck(passed: bool)
      requires Valid()
      modifies this
      ensures Valid() && history == old(history) + [passed]
      ensures consecutiveSuccesses > 0 <==> consecutiveFailures == 0
      ensures forall other :: Deserved(history, healthyThreshold, unhealthyThreshold, |history|, other) <==> other == status
    {
      DeservedNext(history, healthyThreshold, unhealthyThreshold, status, passed);
      StreakPrefix(history, [passed], true, |history|);
      StreakPrefix(history, [passed], false, |history|);
      history := history + [passed];
      checkCount := checkCount + 1;
      if passed {
        consecutiveFailures := 0;
        consecutiveSuccesses := consecutiveSuccesses + 1;
        if consecutiveSuccesses >= healthyThreshold {
          status := Healthy;
        }
      } else {
        consecutiveSuccesses := 0;
        consecutiveFailures := consecutiveFailures + 1;
        if consecutiveFailures >= unhealthyThreshold {
          status := Unhealthy;
        }
      }
      OneStreakOnly(history, |history|);
      forall other | Deserved(history, healthyThreshold, unhealthyThreshold, |history|, other)
        ensures other == status
      {
        DeservedIsUnique(history, healthyThreshold, unhealthyThreshold, |history|, other, status);
      }
    }
  }
}
