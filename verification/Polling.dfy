/**
 Retry limits and the shape shared by all waiting loops (pkg/github/client.go).
 A run of a loop is described by the polls it sees, each with what it leads to
 and the time at which the limits are then checked. Times are in nanoseconds.
 */
module Polling {
  import opened Times

  const TEN_MINUTES := 10 * MINUTE
  const TWENTY_SECONDS := 20 * SECOND
  const MAX_INT32 := 0x7FFF_FFFF

  datatype Limits = Limits(attempts: int, pauseTime: int, maxWaitTime: int, maxAttempts: int)

  /** What `init` makes of the limits. */
  function Initialised(l: Limits): Limits {
    l.(maxAttempts := if l.maxAttempts < 0 then MAX_INT32 else l.maxAttempts,
       maxWaitTime := if l.maxWaitTime == 0 then TEN_MINUTES else if l.maxWaitTime < 0 then 0 else l.maxWaitTime,
       pauseTime := if l.pauseTime == 0 then TWENTY_SECONDS else if l.pauseTime < 0 then 0 else l.pauseTime)
  }

  /** A second `init` changes nothing exactly when no time was negative: a negative
      one becomes 0, which the second `init` takes for unset. */
  lemma InitialisedTwice(l: Limits)
    ensures Initialised(Initialised(l)) == Initialised(l) <==> l.maxWaitTime >= 0 && l.pauseTime >= 0
  {
  }

  predicate Exceeded(l: Limits, start: int, now: int) {
    now - start > l.maxWaitTime || l.attempts >= l.maxAttempts
  }

  class Retry {
    var Attempts: int
    var PauseTime: int
    var startTime: int
    var MaxWaitTime: int
    var MaxAttempts: int

    constructor (l: Limits)
      ensures Model() == l
    {
      Attempts, PauseTime, MaxWaitTime, MaxAttempts := l.attempts, l.pauseTime, l.maxWaitTime, l.maxAttempts;
      startTime := 0;
    }

    function Model(): Limits
      reads this
    {
      Limits(Attempts, PauseTime, MaxWaitTime, MaxAttempts)
    }

    method Init()
      modifies this
      ensures Model() == Initialised(old(Model())) && startTime == old(startTime)
    {
      if MaxAttempts < 0 {
        MaxAttempts := MAX_INT32;
      }
      if MaxWaitTime == 0 {
        MaxWaitTime := TEN_MINUTES;
      } else if MaxWaitTime < 0 {
        MaxWaitTime := 0;
      }
      if PauseTime == 0 {
        PauseTime := TWENTY_SECONDS;
      } else if PauseTime < 0 {
        PauseTime := 0;
      }
    }

    method Start(now: int)
      modifies this
      ensures Model() == old(Model()) && startTime == now
    {
      startTime := now;
    }

    method Increment()
      modifies this
      ensures Model() == old(Model()).(attempts := old(Attempts) + 1) && startTime == old(startTime)
    {
      Attempts := Attempts + 1;
    }

    predicate RetryExceeded(now: int)
      reads this
    {
      Exceeded(Model(), startTime, now)
    }
  }

  /** What one poll leads to: a final result, another round (with or without
      checking the limits first), or nothing yet because it is still under way. */
  datatype Verdict<+R> = Final(result: R) | Again(limited: bool) | Open

  datatype Poll<+R> = Poll(verdict: Verdict<R>, checkedAt: int)

  /** How a loop ends: with a result or at its limits, after some number of polls,
      or not within the polls seen so far. */
  datatype Waited<+R> = Waiting | Ended(result: R, polls: nat) | TimedOut(polls: nat)

  function At(l: Limits, i: nat): Limits {
    l.(attempts := l.attempts + i)
  }

  /** The loop from poll `i` on. */
  function Wait<R>(l: Limits, start: int, polls: seq<Poll<R>>, i: nat): Waited<R>
    decreases |polls| - i
  {
    if i >= |polls| then Waiting
    else
      match polls[i].verdict
      case Final(result) => Ended(result, i + 1)
      case Open => Waiting
      case Again(limited) =>
        if limited && Exceeded(At(l, i), start, polls[i].checkedAt) then TimedOut(i + 1)
        else Wait(l, start, polls, i + 1)
  }

  /** After poll `i` the loop sleeps and polls again. */
  predicate GoesOn<R>(l: Limits, start: int, polls: seq<Poll<R>>, i: nat)
    requires i < |polls|
  {
    polls[i].verdict.Again? && !(polls[i].verdict.limited && Exceeded(At(l, i), start, polls[i].checkedAt))
  }

  /** From poll `i` the loop has gone on to poll `n`, which is missing or under way. */
  ghost predicate StillAt<R>(l: Limits, start: int, polls: seq<Poll<R>>, i: nat, n: int)
    requires i <= n <= |polls|
  {
    (forall j | i <= j < n :: GoesOn(l, start, polls, j)) && (n < |polls| ==> polls[n].verdict.Open?)
  }

  /** The first poll that does not go on decides. */
  lemma {:induction false} WaitMeans<R>(l: Limits, start: int, polls: seq<Poll<R>>, i: nat)
    requires i <= |polls|
    ensures match Wait(l, start, polls, i)
            case Ended(result, n) =>
              && i < n <= |polls| && polls[n - 1].verdict == Final(result)
              && forall j | i <= j < n - 1 :: GoesOn(l, start, polls, j)
            case TimedOut(n) =>
              && i < n <= |polls| && polls[n - 1].verdict == Again(true)
              && Exceeded(At(l, n - 1), start, polls[n - 1].checkedAt)
              && forall j | i <= j < n - 1 :: GoesOn(l, start, polls, j)
            case Waiting =>
              exists n :: i <= n <= |polls| && StillAt(l, start, polls, i, n)
    decreases |polls| - i
  {
    if i < |polls| && GoesOn(l, start, polls, i) {
      WaitMeans(l, start, polls, i + 1);
      if Wait(l, start, polls, i + 1).Waiting? {
        var n :| i + 1 <= n <= |polls| && StillAt(l, start, polls, i + 1, n);
        assert StillAt(l, start, polls, i, n);
      }
    } else if i == |polls| || polls[i].verdict.Open? {
      assert StillAt(l, start, polls, i, i);
    }
  }

  lemma {:induction false} WaitGoesOn<R>(l: Limits, start: int, polls: seq<Poll<R>>, i: nat, n: nat)
    requires i <= n <= |polls| && forall j | i <= j < n :: GoesOn(l, start, polls, j)
    ensures Wait(l, start, polls, i) == Wait(l, start, polls, n)
    decreases n - i
  {
    if i < n {
      assert GoesOn(l, start, polls, i);
      WaitGoesOn(l, start, polls, i + 1, n);
    }
  }

  /** Rounds begun without checking the limits, among the first `n` polls. */
  function Unlimited<R>(polls: seq<Poll<R>>, n: nat): nat
    requires n <= |polls|
  {
    if n == 0 then 0
    else Unlimited(polls, n - 1) + if polls[n - 1].verdict == Again(false) then 1 else 0
  }

  function Max(a: int, b: int): int {
    if a > b then a else b
  }

  /** How many polls a loop may need: those its limits allow, and one more for each
      round begun without looking at them. */
  function PollBound(l: Limits, unlimited: nat): int {
    unlimited + Max(1, l.maxAttempts - l.attempts + 1)
  }

  lemma {:induction false} GoingOnIsBounded<R>(l: Limits, start: int, polls: seq<Poll<R>>, n: nat)
    requires n <= |polls| && forall j | 0 <= j < n :: GoesOn(l, start, polls, j)
    ensures n <= Unlimited(polls, n) + Max(0, l.maxAttempts - l.attempts)
  {
    if n > 0 {
      GoingOnIsBounded(l, start, polls, n - 1);
      assert GoesOn(l, start, polls, n - 1);
      if polls[n - 1].verdict.limited {
        assert At(l, n - 1).attempts < l.maxAttempts;
      }
    }
  }

  /** A loop ends within its poll bound, and does end once that many polls were seen. */
  lemma PollsBounded<R>(l: Limits, start: int, polls: seq<Poll<R>>)
    ensures var w := Wait(l, start, polls, 0);
            && (!w.Waiting? ==> w.polls <= |polls| && w.polls <= PollBound(l, Unlimited(polls, w.polls)))
            && (w.Waiting? && (forall p | p in polls :: !p.verdict.Open?) ==>
                  |polls| < PollBound(l, Unlimited(polls, |polls|)))
  {
    WaitMeans(l, start, polls, 0);
    var w := Wait(l, start, polls, 0);
    if w.Waiting? {
      var n :| 0 <= n <= |polls| && StillAt(l, start, polls, 0, n);
      if n == |polls| {
        GoingOnIsBounded(l, start, polls, n);
      } else {
        assert polls[n] in polls;
      }
    } else {
      GoingOnIsBounded(l, start, polls, w.polls - 1);
    }
  }

  /** Every limit check comes at least one pause after the one before. */
  ghost predicate Paused<R>(l: Limits, start: int, polls: seq<Poll<R>>) {
    && (|polls| > 0 ==> start <= polls[0].checkedAt)
    && forall i | 0 < i < |polls| :: polls[i - 1].checkedAt + l.pauseTime <= polls[i].checkedAt
  }

  lemma {:induction false} PausesAddUp<R>(l: Limits, start: int, polls: seq<Poll<R>>, n: nat)
    requires Paused(l, start, polls) && n < |polls|
    ensures start + n * l.pauseTime <= polls[n].checkedAt
  {
    if n > 0 {
      PausesAddUp(l, start, polls, n - 1);
      assert n * l.pauseTime == (n - 1) * l.pauseTime + l.pauseTime;
    }
  }

  /** Under such a clock a round that goes on either skips the limits or is one of the
      first, as many as whole pauses fit into the waiting time and one more. */
  ghost predicate InTime<R>(l: Limits, polls: seq<Poll<R>>, n: nat)
    requires l.pauseTime > 0 && n <= |polls|
  {
    forall j | 0 <= j < n :: polls[j].verdict == Again(false) || j <= l.maxWaitTime / l.pauseTime
  }

  lemma RoundsInTime<R>(l: Limits, start: int, polls: seq<Poll<R>>, n: nat)
    requires l.pauseTime > 0 && Paused(l, start, polls)
    requires n <= |polls| && forall j | 0 <= j < n :: GoesOn(l, start, polls, j)
    ensures InTime(l, polls, n)
  {
    forall j | 0 <= j < n && polls[j].verdict != Again(false) ensures j <= l.maxWaitTime / l.pauseTime {
      assert GoesOn(l, start, polls, j);
      PausesAddUp(l, start, polls, j);
      QuotientBound(j, l.pauseTime, l.maxWaitTime);
    }
  }

  lemma {:induction false} InTimeCounts<R>(l: Limits, polls: seq<Poll<R>>, n: nat)
    requires l.pauseTime > 0 && l.maxWaitTime >= 0 && n <= |polls| && InTime(l, polls, n)
    ensures n <= Unlimited(polls, n) + l.maxWaitTime / l.pauseTime + 1
  {
    if n > 0 && polls[n - 1].verdict == Again(false) {
      InTimeCounts(l, polls, n - 1);
    }
  }

  /** How many sleeps a loop may need: once more than whole pauses fit into its waiting
      time, and one for each round that skipped the limits. */
  lemma SleepsBounded<R>(l: Limits, start: int, polls: seq<Poll<R>>)
    requires l.pauseTime > 0 && l.maxWaitTime >= 0 && Paused(l, start, polls)
    ensures var w := Wait(l, start, polls, 0);
            !w.Waiting? ==>
              && 0 < w.polls <= |polls| && InTime(l, polls, w.polls - 1)
              && w.polls - 1 <= Unlimited(polls, w.polls - 1) + l.maxWaitTime / l.pauseTime + 1
  {
    WaitMeans(l, start, polls, 0);
    var w := Wait(l, start, polls, 0);
    if !w.Waiting? {
      RoundsInTime(l, start, polls, w.polls - 1);
      InTimeCounts(l, polls, w.polls - 1);
    }
  }

  lemma QuotientBound(n: int, d: int, m: int)
    requires d > 0 && n * d <= m
    ensures n <= m / d
  {
    var q := m / d;
    assert m == q * d + m % d;
    assert (q + 1 - n) * d == q * d + d - n * d > 0;
    assert q + 1 - n > 0;
  }

  /** Every poll from `i` on asks for another round that checks the limits. */
  ghost predicate Insists<R>(polls: seq<Poll<R>>, i: nat) {
    forall j | i <= j < |polls| :: polls[j].verdict == Again(true)
  }

  /** The bound on polls is tight: while time is left, a wait that finds nothing uses
      up its attempts and then times out. */
  lemma {:induction false} AttemptsExact<R>(l: Limits, start: int, polls: seq<Poll<R>>, i: nat)
    requires i <= |polls| && Insists(polls, i)
    requires forall j | i <= j < |polls| :: polls[j].checkedAt - start <= l.maxWaitTime
    ensures var n := Max(i, l.maxAttempts - l.attempts) + 1;
            Wait(l, start, polls, i) == if n <= |polls| then TimedOut(n) else Waiting
    decreases |polls| - i
  {
    if i < |polls| {
      AttemptsExact(l, start, polls, i + 1);
    }
  }

  /** So is the bound on sleeps: when each poll comes exactly one pause after the one
      before and attempts are left, a wait that finds nothing sleeps once more than
      whole pauses fit into its waiting time. */
  lemma {:induction false} TimeExact<R>(l: Limits, start: int, polls: seq<Poll<R>>, i: nat)
    requires l.pauseTime > 0 && l.maxWaitTime >= 0 && l.attempts + |polls| <= l.maxAttempts
    requires Insists(polls, i) && forall j | 0 <= j < |polls| :: polls[j].checkedAt == start + j * l.pauseTime
    requires i <= |polls| && i <= l.maxWaitTime / l.pauseTime + 1
    ensures var sleeps := l.maxWaitTime / l.pauseTime + 1;
            Wait(l, start, polls, i) == if sleeps < |polls| then TimedOut(sleeps + 1) else Waiting
    decreases |polls| - i
  {
    if i < |polls| {
      PausesFit(i, l.pauseTime, l.maxWaitTime);
      if i < l.maxWaitTime / l.pauseTime + 1 {
        TimeExact(l, start, polls, i + 1);
      }
    }
  }

  lemma PausesFit(n: int, d: int, m: int)
    requires d > 0
    ensures n * d > m <==> n >= m / d + 1
  {
    if n * d <= m {
      QuotientBound(n, d, m);
    } else {
      var q := m / d;
      assert m == q * d + m % d;
      assert (n - q) * d == n * d - q * d > 0;
      assert n - q > 0;
    }
  }

  /** Rounds that skip the limits have no bound at all. */
  lemma {:induction false} UnlimitedNeverEnds<R>(l: Limits, start: int, polls: seq<Poll<R>>, i: nat)
    requires i <= |polls| && forall j | i <= j < |polls| :: polls[j].verdict == Again(false)
    ensures Wait(l, start, polls, i) == Waiting
    decreases |polls| - i
  {
    if i < |polls| {
      UnlimitedNeverEnds(l, start, polls, i + 1);
    }
  }
}
