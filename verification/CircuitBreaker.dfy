/** The startup circuit breaker: boots that follow a crash wait longer and longer. */
module CircuitBreaker {
  import opened Wrappers

  const RESET_WINDOW_MS := 60 * 60 * 1000
  const BACKOFF_SCHEDULE_S: seq<nat> := [0, 0, 10, 30, 120, 300, 900]

  /** What the breaker's file holds; attempts count from 1. */
  datatype Stored = Stored(attempt: nat, timestamp: int)

  function Delay(attempt: nat): nat
    requires attempt > 0
  {
    BACKOFF_SCHEDULE_S[if attempt - 1 < 6 then attempt - 1 else 6]
  }

  function NextAttempt(stored: Option<Stored>, now: int): (attempt: nat)
    ensures attempt > 0
    ensures attempt == 1 <==> stored.None? || now - stored.value.timestamp >= RESET_WINDOW_MS || stored.value.attempt == 0
  {
    if stored.None? then 1
    else if now - stored.value.timestamp < RESET_WINDOW_MS then stored.value.attempt + 1
    else 1
  }

  function AfterBoot(stored: Option<Stored>, now: int): Option<Stored> {
    Some(Stored(NextAttempt(stored, now), now))
  }

  class Breaker {
    /** None when the file is missing or unreadable. */
    var file: Option<Stored>

    constructor (contents: Option<Stored>)
      ensures file == contents
    {
      file := contents;
    }

    /** The state is written before the wait, so a boot that dies while waiting
        still counts. */
    method EnforceStartupBackoff(now: int) returns (delayMs: nat)
      modifies this
      ensures file == AfterBoot(old(file), now)
      ensures delayMs == 1000 * Delay(file.value.attempt)
      ensures file.value.timestamp == now
      ensures file.value.attempt ==
        if old(file).Some? && now - old(file).value.timestamp < 3600000 then old(file).value.attempt + 1 else 1
    {
      var attempt;
      if file.None? {
        attempt := 1;
      } else {
        var elapsedMs := now - file.value.timestamp;
        if elapsedMs < RESET_WINDOW_MS {
          attempt := file.value.attempt + 1;
        } else {
          attempt := 1;
        }
      }
      file := Some(Stored(attempt, now));
      delayMs := Delay(attempt) * 1000;
    }

    method ResetCircuitBreaker()
      modifies this
      ensures file == None
    {
      file := None;
    }
  }

  /** No wait at the first two attempts, then 10, 30, 120 and 300 seconds, then 900. */
  lemma DelayIs(attempt: nat)
    requires attempt > 0
    ensures Delay(attempt) ==
      if attempt <= 2 then 0
      else if attempt == 3 then 10
      else if attempt == 4 then 30
      else if attempt == 5 then 120
      else if attempt == 6 then 300
      else 900
  {
  }

  lemma DelayMonotone(a: nat, b: nat)
    requires 0 < a <= b
    ensures Delay(a) <= Delay(b) <= 900
  {
    var k := if b - 1 < 6 then b - 1 else 6;
    var j := if a - 1 < 6 then a - 1 else 6;
    assert BACKOFF_SCHEDULE_S[0] == BACKOFF_SCHEDULE_S[1] < BACKOFF_SCHEDULE_S[2] < BACKOFF_SCHEDULE_S[3];
    assert BACKOFF_SCHEDULE_S[3] < BACKOFF_SCHEDULE_S[4] < BACKOFF_SCHEDULE_S[5] < BACKOFF_SCHEDULE_S[6] == 900;
  }

  /** A crash less than 45 minutes after the wait ended is still counted: waiting
      alone never outlasts the window. */
  lemma WaitingNeverResets(stored: Option<Stored>, start: int, crash: int)
    requires var delayMs := 1000 * Delay(NextAttempt(stored, start)); start + delayMs <= crash < start + delayMs + 45 * 60 * 1000
    ensures NextAttempt(AfterBoot(stored, start), crash) == NextAttempt(stored, start) + 1
  {
    DelayMonotone(NextAttempt(stored, start), NextAttempt(stored, start));
  }

  // ---------- Crash loops ----------

  /** A boot, and whether it lived to the end of its wait. */
  datatype Boot = Boot(start: int, waited: bool)

  function WaitMs(stored: Option<Stored>, b: Boot): nat {
    if b.waited then 1000 * Delay(NextAttempt(stored, b.start)) else 0
  }

  /** Boots one after the other, none after a clean shutdown, with less than an hour
      between their starts. */
  predicate CrashLoop(stored: Option<Stored>, boots: seq<Boot>)
    decreases |boots|
  {
    |boots| > 1 ==>
      && boots[0].start + WaitMs(stored, boots[0]) <= boots[1].start < boots[0].start + RESET_WINDOW_MS
      && CrashLoop(AfterBoot(stored, boots[0].start), boots[1..])
  }

  /** When the last boot is through with its wait, or dies in it at the earliest. */
  function Finish(stored: Option<Stored>, boots: seq<Boot>): int
    requires boots != []
    decreases |boots|
  {
    if |boots| == 1 then boots[0].start + WaitMs(stored, boots[0])
    else Finish(AfterBoot(stored, boots[0].start), boots[1..])
  }

  function Waits(boots: seq<Boot>): nat {
    if boots == [] then 0 else (if boots[0].waited then 1 else 0) + Waits(boots[1..])
  }

  /** The delays of m attempts in a row, in seconds. */
  function DelaySum(attempt: nat, m: nat): nat
    requires attempt > 0
    decreases m
  {
    if m == 0 then 0 else Delay(attempt) + DelaySum(attempt + 1, m - 1)
  }

  lemma {:induction false} LaterSumIsGreater(a: nat, b: nat, m: nat)
    requires 0 < a <= b
    ensures DelaySum(a, m) <= DelaySum(b, m)
    decreases m
  {
    if m > 0 {
      DelayMonotone(a, b);
      LaterSumIsGreater(a + 1, b + 1, m - 1);
    }
  }

  lemma {:induction false} LoopTakesDelaySum(stored: Option<Stored>, boots: seq<Boot>)
    requires boots != [] && CrashLoop(stored, boots)
    ensures Finish(stored, boots) - boots[0].start >= 1000 * DelaySum(NextAttempt(stored, boots[0].start), Waits(boots))
    decreases |boots|
  {
    var attempt := NextAttempt(stored, boots[0].start);
    if |boots| == 1 {
      assert boots[1..] == [];
      assert DelaySum(attempt, 1) == Delay(attempt) + DelaySum(attempt + 1, 0);
    } else {
      var next := AfterBoot(stored, boots[0].start);
      LoopTakesDelaySum(next, boots[1..]);
      assert NextAttempt(next, boots[1].start) == attempt + 1;
      LaterSumIsGreater(attempt, attempt + 1, Waits(boots[1..]));
    }
  }

  lemma {:induction false} CappedSum(attempt: nat, m: nat)
    requires attempt >= 7
    ensures DelaySum(attempt, m) == 900 * m
    decreases m
  {
    if m > 0 {
      CappedSum(attempt + 1, m - 1);
    }
  }

  lemma FirstDelays(m: nat)
    requires m >= 6
    ensures DelaySum(1, m) == 460 + 900 * (m - 6)
  {
    CappedSum(7, m - 6);
    assert DelaySum(5, m - 4) == Delay(5) + DelaySum(6, m - 5) == 120 + 300 + DelaySum(7, m - 6);
    assert DelaySum(3, m - 2) == Delay(3) + DelaySum(4, m - 3) == 10 + 30 + DelaySum(5, m - 4);
    assert DelaySum(1, m) == Delay(1) + DelaySum(2, m - 1) == DelaySum(3, m - 2);
  }

  /** In a crash loop, m boots that live through their wait take at least
      460 + 900 (m - 6) seconds, whatever the breaker held at first and however
      many other boots die while waiting. */
  lemma CrashLoopRate(stored: Option<Stored>, boots: seq<Boot>, m: nat)
    requires boots != [] && CrashLoop(stored, boots) && Waits(boots) == m >= 6
    ensures Finish(stored, boots) - boots[0].start >= 1000 * (460 + 900 * (m - 6))
  {
    LoopTakesDelaySum(stored, boots);
    LaterSumIsGreater(1, NextAttempt(stored, boots[0].start), m);
    FirstDelays(m);
  }

  /** The bound is met: a loop that restarts at once takes no longer. */
  lemma {:induction false} TightLoop(start: int, attempt: nat, m: nat)
    requires attempt > 0 && m > 0
    ensures var boots := Tight(start, attempt, m);
      var stored := Before(start, attempt);
      && CrashLoop(stored, boots) && Waits(boots) == m
      && Finish(stored, boots) - start == 1000 * DelaySum(attempt, m)
    decreases m
  {
    var boots, stored := Tight(start, attempt, m), Before(start, attempt);
    assert NextAttempt(stored, start) == attempt;
    if m == 1 {
      assert boots == [Boot(start, true)] && boots[1..] == [];
      assert DelaySum(attempt, 1) == Delay(attempt) + DelaySum(attempt + 1, 0);
    } else {
      var next := start + 1000 * Delay(attempt);
      DelayMonotone(attempt, attempt);
      TightLoop(next, attempt + 1, m - 1);
      assert boots[1..] == Tight(next, attempt + 1, m - 1);
      SameNextAttempt(AfterBoot(stored, start), Before(next, attempt + 1), boots[1..]);
    }
  }

  /** Boots from a given attempt on, each started as soon as the last wait ended. */
  function Tight(start: int, attempt: nat, m: nat): (boots: seq<Boot>)
    requires attempt > 0
    ensures |boots| == m && (m > 0 ==> boots[0] == Boot(start, true))
    decreases m
  {
    if m == 0 then [] else [Boot(start, true)] + Tight(start + 1000 * Delay(attempt), attempt + 1, m - 1)
  }

  function Before(start: int, attempt: nat): Option<Stored>
    requires attempt > 0
  {
    Some(Stored(attempt - 1, start))
  }

  /** What a loop does depends on the file only through its first attempt. */
  lemma SameNextAttempt(s: Option<Stored>, t: Option<Stored>, boots: seq<Boot>)
    requires boots != [] && NextAttempt(s, boots[0].start) == NextAttempt(t, boots[0].start)
    ensures CrashLoop(s, boots) == CrashLoop(t, boots) && Finish(s, boots) == Finish(t, boots)
  {
    assert AfterBoot(s, boots[0].start) == AfterBoot(t, boots[0].start);
  }
}
