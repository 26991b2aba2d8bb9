/** `throttle`: keeping the site's cooldown between two requests. Time is an integer
    count of nanoseconds, the resolution of `time::Duration`. */
module Throttling {
  import opened Wrappers

  const Second: int := 1_000_000_000

  /** The site's cooldown rule between two unauthenticated requests. */
  const Cooldown: int := 3 * Second

  /** How long `throttle` sleeps when the previous call finished at `previous` and the
      clock now reads `now`; the `assert!(time_diff > zero)` panics on a clock that
      has not moved on. */
  function SleepFor(previous: int, now: int): (r: Run<nat>)
    ensures r.Panics? <==> now <= previous
    // the call starts no earlier than one cooldown after the previous one finished ...
    ensures r.Returns? ==> now + r.value >= previous + Cooldown
    // ... without any delay once the cooldown has passed ...
    ensures r.Returns? ==> (r.value == 0 <==> now - previous >= Cooldown)
    // ... and otherwise without waiting longer than the cooldown asks for.
    ensures r.Returns? && r.value > 0 ==> now + r.value == previous + Cooldown
  {
    var timeDiff := now - previous;
    if !(timeDiff > 0) then Panics("assertion failed: time_diff > zero")
    else
      var sleepDuration := Cooldown - timeDiff;
      Returns(if sleepDuration > 0 then sleepDuration else 0)
  }

  /** `throttle(previous, func, arg)` for a `func` that takes `work` nanoseconds: sleep,
      call `func` once, and return its result with the time read after it returned. This is
      the closed form the two-calls property of `test_throttle` is stated on; the imperative
      loop uses `SleepFor` on the `Clock` instead, and states its timing through it. */
  function Throttle<A, B>(previous: int, now: int, func: A -> B, arg: A, work: nat): (r: Run<(B, int)>)
    ensures r.Panics? <==> now <= previous
    ensures r.Returns? ==> r.value.0 == func(arg)
    ensures r.Returns? ==> r.value.1 - work >= previous + Cooldown && r.value.1 >= now + work
    ensures r.Returns? && now - previous >= Cooldown ==> r.value.1 == now + work
  {
    var sleep :- SleepFor(previous, now);
    var result := func(arg);
    Returns((result, now + sleep + work))
  }

  /** Two calls in a row: the second one returns at least a cooldown (so more than one
      second) after the timestamp the first one returned, whatever the clock read in between. */
  lemma ThrottledBackToBack<A, B>(previous: int, now1: int, now2: int, func: A -> B, arg1: A, arg2: A, work1: nat, work2: nat)
    requires Throttle(previous, now1, func, arg1, work1).Returns?
    requires now2 > Throttle(previous, now1, func, arg1, work1).value.1
    ensures Throttle(Throttle(previous, now1, func, arg1, work1).value.1, now2, func, arg2, work2).Returns?
    ensures var t1 := Throttle(previous, now1, func, arg1, work1).value.1;
      Throttle(t1, now2, func, arg2, work2).value.1 - t1 >= Cooldown > Second
  {
  }

  /** The last two of `readings` are the same instant, both read after the first `n`:
      the clock did not move on between them. */
  predicate ClockStuck(readings: seq<int>, n: nat)
  {
    |readings| >= n + 2 && readings[|readings| - 1] == readings[|readings| - 2]
  }

  /** The wall clock `time::now()` reads; it is taken never to run backwards. `readings`
      records the instants `time::now()` has returned, oldest first. */
  class Clock {
    var now: int
    var readings: seq<int>

    constructor (start: int)
      ensures now == start && readings == []
    {
      now := start;
      readings := [];
    }

    /** `time::now()`: some instant no earlier than the last one. */
    method Now() returns (t: int)
      modifies this
      ensures old(now) <= t && now == t
      ensures readings == old(readings) + [t]
    {
      t :| t >= now;
      now := t;
      readings := readings + [t];
    }

    /** `std::thread::sleep(d)`: returns no earlier than `d` after it was called. */
    method Sleep(d: nat)
      modifies this
      ensures now >= old(now) + d
      ensures readings == old(readings)
    {
      var t :| t >= now + d;
      now := t;
    }
  }
}
