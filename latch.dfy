/** The latch gate of `show()`: before a frame, wait while the time since the end
    of the previous frame is between 1 and 19 microseconds. The clock is a
    sequence of `micros()` readings, consumed one per call, in order. */
module Latch {
  import opened Ints

  datatype Option<T> = None | Some(value: T)

  /** Idle time, in microseconds, the strip needs between frames. */
  const LatchMicros: nat := 20

  /** `micros() - endTime` in 32-bit unsigned arithmetic: the d that, added to
      `since` modulo 2^32, gives `now`. */
  function Elapsed(now: U32, since: U32): (d: U32)
    ensures (since + d) % 0x1_0000_0000 == now
  {
    (now - since) % 0x1_0000_0000
  }

  /** The elapsed time is right across a wrap of the clock: t ticks after
      `since` measure t, for every t below 2^32. */
  lemma ElapsedAcrossWrap(since: U32, t: U32)
    ensures Elapsed((since + t) % 0x1_0000_0000, since) == t
  {
    var now := (since + t) % 0x1_0000_0000;
    if since + t < 0x1_0000_0000 {
      assert now == since + t;
    } else {
      assert now == since + t - 0x1_0000_0000;
      DivUnique(now - since, 0x1_0000_0000, -1, t);
    }
  }

  /** Whether a reading keeps the loop waiting. The loop condition reads the
      clock twice: the first reading must show less than the latch time, the
      second (taken only when the first did) must show more than zero. */
  predicate KeepsWaiting(reading: U32, endTime: U32, firstTest: bool)
  {
    if firstTest then Elapsed(reading, endTime) < LatchMicros
    else Elapsed(reading, endTime) > 0
  }

  /** Where the wait loop stops when it has already consumed `start` readings
      (an even number: whole iterations): Some(k) when the k-th reading ends it,
      every earlier one having kept it waiting; None when it is still waiting
      when the readings run out. Readings at even positions meet the first test
      of the loop condition, those at odd positions the second. */
  function WaitFrom(readings: seq<U32>, endTime: U32, start: nat): (r: Option<nat>)
    requires start <= |readings| && start % 2 == 0
    ensures r.Some? ==> start < r.value <= |readings|
    ensures r.Some? ==> !KeepsWaiting(readings[r.value - 1], endTime, (r.value - 1) % 2 == 0)
    ensures r.Some? ==> forall i :: start <= i < r.value - 1 ==> KeepsWaiting(readings[i], endTime, i % 2 == 0)
    ensures r.None? ==> forall i :: start <= i < |readings| ==> KeepsWaiting(readings[i], endTime, i % 2 == 0)
    decreases |readings| - start
  {
    if start == |readings| then None
    else if !KeepsWaiting(readings[start], endTime, true) then Some(start + 1)
    else if start + 1 == |readings| then None
    else if !KeepsWaiting(readings[start + 1], endTime, false) then Some(start + 2)
    else WaitFrom(readings, endTime, start + 2)
  }

  /** How many readings the wait loop of one `show()` consumes. */
  function WaitPolls(readings: seq<U32>, endTime: U32): Option<nat>
  {
    WaitFrom(readings, endTime, 0)
  }

  /** Transmission starts only at a reading showing no time elapsed or at least
      the latch time elapsed. */
  lemma ReleaseCondition(readings: seq<U32>, endTime: U32)
    requires WaitPolls(readings, endTime).Some?
    ensures var d := Elapsed(readings[WaitPolls(readings, endTime).value - 1], endTime);
            d == 0 || d >= LatchMicros
  {
  }

  /** A clock that has moved on since the last frame is held back until the full
      latch time has passed, and is released at the first loop test that sees it. */
  lemma AdvancedClockWaitsFullLatch(readings: seq<U32>, endTime: U32, i: nat)
    requires forall j :: 0 <= j < |readings| ==> Elapsed(readings[j], endTime) > 0
    requires i < |readings| && i % 2 == 0 && Elapsed(readings[i], endTime) >= LatchMicros
    ensures WaitPolls(readings, endTime).Some?
    ensures WaitPolls(readings, endTime).value - 1 <= i
    ensures Elapsed(readings[WaitPolls(readings, endTime).value - 1], endTime) >= LatchMicros
  {
  }

  /** When the latch time has already passed, the loop ends at its first reading. */
  lemma NoWaitAfterLatch(readings: seq<U32>, endTime: U32)
    requires |readings| >= 1 && Elapsed(readings[0], endTime) >= LatchMicros
    ensures WaitPolls(readings, endTime) == Some(1)
  {
  }
}
