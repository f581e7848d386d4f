/** The process clock: elapsed time since the recorded start, in unsigned 64-bit arithmetic. */
module Clock {
  const TWO_64: int := 0x1_0000_0000_0000_0000
  const NS_PER_MS: int := 1_000_000

  /** A uint64_t count of nanoseconds, microseconds or milliseconds. */
  type Timestamp = t: int | 0 <= t < TWO_64

  /** Subtraction of two uint64_t values, with wrap-around. */
  function SubU64(a: Timestamp, b: Timestamp): Timestamp {
    if b <= a then a - b else TWO_64 + a - b
  }

  /** Subtraction undoes addition modulo 2^64. */
  lemma {:induction false} SubtractionModulo(a: Timestamp, b: Timestamp)
    ensures (b + SubU64(a, b)) % 0x1_0000_0000_0000_0000 == a
  {
  }

  function ElapsedNs(clock: Timestamp, startTime: Timestamp): Timestamp {
    SubU64(clock, startTime)
  }

  function ElapsedUs(clock: Timestamp, startTime: Timestamp): Timestamp {
    ElapsedNs(clock, startTime) / 1000
  }

  function ElapsedMs(clock: Timestamp, startTime: Timestamp): Timestamp {
    ElapsedUs(clock, startTime) / 1000
  }

  // ---- the recorded start ----

  /** The first clock value of a sequence that is not 0; 0 when there is none. */
  function FirstNonZero(clocks: seq<Timestamp>): Timestamp {
    if clocks == [] then 0 else if clocks[0] != 0 then clocks[0] else FirstNonZero(clocks[1..])
  }

  /** What the first non-zero clock value is. */
  lemma {:induction false} FirstNonZeroAt(clocks: seq<Timestamp>, i: nat)
    requires i <= |clocks| && forall j :: 0 <= j < i ==> clocks[j] == 0
    ensures i < |clocks| && clocks[i] != 0 ==> FirstNonZero(clocks) == clocks[i]
    ensures i == |clocks| ==> FirstNonZero(clocks) == 0
  {
    if i > 0 {
      FirstNonZeroAt(clocks[1..], i - 1);
    }
  }

  /** Once a start is recorded no later call moves it. */
  lemma {:induction false} StartNeverMoves(clocks: seq<Timestamp>, more: seq<Timestamp>)
    ensures FirstNonZero(clocks + more)
            == if FirstNonZero(clocks) != 0 then FirstNonZero(clocks) else FirstNonZero(more)
  {
    if clocks == [] {
      assert clocks + more == more;
    } else {
      assert (clocks + more)[1..] == clocks[1..] + more;
      StartNeverMoves(clocks[1..], more);
    }
  }

  /** On a clock that has not run backwards the recorded start is not in the future, so elapsed times do not wrap. */
  lemma {:induction false} StartIsPast(clocks: seq<Timestamp>, now: Timestamp)
    requires forall i :: 0 <= i < |clocks| ==> clocks[i] <= now
    ensures FirstNonZero(clocks) <= now
    ensures ElapsedNs(now, FirstNonZero(clocks)) == now - FirstNonZero(clocks)
  {
    if clocks != [] {
      StartIsPast(clocks[1..], now);
    }
  }

  /** The static start time of the process; clocks are the clock values at the calls so far, in order. */
  class Stopwatch {
    var startTime: Timestamp
    ghost var clocks: seq<Timestamp>

    ghost predicate Valid()
      reads this
    {
      startTime == FirstNonZero(clocks)
    }

    constructor ()
      ensures Valid() && clocks == []
    {
      startTime, clocks := 0, [];
    }

    /** Over any sequence of calls the first non-zero clock value is the one kept. */
    method SetStartTime(clock: Timestamp)
      requires Valid()
      modifies this
      ensures Valid() && clocks == old(clocks) + [clock]
      ensures forall i :: 0 <= i < |clocks| && clocks[i] != 0 && (forall j :: 0 <= j < i ==> clocks[j] == 0) ==>
                startTime == clocks[i]
      ensures (forall i :: 0 <= i < |clocks| ==> clocks[i] == 0) ==> startTime == 0
    {
      StartNeverMoves(clocks, [clock]);
      if startTime == 0 {
        startTime := ElapsedNs(clock, startTime);
      }
      clocks := clocks + [clock];
      forall i | 0 <= i < |clocks| && clocks[i] != 0 && forall j :: 0 <= j < i ==> clocks[j] == 0
        ensures startTime == clocks[i]
      {
        FirstNonZeroAt(clocks, i);
      }
      if forall i :: 0 <= i < |clocks| ==> clocks[i] == 0 {
        FirstNonZeroAt(clocks, |clocks|);
      }
    }
  }

  /** The two nested truncating divisions are one division by a million. */
  lemma {:induction false} NestedDivision(ns: nat)
    ensures ns / 1000 / 1000 == ns / NS_PER_MS
  {
    var q, r := ns / NS_PER_MS, ns % NS_PER_MS;
    assert ns == 1000 * (1000 * q) + r;
    assert ns / 1000 == 1000 * q + r / 1000;
  }

  /** On a clock that has not passed its start by 2^64 ns, milliseconds are the floor of the true elapsed time. */
  lemma {:induction false} ElapsedMsIsFloor(clock: Timestamp, startTime: Timestamp)
    requires startTime <= clock
    ensures ElapsedMs(clock, startTime) * NS_PER_MS <= clock - startTime
    ensures clock - startTime < (ElapsedMs(clock, startTime) + 1) * NS_PER_MS
  {
    NestedDivision(clock - startTime);
  }

  /** The difference of two millisecond samples brackets the real time between them, strictly on both sides. */
  lemma {:induction false} SampleDifference(t0: Timestamp, t1: Timestamp, startTime: Timestamp)
    requires startTime <= t0 <= t1
    ensures ElapsedMs(t0, startTime) <= ElapsedMs(t1, startTime)
    ensures var d := SubU64(ElapsedMs(t1, startTime), ElapsedMs(t0, startTime));
            && d == ElapsedMs(t1, startTime) - ElapsedMs(t0, startTime)
            && (d - 1) * NS_PER_MS < t1 - t0 < (d + 1) * NS_PER_MS
  {
    ElapsedMsIsFloor(t0, startTime);
    ElapsedMsIsFloor(t1, startTime);
    assert (ElapsedMs(t0, startTime) - ElapsedMs(t1, startTime)) * NS_PER_MS < NS_PER_MS;
  }

  /** A whole number of milliseconds of real time is never lost to truncation. */
  lemma {:induction false} WholeMillisecondsCount(t0: Timestamp, t1: Timestamp, startTime: Timestamp, ms: nat)
    requires startTime <= t0 && t0 + ms * NS_PER_MS <= t1
    ensures ElapsedMs(t0, startTime) + ms <= ElapsedMs(t1, startTime)
  {
    ElapsedMsIsFloor(t0, startTime);
    ElapsedMsIsFloor(t1, startTime);
  }

  /** A tick of a whole number of milliseconds moves the millisecond clock by exactly that number. */
  lemma {:induction false} ExactMilliseconds(clock: Timestamp, startTime: Timestamp, ms: nat)
    requires startTime <= clock && clock + ms * NS_PER_MS < TWO_64
    ensures ElapsedMs(clock + ms * NS_PER_MS, startTime) == ElapsedMs(clock, startTime) + ms
  {
    WholeMillisecondsCount(clock, clock + ms * NS_PER_MS, startTime, ms);
    SampleDifference(clock, clock + ms * NS_PER_MS, startTime);
  }
}
