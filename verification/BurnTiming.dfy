/** When the main valve opens and closes during an undisturbed burn, and how long a burn can last. */
module BurnTiming {
  import opened Clock
  import opened BurnProtocol
  import opened BurnSafety
  import opened BurnStop

  predicate InBurn(pc: MonitorPc) {
    pc == RaiseIgniter || InLoop(pc)
  }

  /** The burn whose clock is sampled at b has not ended before j. */
  ghost predicate BurnUntil(ss: seq<State>, es: seq<Event>, b: nat, j: nat) {
    && b < j <= |es| < |ss|
    && At(SampleStart, ss[b], es[b])
    && forall k :: b < k < j ==> InBurn(ss[k].pc)
  }

  // ---- undisturbed burns ----

  /** A manual command that writes the main valve. */
  predicate ValveWrite(e: Event) {
    e == Receive(0) || e == Receive(1)
  }

  /** A pressure test that ends the burn. */
  predicate TripsAt(c: Config, s: State, e: Event) {
    At(PressureTest, s, e) && s.elapsed > c.shutoffDelay && c.shutoffEnabled && s.pressureShutoff
  }

  /** Nothing stops the burn between b and j: no STOP, no manual write of the valve, no pressure test that ends it. */
  ghost predicate Undisturbed(c: Config, ss: seq<State>, es: seq<Event>, b: nat, j: nat)
    requires j <= |es| < |ss|
  {
    && None(IsStop, es, b, j) && None(ValveWrite, es, b, j)
    && forall k :: b <= k < j ==> !TripsAt(c, ss[k], es[k])
  }

  /** Consecutive samples of the elapsed time between b and j are at most gap apart. */
  ghost predicate GapsAtMost(ss: seq<State>, es: seq<Event>, b: nat, j: nat, gap: nat)
    requires j <= |es| < |ss|
  {
    forall k :: b <= k < j && At(Resample, ss[k], es[k]) ==> ss[k + 1].elapsed <= ss[k].elapsed + gap
  }

  predicate TimingInv(c: Config, gap: nat, s: State) {
    && s.ignitionOn && s.cmd != StopValve && s.cmd != StopIgniter
    && s.Valve() == s.mainOpen
    && match s.pc
       case RaiseIgniter => s.elapsed == 0 && !s.mainOpen
       case LoopTest => s.elapsed < c.hotflow + gap && (s.mainOpen || s.elapsed <= c.preignite + gap)
       case ValveTest => s.elapsed < c.hotflow && (s.mainOpen || s.elapsed <= c.preignite + gap)
       case PressureTest | IgnitionTest | Sleeping | Resample =>
         s.elapsed < c.hotflow && (s.mainOpen || s.elapsed <= c.preignite)
       case CloseValve => c.hotflow <= s.elapsed < c.hotflow + gap && s.mainOpen
       case _ => false
  }

  lemma {:induction false} TimingStart(c: Config, gap: nat, s: State, now: Timestamp)
    requires s.pc == SampleStart && s.ignitionOn && !s.mainOpen && !s.Valve() && CommandInv(s)
    ensures TimingInv(c, gap, MonNext(c, s, now)) && !MonNext(c, s, now).Valve()
  {
  }

  lemma {:induction false} TimingStep(c: Config, gap: nat, s: State, e: Event, now: Timestamp)
    requires Enabled(s, e) && TimingInv(c, gap, s) && InBurn(s.pc) && c.preignite + gap < c.hotflow
    requires !IsStop(e) && !ValveWrite(e) && !TripsAt(c, s, e)
    requires At(Resample, s, e) ==> NextAt(c, s, e, now).elapsed <= s.elapsed + gap
    ensures TimingInv(c, gap, NextAt(c, s, e, now))
    ensures NextAt(c, s, e, now).Valve() ==> s.Valve() || (RaisesValve(c, s, e) && s.elapsed <= c.preignite + gap)
    ensures s.Valve() ==> NextAt(c, s, e, now).Valve()
  {
  }

  /** The valve is LOW from b to o, opens there within gap of the preignite time, and is HIGH from then to j. */
  ghost predicate OpensAt(c: Config, gap: nat, ss: seq<State>, es: seq<Event>, b: nat, o: nat, j: nat)
    requires j <= |es| < |ss|
  {
    && b < o < j
    && RaisesValve(c, ss[o], es[o]) && c.preignite < ss[o].elapsed <= c.preignite + gap
    && (forall k :: b <= k <= o ==> !ss[k].Valve())
    && (forall k :: o < k <= j ==> ss[k].Valve())
  }

  /** An undisturbed burn in a run of the program. */
  ghost predicate UndisturbedBurn(c: Config, gap: nat, ss: seq<State>, es: seq<Event>, b: nat, j: nat) {
    && IsRun(c, ss, es) && Init(c, ss[0]) && BurnUntil(ss, es, b, j) && ss[b].ignitionOn
    && Undisturbed(c, ss, es, b, j) && GapsAtMost(ss, es, b, j, gap) && c.preignite + gap < c.hotflow
  }

  /** Such a burn from an unopened valve. */
  ghost predicate CleanBurn(c: Config, gap: nat, ss: seq<State>, es: seq<Event>, b: nat, j: nat) {
    UndisturbedBurn(c, gap, ss, es, b, j) && !ss[b].mainOpen && !ss[b].Valve()
  }

  lemma {:induction false} TimingKept(c: Config, gap: nat, ss: seq<State>, es: seq<Event>, b: nat, j: nat)
    requires CleanBurn(c, gap, ss, es, b, j)
    ensures TimingInv(c, gap, ss[j])
    ensures b + 1 == j ==> !ss[j].Valve()
    ensures b + 1 < j && ss[j].Valve() ==>
              ss[j - 1].Valve() || (RaisesValve(c, ss[j - 1], es[j - 1]) && ss[j - 1].elapsed <= c.preignite + gap)
    ensures b + 1 < j && ss[j - 1].Valve() ==> ss[j].Valve()
  {
    assert StepAt(c, ss, es, j - 1);
    if b + 1 == j {
      CommandInvHolds(c, ss, es, b);
      TimingStart(c, gap, ss[b], NowMs(c, ss[b]));
    } else {
      TimingKept(c, gap, ss, es, b, j - 1);
      TimingStep(c, gap, ss[j - 1], es[j - 1], NowMs(c, ss[j - 1]));
    }
  }

  lemma {:induction false} OpenedOnce(c: Config, gap: nat, ss: seq<State>, es: seq<Event>, b: nat, j: nat)
    requires CleanBurn(c, gap, ss, es, b, j)
    ensures !ss[j].Valve() ==> forall k :: b <= k <= j ==> !ss[k].Valve()
    ensures ss[j].Valve() ==> exists o: nat :: OpensAt(c, gap, ss, es, b, o, j)
  {
    TimingKept(c, gap, ss, es, b, j);
    if b + 1 < j {
      OpenedOnce(c, gap, ss, es, b, j - 1);
      if ss[j - 1].Valve() {
        var o: nat :| OpensAt(c, gap, ss, es, b, o, j - 1);
        assert OpensAt(c, gap, ss, es, b, o, j);
      } else if ss[j].Valve() {
        assert OpensAt(c, gap, ss, es, b, j - 1, j);
      }
    }
  }

  /**
   An undisturbed burn opens the valve at a sample in (preignite, preignite + gap] and closes it at one in
   [hotflow, hotflow + gap); in between the valve is HIGH, and before it LOW.
   */
  lemma {:induction false} BurnOpensAndCloses(c: Config, gap: nat, ss: seq<State>, es: seq<Event>, b: nat, q: nat)
    requires CleanBurn(c, gap, ss, es, b, q) && ss[q].pc == CloseValve
    ensures c.hotflow <= ss[q].elapsed < c.hotflow + gap
    ensures exists o: nat :: && OpensAt(c, gap, ss, es, b, o, q)
                             && c.hotflow - c.preignite - gap <= ss[q].elapsed - ss[o].elapsed
                             && ss[q].elapsed - ss[o].elapsed < c.hotflow - c.preignite + gap
  {
    TimingKept(c, gap, ss, es, b, q);
    OpenedOnce(c, gap, ss, es, b, q);
    var o: nat :| OpensAt(c, gap, ss, es, b, o, q);
  }

  /** After a completed burn the valve counts as unopened whenever a burn begins, from any state of the program. */
  lemma {:induction false} MainOpenCleared(c: Config, ss: seq<State>, es: seq<Event>, m: nat, b: nat)
    requires IsRun(c, ss, es) && m < b <= |es| && At(ClearMainOpen, ss[m], es[m])
    requires ss[b].Waiting() || ss[b].pc == SampleStart || ss[b].pc == RaiseIgniter
    ensures !ss[b].mainOpen
    decreases b
  {
    assert StepAt(c, ss, es, b - 1);
    if m < b - 1 && !At(ClearMainOpen, ss[b - 1], es[b - 1]) {
      MainOpenCleared(c, ss, es, m, b - 1);
    }
  }

  /** So every undisturbed burn after a completed one opens and closes the valve, whatever mainOpen was at the start. */
  lemma {:induction false} LaterBurnOpensAndCloses(c: Config, gap: nat, ss: seq<State>, es: seq<Event>,
                                                   m: nat, b: nat, q: nat)
    requires UndisturbedBurn(c, gap, ss, es, b, q) && ss[q].pc == CloseValve
    requires m < b && At(ClearMainOpen, ss[m], es[m])
    requires !ss[b].Valve() || None(ManualSet, es, 0, b)
    ensures c.hotflow <= ss[q].elapsed < c.hotflow + gap
    ensures exists o: nat :: && OpensAt(c, gap, ss, es, b, o, q)
                             && c.hotflow - c.preignite - gap <= ss[q].elapsed - ss[o].elapsed
                             && ss[q].elapsed - ss[o].elapsed < c.hotflow - c.preignite + gap
  {
    MainOpenCleared(c, ss, es, m, b);
    if None(ManualSet, es, 0, b) {
      PinsContained(c, ss, es, b);
    }
    BurnOpensAndCloses(c, gap, ss, es, b, q);
  }

  /** Shutoff is disabled, or the flag is not set at any pressure test past the delay. */
  ghost predicate NoShutoff(c: Config, ss: seq<State>, es: seq<Event>, b: nat, q: nat)
    requires q <= |es| < |ss|
  {
    c.shutoffEnabled ==>
      forall k :: b <= k < q && At(PressureTest, ss[k], es[k]) && ss[k].elapsed > c.shutoffDelay ==>
                    !ss[k].pressureShutoff
  }

  /** Without STOP, a burn runs to its burn time then, whatever the pins, the valve variable and the flag are before. */
  lemma {:induction false} RunsToBurnTime(c: Config, ss: seq<State>, es: seq<Event>, b: nat, q: nat)
    requires IsRun(c, ss, es) && BurnUntil(ss, es, b, q) && ss[b].ignitionOn && None(IsStop, es, b, q)
    requires NoShutoff(c, ss, es, b, q)
    ensures ss[q].ignitionOn
    ensures InBurn(ss[q].pc) || (ss[q].pc == CloseValve && ss[q].elapsed >= c.hotflow)
  {
    assert StepAt(c, ss, es, q - 1);
    if b + 1 < q {
      RunsToBurnTime(c, ss, es, b, q - 1);
    }
  }

  // ---- real time ----

  predicate Asleep(pc: MonitorPc) {
    pc == Nap || pc == Sleeping
  }

  /** Each sleep of the monitor, polling or in the loop, takes at least 50 ms of real time. */
  lemma {:induction false} SleepLasts(c: Config, ss: seq<State>, es: seq<Event>, i: nat, k: nat)
    requires IsRun(c, ss, es) && i < k < |es| && !Asleep(ss[i].pc) && es[k] == Mon
    requires forall m :: i < m <= k ==> Asleep(ss[m].pc)
    ensures ss[k].clock - ss[i].clock >= 50_000_000
  {
    WakeUpKept(c, ss, es, i, k);
    assert StepAt(c, ss, es, k);
  }

  lemma {:induction false} WakeUpKept(c: Config, ss: seq<State>, es: seq<Event>, i: nat, k: nat)
    requires IsRun(c, ss, es) && i < k <= |es| && !Asleep(ss[i].pc) && forall m :: i < m <= k ==> Asleep(ss[m].pc)
    ensures ss[k].wakeAt == ss[i].clock + IGN_CHECK_NS
  {
    assert StepAt(c, ss, es, k - 1);
    if i + 1 < k {
      WakeUpKept(c, ss, es, i, k - 1);
    }
  }

  predicate Samples(s: State, e: Event) {
    At(Resample, s, e)
  }

  predicate Iterates(s: State, e: Event) {
    At(ValveTest, s, e)
  }

  /** After n samples and m iterations of a burn sampled at time t0. */
  predicate PaceInv(c: Config, s: State, t0: Timestamp, n: nat, m: nat) {
    && c.startTime <= t0 && t0 + n * IGN_CHECK_NS <= s.clock
    && s.initTime == ElapsedMs(t0, c.startTime) && 50 * n <= s.elapsed
    && (s.pc == Sleeping ==> t0 + (n + 1) * IGN_CHECK_NS <= s.wakeAt)
    && (s.pc == Resample ==> t0 + (n + 1) * IGN_CHECK_NS <= s.clock)
    && ((s.pc == RaiseIgniter || s.pc == LoopTest) ==> m == n)
    && (s.pc == ValveTest ==> m == n && 50 * m < c.hotflow)
    && ((s.pc == PressureTest || s.pc == IgnitionTest || s.pc == Sleeping || s.pc == Resample) ==> m == n + 1)
    && (m > 0 ==> 50 * (m - 1) < c.hotflow)
  }

  lemma {:induction false} PaceStep(c: Config, s: State, e: Event, t0: Timestamp, n: nat, m: nat)
    requires Enabled(s, e) && PaceInv(c, s, t0, n, m) && InBurn(s.pc)
    ensures PaceInv(c, Next(c, s, e), t0, n + (if Samples(s, e) then 1 else 0), m + (if Iterates(s, e) then 1 else 0))
  {
    if Samples(s, e) {
      SampleKeepsPace(c, s, t0, n, m);
    } else {
      OtherStepKeepsPace(c, s, e, t0, ElapsedMs(t0, c.startTime), n, m, NowMs(c, s));
    }
  }

  lemma {:induction false} SampleKeepsPace(c: Config, s: State, t0: Timestamp, n: nat, m: nat)
    requires s.pc == Resample && PaceInv(c, s, t0, n, m)
    ensures PaceInv(c, MonNext(c, s, NowMs(c, s)), t0, n + 1, m)
  {
    WholeMillisecondsCount(t0, s.clock, c.startTime, 50 * (n + 1));
  }

  lemma {:induction false} OtherStepKeepsPace(c: Config, s: State, e: Event, t0: Timestamp, start: Timestamp,
                                              n: nat, m: nat, now: Timestamp)
    requires Enabled(s, e) && PaceInv(c, s, t0, n, m) && InBurn(s.pc) && !Samples(s, e)
    requires start == ElapsedMs(t0, c.startTime)
    ensures PaceInv(c, NextAt(c, s, e, now), t0, n, m + (if Iterates(s, e) then 1 else 0))
  {
  }

  lemma {:induction false} PaceKept(c: Config, ss: seq<State>, es: seq<Event>, b: nat, j: nat)
    requires IsRun(c, ss, es) && Init(c, ss[0]) && BurnUntil(ss, es, b, j)
    ensures PaceInv(c, ss[j], ss[b].clock, Count(Samples, ss, es, b, j), Count(Iterates, ss, es, b, j))
  {
    assert StepAt(c, ss, es, j - 1);
    if b + 1 == j {
      ClockInvHolds(c, ss, es, b);
      assert Count(Samples, ss, es, b, b) == 0 && Count(Iterates, ss, es, b, b) == 0;
    } else {
      PaceKept(c, ss, es, b, j - 1);
      PaceStep(c, ss[j - 1], es[j - 1], ss[b].clock,
               Count(Samples, ss, es, b, j - 1), Count(Iterates, ss, es, b, j - 1));
    }
  }

  /** The k-th sample of a burn is at least 50 k, so a burn has at most hotflow / 50 iterations, rounded up. */
  lemma {:induction false} BurnIsBounded(c: Config, ss: seq<State>, es: seq<Event>, b: nat, j: nat)
    requires IsRun(c, ss, es) && Init(c, ss[0]) && BurnUntil(ss, es, b, j)
    ensures 50 * Count(Samples, ss, es, b, j) <= ss[j].elapsed
    ensures Count(Iterates, ss, es, b, j) <= (c.hotflow + 49) / 50
  {
    PaceKept(c, ss, es, b, j);
  }

  // ---- every burn ends ----

  /** The burn whose clock is sampled at b has not returned to waiting before j. */
  ghost predicate BusyUntil(ss: seq<State>, es: seq<Event>, b: nat, j: nat) {
    && b < j <= |es| < |ss|
    && At(SampleStart, ss[b], es[b])
    && forall k :: b < k < j ==> !ss[k].Waiting()
  }

  lemma {:induction false} NoWayBack(c: Config, s: State, e: Event, now: Timestamp)
    requires Enabled(s, e) && !s.Waiting() && s.pc != SampleStart
    ensures var t := NextAt(c, s, e, now);
            (InBurn(t.pc) ==> InBurn(s.pc)) && t.pc != SampleStart && t.pc != Nap
  {
  }

  lemma {:induction false} BurnThenShutdown(c: Config, ss: seq<State>, es: seq<Event>, b: nat, j: nat)
    requires IsRun(c, ss, es) && BusyUntil(ss, es, b, j)
    ensures InBurn(ss[j].pc) ==> BurnUntil(ss, es, b, j)
    ensures ss[j].pc != SampleStart && ss[j].pc != Nap
  {
    assert StepAt(c, ss, es, j - 1);
    if b + 1 < j {
      BurnThenShutdown(c, ss, es, b, j - 1);
      NoWayBack(c, ss[j - 1], es[j - 1], NowMs(c, ss[j - 1]));
    }
  }

  lemma {:induction false} IterationsBounded(c: Config, ss: seq<State>, es: seq<Event>, b: nat, j: nat)
    requires IsRun(c, ss, es) && Init(c, ss[0]) && BusyUntil(ss, es, b, j)
    ensures Count(Iterates, ss, es, b, j) <= (c.hotflow + 49) / 50
  {
    if b + 1 < j {
      BurnThenShutdown(c, ss, es, b, j - 1);
    }
    if b + 1 < j && !InBurn(ss[j - 1].pc) {
      IterationsBounded(c, ss, es, b, j - 1);
    } else {
      assert BurnUntil(ss, es, b, j);
      BurnIsBounded(c, ss, es, b, j);
    }
  }

  /** The monitor steps of a burn up to pc, less six for each iteration begun. */
  function Spent(pc: MonitorPc): int {
    match pc
    case PressureTest => -2
    case IgnitionTest => -1
    case Sleeping => 0
    case RaiseIgniter | Resample => 1
    case LoopTest => 2
    case ValveTest | CloseValve => 3
    case CloseIgniter => 4
    case ClearIgnition => 5
    case ClearMainOpen => 6
    case _ => 7
  }

  lemma {:induction false} SpentStep(c: Config, s: State, e: Event, now: Timestamp)
    requires Enabled(s, e) && !s.Waiting() && s.pc != SampleStart
    ensures Spent(s.pc) + (if e == Mon then 1 else 0)
            <= Spent(NextAt(c, s, e, now).pc) + (if Iterates(s, e) then 6 else 0)
  {
  }

  lemma {:induction false} StepsSpent(c: Config, ss: seq<State>, es: seq<Event>, b: nat, j: nat)
    requires IsRun(c, ss, es) && BusyUntil(ss, es, b, j)
    ensures Count(MonStep, ss, es, b, j) <= Spent(ss[j].pc) + 6 * Count(Iterates, ss, es, b, j)
  {
    assert StepAt(c, ss, es, j - 1);
    if b + 1 == j {
      assert Count(MonStep, ss, es, b, b) == 0 && Count(Iterates, ss, es, b, b) == 0;
    } else {
      StepsSpent(c, ss, es, b, j - 1);
      BurnThenShutdown(c, ss, es, b, j - 1);
      SpentStep(c, ss[j - 1], es[j - 1], NowMs(c, ss[j - 1]));
    }
  }

  /** Two steps to the loop, six for each iteration, the last loop test and the four of the shutdown. */
  function StepBound(c: Config): nat {
    7 + 6 * ((c.hotflow + 49) / 50)
  }

  /** Every burn, however it ends and whatever the commands, is back to waiting within that many monitor steps. */
  lemma {:induction false} EveryBurnEnds(c: Config, ss: seq<State>, es: seq<Event>, b: nat, j: nat)
    requires IsRun(c, ss, es) && Init(c, ss[0]) && b < j <= |es| && At(SampleStart, ss[b], es[b])
    ensures Count(MonStep, ss, es, b, j) >= StepBound(c) ==> exists k :: b < k <= j && ss[k].Waiting()
    ensures (forall k :: b < k < j ==> !ss[k].Waiting()) ==> Count(MonStep, ss, es, b, j) <= StepBound(c)
  {
    if BusyUntil(ss, es, b, j) {
      BurnThenShutdown(c, ss, es, b, j);
      StepsSpent(c, ss, es, b, j);
      IterationsBounded(c, ss, es, b, j);
    }
  }

  // ---- the delay of the valve ----

  /** The valve never opens before preignite milliseconds of real time since the sampled start of the burn. */
  lemma {:induction false} ValveOpensLate(c: Config, ss: seq<State>, es: seq<Event>, b: nat, o: nat)
    requires IsRun(c, ss, es) && Init(c, ss[0]) && BurnUntil(ss, es, b, o) && o < |es|
    requires RaisesValve(c, ss[o], es[o])
    ensures ss[o].clock - ss[b].clock > c.preignite * NS_PER_MS
  {
    PaceKept(c, ss, es, b, o);
    ClockInvHolds(c, ss, es, o);
    SampleDifference(ss[b].clock, ss[o].clock, c.startTime);
  }
}
