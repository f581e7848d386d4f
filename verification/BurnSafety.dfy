/**
 What every interleaving keeps: where the pins can be HIGH and why, how often the valve rises, and where the clock
 samples lie.
 */
module BurnSafety {
  import opened Clock
  import opened BurnProtocol

  /** Between the igniter write and the first shutdown write. */
  predicate InLoop(pc: MonitorPc) {
    (pc == LoopTest || pc == ValveTest || pc == PressureTest || pc == IgnitionTest || pc == Sleeping || pc == Resample)
  }

  predicate RaisesValve(c: Config, s: State, e: Event) {
    e == Mon && OpensValve(c, s)
  }

  /** The monitor executes the instruction at pc. */
  predicate At(pc: MonitorPc, s: State, e: Event) {
    e == Mon && s.pc == pc
  }

  /** STOP is still writing its pins only while the burn signal is off. */
  predicate CommandInv(s: State) {
    s.cmd == StopValve || s.cmd == StopIgniter ==> !s.ignitionOn
  }

  predicate PinInv(s: State) {
    && (s.Valve() ==> s.mainOpen && (InLoop(s.pc) || s.pc == CloseValve))
    && (s.Igniter() ==> InLoop(s.pc) || (s.pc == CloseValve || s.pc == CloseIgniter))
  }

  lemma {:induction false} CommandInvHolds(c: Config, ss: seq<State>, es: seq<Event>, j: nat)
    requires IsRun(c, ss, es) && Init(c, ss[0]) && j <= |es|
    ensures CommandInv(ss[j])
  {
    if j > 0 {
      CommandInvHolds(c, ss, es, j - 1);
      assert StepAt(c, ss, es, j - 1);
    }
  }

  lemma {:induction false} PinInvStep(c: Config, s: State, e: Event, now: Timestamp)
    requires Enabled(s, e) && !ManualSet(e) && PinInv(s)
    ensures PinInv(NextAt(c, s, e, now))
  {
    match e
    case Mon =>
    case Receive(_) =>
    case _ =>
  }

  /** Without manual SETs, a HIGH pin means the monitor is between its raise and its shutdown write. */
  lemma {:induction false} PinsContained(c: Config, ss: seq<State>, es: seq<Event>, j: nat)
    requires IsRun(c, ss, es) && Init(c, ss[0]) && j <= |es| && None(ManualSet, es, 0, j)
    ensures PinInv(ss[j])
    ensures ss[j].Waiting() ==> ss[j].PinsLow()
  {
    if j > 0 {
      PinsContained(c, ss, es, j - 1);
      assert StepAt(c, ss, es, j - 1);
      PinInvStep(c, ss[j - 1], es[j - 1], NowMs(c, ss[j - 1]));
    }
  }

  /** The monitor raised the valve at i and has not reached its shutdown write of the valve before j. */
  ghost predicate ValveHeld(c: Config, ss: seq<State>, es: seq<Event>, i: nat, j: nat)
    requires i < j <= |es| && |ss| == |es| + 1
  {
    RaisesValve(c, ss[i], es[i]) && forall k :: i < k < j ==> !At(CloseValve, ss[k], es[k])
  }

  /** The same for the igniter. */
  ghost predicate IgniterHeld(ss: seq<State>, es: seq<Event>, i: nat, j: nat)
    requires i < j <= |es| && |ss| == |es| + 1
  {
    At(RaiseIgniter, ss[i], es[i]) && forall k :: i < k < j ==> !At(CloseIgniter, ss[k], es[k])
  }

  lemma {:induction false} PinSteps(c: Config, s: State, e: Event, now: Timestamp)
    requires Enabled(s, e) && !ManualSet(e)
    ensures NextAt(c, s, e, now).Valve() ==> RaisesValve(c, s, e) || (s.Valve() && !At(CloseValve, s, e))
    ensures NextAt(c, s, e, now).Igniter() ==> At(RaiseIgniter, s, e) || (s.Igniter() && !At(CloseIgniter, s, e))
  {
    match e
    case Mon =>
    case Receive(_) =>
    case _ =>
  }

  /** A HIGH valve goes back to a raise by the monitor that no shutdown write has followed. */
  lemma {:induction false} ValveHasCause(c: Config, ss: seq<State>, es: seq<Event>, j: nat)
    requires IsRun(c, ss, es) && !ss[0].Valve() && j <= |es| && None(ManualSet, es, 0, j)
    requires ss[j].Valve()
    ensures exists i :: 0 <= i < j && ValveHeld(c, ss, es, i, j)
  {
    assert StepAt(c, ss, es, j - 1);
    PinSteps(c, ss[j - 1], es[j - 1], NowMs(c, ss[j - 1]));
    if RaisesValve(c, ss[j - 1], es[j - 1]) {
      assert ValveHeld(c, ss, es, j - 1, j);
    } else {
      ValveHasCause(c, ss, es, j - 1);
      var i :| 0 <= i < j - 1 && ValveHeld(c, ss, es, i, j - 1);
      assert ValveHeld(c, ss, es, i, j);
    }
  }

  /** The same for the igniter. */
  lemma {:induction false} IgniterHasCause(c: Config, ss: seq<State>, es: seq<Event>, j: nat)
    requires IsRun(c, ss, es) && !ss[0].Igniter() && j <= |es| && None(ManualSet, es, 0, j)
    requires ss[j].Igniter()
    ensures exists i :: 0 <= i < j && IgniterHeld(ss, es, i, j)
  {
    assert StepAt(c, ss, es, j - 1);
    PinSteps(c, ss[j - 1], es[j - 1], NowMs(c, ss[j - 1]));
    if At(RaiseIgniter, ss[j - 1], es[j - 1]) {
      assert IgniterHeld(ss, es, j - 1, j);
    } else {
      IgniterHasCause(c, ss, es, j - 1);
      var i :| 0 <= i < j - 1 && IgniterHeld(ss, es, i, j - 1);
      assert IgniterHeld(ss, es, i, j);
    }
  }

  /** The monitor leaves its polling loop because it saw the burn signal. */
  predicate BeginsBurn(s: State, e: Event) {
    e == Mon && s.pc == Wait && s.ignitionOn
  }

  lemma {:induction false} MainOpenStays(c: Config, ss: seq<State>, es: seq<Event>, i: nat, k: nat)
    requires IsRun(c, ss, es) && i <= k <= |es| && ss[i].mainOpen
    requires forall m :: i <= m < k ==> !At(ClearMainOpen, ss[m], es[m])
    ensures ss[k].mainOpen
  {
    if i < k {
      MainOpenStays(c, ss, es, i, k - 1);
      assert StepAt(c, ss, es, k - 1);
    }
  }

  lemma {:induction false} StillWaiting(c: Config, ss: seq<State>, es: seq<Event>, i: nat, k: nat)
    requires IsRun(c, ss, es) && i <= k <= |es| && ss[i].Waiting()
    requires forall m :: i <= m < k ==> !At(SampleStart, ss[m], es[m])
    ensures ss[k].Waiting() || ss[k].pc == SampleStart
  {
    if i < k {
      StillWaiting(c, ss, es, i, k - 1);
      assert StepAt(c, ss, es, k - 1);
    }
  }

  /** Two raises of the valve belong to different burns, from any state and whatever the commands. */
  lemma {:induction false} ValveRaisedOncePerBurn(c: Config, ss: seq<State>, es: seq<Event>, i: nat, k: nat)
    requires IsRun(c, ss, es) && i < k < |es|
    requires RaisesValve(c, ss[i], es[i]) && RaisesValve(c, ss[k], es[k])
    ensures exists m, b :: i < m < b < k && At(ClearMainOpen, ss[m], es[m]) && At(SampleStart, ss[b], es[b])
  {
    assert StepAt(c, ss, es, i);
    if forall m :: i + 1 <= m < k ==> !At(ClearMainOpen, ss[m], es[m]) {
      MainOpenStays(c, ss, es, i + 1, k);
    } else {
      var m :| i + 1 <= m < k && At(ClearMainOpen, ss[m], es[m]);
      assert StepAt(c, ss, es, m);
      if forall b :: m + 1 <= b < k ==> !At(SampleStart, ss[b], es[b]) {
        StillWaiting(c, ss, es, m + 1, k);
      }
    }
  }

  // ---- the clock ----

  /** The monitor has sampled the clock for the burn it is in. */
  predicate Sampled(pc: MonitorPc) {
    (pc != Wait && pc != Nap && pc != SampleStart)
  }

  predicate ClockInv(c: Config, s: State) {
    && c.startTime <= s.clock
    && (s.pc == Sleeping || s.pc == Nap ==> s.wakeAt <= s.clock + IGN_CHECK_NS)
    && (Sampled(s.pc) ==> s.initTime + s.elapsed <= ElapsedMs(s.clock, c.startTime))
  }

  lemma {:induction false} ClockStep(c: Config, s: State, e: Event)
    requires ClockInv(c, s) && Enabled(s, e)
    ensures ClockInv(c, Next(c, s, e))
  {
    match e
    case Tick(ns) => SampleDifference(s.clock, s.clock + ns, c.startTime);
    case Mon => MonitorClockStep(c, s, NowMs(c, s));
    case _ =>
  }

  lemma {:induction false} MonitorClockStep(c: Config, s: State, now: Timestamp)
    requires ClockInv(c, s) && Enabled(s, Mon) && now == NowMs(c, s)
    ensures ClockInv(c, MonNext(c, s, now))
  {
    if s.pc == Resample {
      assert MonNext(c, s, now).elapsed == now - s.initTime;
    }
  }

  lemma {:induction false} ClockInvHolds(c: Config, ss: seq<State>, es: seq<Event>, j: nat)
    requires IsRun(c, ss, es) && ClockInv(c, ss[0]) && j <= |es|
    ensures ClockInv(c, ss[j])
  {
    if j > 0 {
      ClockInvHolds(c, ss, es, j - 1);
      assert StepAt(c, ss, es, j - 1);
      ClockStep(c, ss[j - 1], es[j - 1]);
    }
  }
}
