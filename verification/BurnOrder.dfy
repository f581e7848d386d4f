/** Igniter before valve: exactly which states keep that order, and how a STOP and a START can break it. */
module BurnOrder {
  import opened Clock
  import opened BurnProtocol
  import opened BurnSafety
  import opened BurnRuns

  predicate Ordered(s: State) {
    s.Valve() ==> s.Igniter()
  }

  /** STOP still has a pin to write. */
  predicate StopPending(s: State) {
    s.cmd == StopValve || s.cmd == StopIgniter
  }

  predicate StopOrWrite(e: Event) {
    IsStop(e) || ManualWrite(e)
  }

  /** The claim that the valve is HIGH only with the igniter HIGH, until a STOP or a manual write. */
  ghost predicate StaysOrdered(c: Config, s: State) {
    forall ss: seq<State>, es: seq<Event> :: Continues(c, s, StopOrWrite, ss, es) ==> Ordered(ss[|es|])
  }

  /** The earliest value the next sample of the elapsed time in the burn can have. */
  function NextSample(c: Config, s: State): int {
    if s.pc == Sleeping || s.pc == Resample then EarliestSample(c, s)
    else if s.pc == SampleStart then 50
    else (s.clock + IGN_CHECK_NS - c.startTime) / NS_PER_MS - s.initTime
  }

  /** Some sample from next on lies between the preignite time and the burn time. */
  predicate Pulse(c: Config, next: int) {
    c.preignite + 1 < c.hotflow && next < c.hotflow
  }

  /** The monitor can open the valve in the burn it is in. */
  predicate CanOpen(c: Config, s: State, next: int) {
    && !s.mainOpen
    && match s.pc
       case RaiseIgniter | LoopTest => s.elapsed < c.hotflow && (s.elapsed > c.preignite || Pulse(c, next))
       case ValveTest => s.elapsed > c.preignite || Pulse(c, next)
       case SampleStart | PressureTest | IgnitionTest | Sleeping | Resample => Pulse(c, next)
       case _ => false
  }

  /** The igniter is HIGH, or will be by the time of the first pass, and no STOP is about to switch it off. */
  predicate Lit(s: State) {
    !StopPending(s) && (s.Igniter() || s.pc == SampleStart || s.pc == RaiseIgniter)
  }

  /** No instruction of the monitor or of a pending STOP can leave the valve HIGH without the igniter. */
  predicate LeadSafe(c: Config, s: State) {
    LeadSafeFrom(c, s, NextSample(c, s))
  }

  predicate LeadSafeFrom(c: Config, s: State, next: int) {
    && Ordered(s)
    && (s.Valve() ==> s.cmd != StopIgniter && s.pc != CloseIgniter)
    && (CanOpen(c, s, next) ==> Lit(s))
  }

  // ---- such states keep the order ----

  predicate Busy(pc: MonitorPc) {
    pc == SampleStart || pc == RaiseIgniter || InLoop(pc)
  }

  lemma {:induction false} StartSampleLater(c: Config, s: State, now: Timestamp)
    requires s.pc == SampleStart && c.startTime <= s.clock && now == NowMs(c, s)
    ensures NextSample(c, MonNext(c, s, now)) == 50
  {
    NestedDivision(s.clock - c.startTime);
    assert (s.clock - c.startTime + IGN_CHECK_NS) / NS_PER_MS == (s.clock - c.startTime) / NS_PER_MS + 50;
  }

  /** The next sample never comes earlier than foreseen. */
  lemma {:induction false} NextSampleLater(c: Config, s: State, e: Event)
    requires ClockInv(c, s) && Enabled(s, e) && Busy(s.pc) && Busy(Next(c, s, e).pc)
    ensures NextSample(c, s) <= NextSample(c, Next(c, s, e))
  {
    if !e.Tick? {
      if s.pc == Sleeping {
        SampleTimeKept(c, s, e);
      } else if s.pc == Resample {
        ResampleIsEarliest(c, s);
      } else if At(SampleStart, s, e) {
        StartSampleLater(c, s, NowMs(c, s));
      }
    }
  }

  lemma {:induction false} LeadMon(c: Config, s: State, now: Timestamp, next: int, next': int)
    requires LeadSafeFrom(c, s, next) && CommandInv(s) && Enabled(s, Mon)
    requires s.pc == Resample ==> MonNext(c, s, now).elapsed == next
    requires Busy(s.pc) && Busy(NextPc(c, s)) ==> next <= next'
    ensures LeadSafeFrom(c, MonNext(c, s, now), next')
  {
  }

  lemma {:induction false} LeadOther(c: Config, s: State, e: Event, now: Timestamp, next: int, next': int)
    requires LeadSafeFrom(c, s, next) && Enabled(s, e) && !StopOrWrite(e) && e != Mon
    requires Busy(s.pc) ==> next <= next'
    ensures LeadSafeFrom(c, NextAt(c, s, e, now), next')
  {
  }

  lemma {:induction false} LeadKept(c: Config, ss: seq<State>, es: seq<Event>, i: nat, j: nat)
    requires IsRun(c, ss, es) && i <= j <= |es| && None(StopOrWrite, es, i, j)
    requires LeadSafe(c, ss[i]) && CommandInv(ss[i]) && ClockInv(c, ss[i])
    ensures LeadSafe(c, ss[j]) && CommandInv(ss[j]) && ClockInv(c, ss[j])
  {
    if i < j {
      LeadKept(c, ss, es, i, j - 1);
      assert StepAt(c, ss, es, j - 1);
      LeadNext(c, ss[j - 1], es[j - 1]);
    }
  }

  lemma {:induction false} LeadNext(c: Config, s: State, e: Event)
    requires LeadSafe(c, s) && CommandInv(s) && ClockInv(c, s) && Enabled(s, e) && !StopOrWrite(e)
    ensures LeadSafe(c, Next(c, s, e)) && CommandInv(Next(c, s, e)) && ClockInv(c, Next(c, s, e))
  {
    ClockStep(c, s, e);
    if At(Resample, s, e) {
      ResampleIsEarliest(c, s);
    }
    if Busy(s.pc) && Busy(Next(c, s, e).pc) {
      NextSampleLater(c, s, e);
    }
    if e == Mon {
      LeadMon(c, s, NowMs(c, s), NextSample(c, s), NextSample(c, Next(c, s, e)));
    } else {
      LeadOther(c, s, e, NowMs(c, s), NextSample(c, s), NextSample(c, Next(c, s, e)));
    }
  }

  // ---- all others can lose it ----

  /** The burn under way reaches its loop. */
  lemma {:induction false} ReachLoop(c: Config, s: State) returns (ss: seq<State>, es: seq<Event>)
    requires ClockInv(c, s) && CanOpen(c, s, NextSample(c, s)) && !Lit(s)
    requires Ordered(s) && !(s.Valve() && s.cmd == StopIgniter)
    ensures Continues(c, s, StopOrWrite, ss, es)
    ensures var t := ss[|es|];
            && InLoop(t.pc) && t.clock == s.clock && t.cmd == s.cmd && ClockInv(c, t) && CanOpen(c, t, NextSample(c, t))
            && (StopPending(t) || !t.Igniter()) && (t.Valve() ==> t.cmd == StopValve)
  {
    ss, es := [s], [];
    if s.pc == SampleStart {
      StartSampleLater(c, s, NowMs(c, s));
      ClockStep(c, s, Mon);
      ss, es := Extend(c, s, StopOrWrite, ss, es, Mon);
    }
    if s.pc == SampleStart || s.pc == RaiseIgniter {
      ClockStep(c, ss[|es|], Mon);
      ss, es := Extend(c, s, StopOrWrite, ss, es, Mon);
    }
  }

  /** The commands finish: a pending STOP switches the pins off, then START keeps the burn going. */
  lemma {:induction false} Darken(c: Config, s: State, ss0: seq<State>, es0: seq<Event>)
    returns (ss: seq<State>, es: seq<Event>)
    requires Continues(c, s, StopOrWrite, ss0, es0)
    requires var t := ss0[|es0|]; (StopPending(t) || !t.Igniter()) && (t.Valve() ==> t.cmd == StopValve)
    ensures Continues(c, s, StopOrWrite, ss, es)
    ensures ss[|es|] == ss0[|es0|].SetValve(false).SetIgniter(false)
                        .(ignitionOn := true, pressureShutoff := false, cmd := Idle)
  {
    ss, es := ss0, es0;
    if ss0[|es0|].cmd == StopValve {
      ss, es := Extend(c, s, StopOrWrite, ss, es, Cmd);
    }
    if ss0[|es0|].cmd != Idle {
      ss, es := Extend(c, s, StopOrWrite, ss, es, Cmd);
    }
    ss, es := SendStart(c, s, StopOrWrite, ss, es);
  }

  /** How many monitor steps lead from pc to the sleep of the same pass. */
  function StepsToSleep(pc: MonitorPc): nat {
    match pc
    case LoopTest => 4
    case ValveTest => 3
    case PressureTest => 2
    case IgnitionTest => 1
    case _ => 0
  }

  /** In the dark, a state the monitor cannot use to open the valve in this pass is followed by a sleep. */
  lemma {:induction false} GoToSleep(c: Config, s: State, ss0: seq<State>, es0: seq<Event>)
    returns (ss: seq<State>, es: seq<Event>)
    requires Continues(c, s, StopOrWrite, ss0, es0)
    requires var t := ss0[|es0|];
             && InLoop(t.pc) && t.ignitionOn && !t.pressureShutoff && !t.mainOpen && ClockInv(c, t)
             && (t.pc == LoopTest ==> t.elapsed < c.hotflow)
             && (t.pc == LoopTest || t.pc == ValveTest ==> t.elapsed <= c.preignite)
    ensures Continues(c, s, StopOrWrite, ss, es)
    ensures var t, u := ss0[|es0|], ss[|es|];
            && (u.pc == Sleeping || u.pc == Resample) && u == t.(pc := u.pc, wakeAt := u.wakeAt)
            && EarliestSample(c, u) == NextSample(c, t) && ClockInv(c, u)
    decreases StepsToSleep(ss0[|es0|].pc)
  {
    ss, es := ss0, es0;
    if ss0[|es0|].pc != Sleeping && ss0[|es0|].pc != Resample {
      ss, es := Extend(c, s, StopOrWrite, ss, es, Mon);
      ss, es := GoToSleep(c, s, ss, es);
    }
  }

  lemma {:induction false} OpenInTheDark(c: Config, s: State, ss0: seq<State>, es0: seq<Event>)
    returns (ss: seq<State>, es: seq<Event>)
    requires Continues(c, s, StopOrWrite, ss0, es0)
    requires var t := ss0[|es0|];
             && InLoop(t.pc) && t.PinsLow() && t.ignitionOn && !t.pressureShutoff && ClockInv(c, t)
             && CanOpen(c, t, NextSample(c, t)) && t.clock + (c.hotflow + 50) * NS_PER_MS < TWO_64
    ensures Continues(c, s, StopOrWrite, ss, es) && !Ordered(ss[|es|])
  {
    var t := ss0[|es0|];
    ss, es := ss0, es0;
    if (t.pc == LoopTest || t.pc == ValveTest) && t.elapsed > c.preignite {
      if t.pc == LoopTest {
        ss, es := Extend(c, s, StopOrWrite, ss, es, Mon);
      }
      ss, es := Extend(c, s, StopOrWrite, ss, es, Mon);
    } else {
      ss, es := GoToSleep(c, s, ss, es);
      ss, es := WakeAndOpen(c, s, StopOrWrite, ss, es);
    }
  }

  lemma {:induction false} LagPossible(c: Config, s: State) returns (ss: seq<State>, es: seq<Event>)
    requires ClockInv(c, s) && s.clock + (c.hotflow + 50) * NS_PER_MS < TWO_64 && !LeadSafe(c, s)
    ensures Continues(c, s, StopOrWrite, ss, es) && !Ordered(ss[|es|])
  {
    ss, es := [s], [];
    if Ordered(s) {
      if s.Valve() && s.cmd == StopIgniter {
        ss, es := Extend(c, s, StopOrWrite, ss, es, Cmd);
      } else if s.Valve() && s.pc == CloseIgniter {
        ss, es := Extend(c, s, StopOrWrite, ss, es, Mon);
      } else {
        ss, es := ReachLoop(c, s);
        ss, es := Darken(c, s, ss, es);
        ss, es := OpenInTheDark(c, s, ss, es);
      }
    }
  }

  /**
   In every continuation without STOP and manual writes the valve is HIGH only with the igniter HIGH, if and only if the
   state is LeadSafe: whatever the program counters, the pins, the flags and the uninitialised mainOpen are.
   */
  lemma {:induction false} OrderKeptExactly(c: Config, s: State)
    requires ClockInv(c, s) && CommandInv(s) && s.clock + (c.hotflow + 50) * NS_PER_MS < TWO_64
    ensures StaysOrdered(c, s) <==> LeadSafe(c, s)
  {
    if LeadSafe(c, s) {
      forall ss: seq<State>, es: seq<Event> | Continues(c, s, StopOrWrite, ss, es)
        ensures Ordered(ss[|es|])
      {
        LeadKept(c, ss, es, 0, |es|);
      }
    } else {
      var ss, es := LagPossible(c, s);
      assert Continues(c, s, StopOrWrite, ss, es);
    }
  }

  // ---- in runs of the program ----

  /**
   With no STOP and no manual write since a burn began, an open valve has a lit igniter, also during shutdown and later
   burns, unless manual commands had the valve HIGH and the igniter LOW when the burn began.
   */
  lemma {:induction false} IgniterLeadsValve(c: Config, ss: seq<State>, es: seq<Event>, b: nat, j: nat)
    requires IsRun(c, ss, es) && Init(c, ss[0]) && b <= j <= |es| && b < |es|
    requires BeginsBurn(ss[b], es[b]) && None(StopOrWrite, es, b, j)
    ensures Ordered(ss[b]) ==> Ordered(ss[j])
  {
    CommandInvHolds(c, ss, es, b);
    ClockInvHolds(c, ss, es, b);
    if Ordered(ss[b]) {
      LeadKept(c, ss, es, b, j);
    }
  }

  /** START, one pass of the loop, then STOP and START inside one sleep: the valve opens with the igniter LOW. */
  lemma {:induction false} StopThenStartLags(c: Config, s: State)
    requires Init(c, s) && !s.mainOpen && c.hotflow > 50 && c.hotflow > c.preignite + 1
    requires s.clock + (c.hotflow + 50) * NS_PER_MS < TWO_64
    ensures exists ss: seq<State>, es: seq<Event> :: Continues(c, s, ManualWrite, ss, es) && !Ordered(ss[|es|])
  {
    var ss, es := FirstPass(c, s, ManualWrite);
    ss, es := SendStop(c, s, ManualWrite, ss, es);
    ss, es := SendStart(c, s, ManualWrite, ss, es);
    SleepsFifty(c, ss[|es|]);
    ss, es := WakeAndOpen(c, s, ManualWrite, ss, es);
    assert Continues(c, s, ManualWrite, ss, es);
  }
}
