/** What a STOP guarantees, and exactly when it keeps the pins LOW. */
module BurnStop {
  import opened Clock
  import opened BurnProtocol
  import opened BurnSafety
  import opened BurnRuns

  /** How many instructions the monitor has left once the burn signal is off and stays off. */
  function Rank(pc: MonitorPc): (r: nat)
    ensures r <= 10
    ensures r == 0 <==> pc == Wait || pc == Nap
  {
    match pc
    case Wait | Nap => 0
    case ClearMainOpen => 1
    case ClearIgnition => 2
    case CloseIgniter => 3
    case CloseValve => 4
    case IgnitionTest => 5
    case PressureTest => 6
    case ValveTest => 7
    case LoopTest => 8
    case RaiseIgniter | Resample => 9
    case SampleStart | Sleeping => 10
  }

  predicate MonStep(s: State, e: Event) {
    e == Mon
  }

  lemma {:induction false} RankStep(c: Config, s: State, e: Event, now: Timestamp)
    requires Enabled(s, e) && !s.ignitionOn && !IsStart(e)
    ensures !NextAt(c, s, e, now).ignitionOn
    ensures Rank(NextAt(c, s, e, now).pc) + (if BusyStep(s, e) then 1 else 0) <= Rank(s.pc)
  {
  }

  lemma {:induction false} RankDrains(c: Config, ss: seq<State>, es: seq<Event>, i: nat, j: nat)
    requires IsRun(c, ss, es) && i <= j <= |es| && !ss[i].ignitionOn && None(IsStart, es, i, j)
    ensures !ss[j].ignitionOn
    ensures Rank(ss[j].pc) + Count(BusyStep, ss, es, i, j) <= Rank(ss[i].pc)
    ensures !ss[j].Waiting() ==> Count(MonStep, ss, es, i, j) == Count(BusyStep, ss, es, i, j)
  {
    if i < j {
      RankDrains(c, ss, es, i, j - 1);
      assert StepAt(c, ss, es, j - 1);
      RankStep(c, ss[j - 1], es[j - 1], NowMs(c, ss[j - 1]));
    }
  }

  /**
   After a STOP's first store and with no later START, at most ten monitor steps remain in the burn,
   and after ten monitor steps the monitor waits.
   */
  lemma {:induction false} StopEndsBurn(c: Config, ss: seq<State>, es: seq<Event>, i: nat, j: nat)
    requires IsRun(c, ss, es) && i < j <= |es| && IsStop(es[i]) && None(IsStart, es, i + 1, j)
    ensures Count(BusyStep, ss, es, i + 1, j) <= 10
    ensures Count(MonStep, ss, es, i + 1, j) >= 10 ==> ss[j].Waiting() && !ss[j].ignitionOn
  {
    assert !ss[i + 1].ignitionOn by {
      assert StepAt(c, ss, es, i);
    }
    RankDrains(c, ss, es, i + 1, j);
  }

  /** No instruction of the burn is executed twice after a STOP: at most one more sleep and one raise of each pin. */
  lemma {:induction false} StopRepeatsNothing(c: Config, ss: seq<State>, es: seq<Event>, i: nat, k: nat, m: nat)
    requires IsRun(c, ss, es) && i < k < m < |es| && IsStop(es[i]) && None(IsStart, es, i + 1, m)
    requires BusyStep(ss[k], es[k])
    ensures ss[k].pc != ss[m].pc
  {
    assert StepAt(c, ss, es, i);
    RankDrains(c, ss, es, i + 1, k);
    assert StepAt(c, ss, es, k);
    RankStep(c, ss[k], es[k], NowMs(c, ss[k]));
    RankDrains(c, ss, es, k + 1, m);
  }

  /** A pin that STOP has written is HIGH again only while the monitor still has its own shutdown write before it. */
  predicate WrittenPins(s: State) {
    && (s.cmd != StopValve && s.Valve() ==> InLoop(s.pc) || s.pc == CloseValve)
    && (s.cmd == Idle && s.Igniter() ==> InLoop(s.pc) || s.pc == CloseValve || s.pc == CloseIgniter)
  }

  predicate StartOrSet(e: Event) {
    IsStart(e) || ManualSet(e)
  }

  lemma {:induction false} WrittenPinsStep(c: Config, s: State, e: Event, now: Timestamp)
    requires Enabled(s, e) && !StartOrSet(e) && s.cmd != ClearShutoff && WrittenPins(s)
    ensures NextAt(c, s, e, now).cmd != ClearShutoff && WrittenPins(NextAt(c, s, e, now))
  {
    match e
    case Mon =>
    case Receive(_) =>
    case _ =>
  }

  lemma {:induction false} WrittenPinsKept(c: Config, ss: seq<State>, es: seq<Event>, i: nat, j: nat)
    requires IsRun(c, ss, es) && i < j <= |es| && IsStop(es[i]) && None(StartOrSet, es, i + 1, j)
    ensures ss[j].cmd != ClearShutoff && WrittenPins(ss[j])
  {
    assert StepAt(c, ss, es, j - 1);
    if i + 1 < j {
      WrittenPinsKept(c, ss, es, i, j - 1);
      WrittenPinsStep(c, ss[j - 1], es[j - 1], NowMs(c, ss[j - 1]));
    }
  }

  lemma {:induction false} PinInvKept(c: Config, ss: seq<State>, es: seq<Event>, i: nat, j: nat)
    requires IsRun(c, ss, es) && i <= j <= |es| && PinInv(ss[i]) && None(ManualSet, es, i, j)
    ensures PinInv(ss[j])
  {
    if i < j {
      PinInvKept(c, ss, es, i, j - 1);
      assert StepAt(c, ss, es, j - 1);
      PinInvStep(c, ss[j - 1], es[j - 1], NowMs(c, ss[j - 1]));
    }
  }

  /**
   Whatever manual commands did before, in whatever state STOP is received: with no START or manual SET after it, the
   stand waits with both pins LOW after ten monitor steps and STOP's own writes. Those writes are not even needed
   when the pins were the monitor's own.
   */
  lemma {:induction false} StopMakesStandSafe(c: Config, ss: seq<State>, es: seq<Event>, i: nat, j: nat)
    requires IsRun(c, ss, es) && i < j <= |es| && IsStop(es[i]) && None(StartOrSet, es, i + 1, j)
    requires Count(MonStep, ss, es, i + 1, j) >= 10
    ensures ss[j].Waiting() && !ss[j].ignitionOn
    ensures ss[j].cmd == Idle || PinInv(ss[i]) ==> ss[j].PinsLow()
  {
    StopEndsBurn(c, ss, es, i, j);
    WrittenPinsKept(c, ss, es, i, j);
    if PinInv(ss[i]) {
      PinInvKept(c, ss, es, i, j);
    }
  }

  /** The monitor is never stuck: either it can step now or it can once the clock reaches its wake-up time. */
  lemma {:induction false} MonitorNeverBlocks(c: Config, s: State)
    requires ClockInv(c, s) && s.clock + IGN_CHECK_NS < TWO_64
    ensures exists ns: nat :: Enabled(s, Tick(ns)) && Enabled(Next(c, s, Tick(ns)), Mon)
  {
    var ns: nat := if s.wakeAt <= s.clock || !(s.pc == Sleeping || s.pc == Nap) then 0 else s.wakeAt - s.clock;
    assert Enabled(s, Tick(ns)) && Enabled(Next(c, s, Tick(ns)), Mon);
  }

  // ---- exactly when STOP keeps the pins LOW ----

  /** STOP's three actions are done: its last pin write at i. */
  lemma {:induction false} StopIsDone(c: Config, ss: seq<State>, es: seq<Event>, i: nat)
    requires IsRun(c, ss, es) && Init(c, ss[0]) && i < |es|
    requires es[i] == Cmd && ss[i].cmd == StopIgniter
    ensures StopDone(c, ss[i + 1])
  {
    CommandInvHolds(c, ss, es, i);
    ClockInvHolds(c, ss, es, i);
    assert StepAt(c, ss, es, i);
    ClockStep(c, ss[i], es[i]);
  }

  predicate StopDone(c: Config, s: State) {
    !s.ignitionOn && s.cmd == Idle && ClockInv(c, s)
  }

  /** No instruction left before the monitor reads the burn signal can raise a pin. */
  predicate Quiet(c: Config, s: State) {
    QuietFrom(c, s, EarliestSample(c, s))
  }

  predicate QuietFrom(c: Config, s: State, earliest: int) {
    && s.PinsLow()
    && match s.pc
       case SampleStart | RaiseIgniter => false
       case LoopTest => s.mainOpen || s.elapsed <= c.preignite || s.elapsed >= c.hotflow
       case ValveTest => s.mainOpen || s.elapsed <= c.preignite
       case Sleeping | Resample => s.mainOpen || c.hotflow <= c.preignite + 1 || earliest >= c.hotflow
       case _ => true
  }

  /** The claim that both pins stay LOW once STOP is done. */
  ghost predicate StaysLow(c: Config, s: State) {
    forall ss: seq<State>, es: seq<Event> :: Continues(c, s, StartOrSet, ss, es) ==> ss[|es|].PinsLow()
  }

  lemma {:induction false} QuietTick(c: Config, s: State, ns: nat)
    requires Quiet(c, s) && ClockInv(c, s) && s.clock + ns < TWO_64
    ensures Quiet(c, s.(clock := s.clock + ns))
  {
    assert EarliestSample(c, s) <= EarliestSample(c, s.(clock := s.clock + ns));
  }

  /** Every other step of any thread, for whatever the earliest next sample is. */
  lemma {:induction false} QuietOtherwise(c: Config, s: State, e: Event, now: Timestamp, earliest: int)
    requires QuietFrom(c, s, earliest) && !s.ignitionOn && Enabled(s, e) && !StartOrSet(e) && !e.Tick?
    requires At(Resample, s, e) ==> MonNext(c, s, now).elapsed == earliest
    ensures QuietFrom(c, NextAt(c, s, e, now), earliest)
  {
    match e
    case Mon => QuietMon(c, s, now, earliest);
    case _ =>
  }

  lemma {:induction false} QuietMon(c: Config, s: State, now: Timestamp, earliest: int)
    requires QuietFrom(c, s, earliest) && !s.ignitionOn && Enabled(s, Mon)
    requires s.pc == Resample ==> MonNext(c, s, now).elapsed == earliest
    ensures QuietFrom(c, MonNext(c, s, now), earliest)
  {
  }

  lemma {:induction false} QuietStep(c: Config, s: State, e: Event)
    requires Quiet(c, s) && !s.ignitionOn && ClockInv(c, s)
    requires Enabled(s, e) && !StartOrSet(e)
    ensures Quiet(c, Next(c, s, e))
  {
    if e.Tick? {
      QuietTick(c, s, e.ns);
    } else {
      if At(Resample, s, e) {
        ResampleIsEarliest(c, s);
      }
      QuietOtherwise(c, s, e, NowMs(c, s), EarliestSample(c, s));
      if s.pc == Sleeping || s.pc == Resample {
        SampleTimeKept(c, s, e);
      } else {
        NeverBackToSleep(c, s, e, NowMs(c, s));
      }
    }
  }

  /** With the burn signal off the monitor does not go to sleep in the loop. */
  lemma {:induction false} NeverBackToSleep(c: Config, s: State, e: Event, now: Timestamp)
    requires Enabled(s, e) && !s.ignitionOn && !StartOrSet(e) && s.pc != Sleeping && s.pc != Resample
    ensures NextAt(c, s, e, now).pc != Sleeping && NextAt(c, s, e, now).pc != Resample
  {
  }

  lemma {:induction false} QuietKept(c: Config, ss: seq<State>, es: seq<Event>, j: nat)
    requires IsRun(c, ss, es) && j <= |es| && Quiet(c, ss[0]) && !ss[0].ignitionOn && ClockInv(c, ss[0])
    requires None(StartOrSet, es, 0, j)
    ensures Quiet(c, ss[j]) && !ss[j].ignitionOn
  {
    if j > 0 {
      QuietKept(c, ss, es, j - 1);
      ClockInvHolds(c, ss, es, j - 1);
      assert StepAt(c, ss, es, j - 1);
      QuietStep(c, ss[j - 1], es[j - 1]);
    }
  }

  lemma {:induction false} PulsePossible(c: Config, s: State, p: Event -> bool) returns (ss: seq<State>, es: seq<Event>)
    requires StopDone(c, s) && s.clock + (c.hotflow + 50) * NS_PER_MS < TWO_64 && OnlyCommands(p)
    requires !Quiet(c, s)
    ensures Continues(c, s, p, ss, es) && !ss[|es|].PinsLow()
  {
    ss, es := [s], [];
    if s.PinsLow() {
      match s.pc
      case SampleStart =>
        ss, es := Extend(c, s, p, ss, es, Mon);
        ss, es := Extend(c, s, p, ss, es, Mon);
      case RaiseIgniter =>
        ss, es := Extend(c, s, p, ss, es, Mon);
      case ValveTest =>
        ss, es := Extend(c, s, p, ss, es, Mon);
      case LoopTest =>
        ss, es := Extend(c, s, p, ss, es, Mon);
        ss, es := Extend(c, s, p, ss, es, Mon);
      case Sleeping | Resample =>
        ss, es := WakeAndOpen(c, s, p, ss, es);
    }
  }

  /**
   Once STOP is done the pins stay LOW through every continuation exactly when the state is Quiet. The valve
   test comes before the ignition test, so a monitor that wakes from a sleep can still open the valve once.
   */
  lemma {:induction false} StopKeepsPinsLowExactly(c: Config, s: State)
    requires StopDone(c, s) && s.clock + (c.hotflow + 50) * NS_PER_MS < TWO_64
    ensures StaysLow(c, s) <==> Quiet(c, s)
  {
    if Quiet(c, s) {
      forall ss: seq<State>, es: seq<Event> | Continues(c, s, StartOrSet, ss, es)
        ensures ss[|es|].PinsLow()
      {
        QuietKept(c, ss, es, |es|);
      }
    } else {
      var ss, es := PulsePossible(c, s, StartOrSet);
      assert Continues(c, s, StartOrSet, ss, es);
    }
  }

  /** A run from s without manual writes whose last command is a STOP, done at q; the valve is HIGH at its end. */
  ghost predicate PulseAfterStop(c: Config, s: State, ss: seq<State>, es: seq<Event>, q: nat) {
    && IsRun(c, ss, es) && ss[0] == s && 0 < q <= |es|
    && es[q - 1] == Cmd && ss[q - 1].cmd == StopIgniter
    && None(ManualWrite, es, 0, |es|) && None(IsCommand, es, q, |es|)
    && StopDone(c, ss[q]) && ss[q].PinsLow() && !Quiet(c, ss[q])
    && ss[|es|].Valve()
  }

  predicate IsCommand(e: Event) {
    e.Receive?
  }

  /** The program has such runs from its start: START, one pass of the loop, STOP, and the valve rises after all. */
  lemma {:induction false} StopCanPulse(c: Config, s: State)
    requires Init(c, s) && !s.mainOpen && c.hotflow > 50 && c.hotflow > c.preignite + 1
    requires s.clock + (c.hotflow + 50) * NS_PER_MS < TWO_64
    ensures exists ss: seq<State>, es: seq<Event>, q: nat :: PulseAfterStop(c, s, ss, es, q)
  {
    var ss0, es0 := FirstPass(c, s, ManualWrite);
    ss0, es0 := SendStop(c, s, ManualWrite, ss0, es0);
    var q, t := |es0|, ss0[|es0|];
    ClockInvHolds(c, ss0, es0, q);
    SleepsFifty(c, t);
    var ss1, es1 := WakeAndOpen(c, t, IsCommand, [t], []);
    var ss, es := Join(c, ss0, es0, ss1, es1);
    forall k | q <= k < |es| ensures !IsCommand(es[k]) {
      assert es[k] == es1[k - q];
    }
    assert None(ManualWrite, es, 0, |es|) by {
      assert forall k :: 0 <= k < q ==> es[k] == es0[k];
    }
    assert ss[q - 1] == ss0[q - 1] && ss[q] == t;
    assert PulseAfterStop(c, s, ss, es, q);
  }
}
