/** Building runs event by event, to show what the program can do. */
module BurnRuns {
  import opened Clock
  import opened BurnProtocol
  import opened BurnSafety

  /** Only command bytes satisfy p. */
  ghost predicate OnlyCommands(p: Event -> bool) {
    forall e: Event :: p(e) ==> e.Receive?
  }

  /** The monitor's steps and the passing of time do not satisfy p. */
  ghost predicate AllowsMonitor(p: Event -> bool) {
    !p(Mon) && forall ns: nat :: !p(Tick(ns))
  }

  /** A run from s without events p. */
  ghost predicate Continues(c: Config, s: State, p: Event -> bool, ss: seq<State>, es: seq<Event>) {
    IsRun(c, ss, es) && ss[0] == s && None(p, es, 0, |es|)
  }

  /** One more enabled event. */
  lemma {:induction false} Extend(c: Config, s: State, p: Event -> bool, ss: seq<State>, es: seq<Event>, e: Event)
    returns (ss': seq<State>, es': seq<Event>)
    requires Continues(c, s, p, ss, es) && Enabled(ss[|es|], e) && !p(e)
    ensures Continues(c, s, p, ss', es') && |es'| == |es| + 1
    ensures es'[|es|] == e && ss'[|es|] == ss[|es|] && ss'[|es'|] == Next(c, ss[|es|], e)
  {
    ss', es' := ss + [Next(c, ss[|es|], e)], es + [e];
    forall i | 0 <= i < |es'| ensures StepAt(c, ss', es', i) {
      assert i < |es| ==> StepAt(c, ss, es, i);
    }
  }

  /** One run after another. */
  lemma {:induction false} Join(c: Config, ss0: seq<State>, es0: seq<Event>, ss1: seq<State>, es1: seq<Event>)
    returns (ss: seq<State>, es: seq<Event>)
    requires IsRun(c, ss0, es0) && IsRun(c, ss1, es1) && ss1[0] == ss0[|es0|]
    ensures IsRun(c, ss, es) && es == es0 + es1 && ss[..|ss0|] == ss0 && ss[|es|] == ss1[|es1|]
  {
    ss, es := ss0 + ss1[1..], es0 + es1;
    forall i | 0 <= i < |es| ensures StepAt(c, ss, es, i) {
      if i < |es0| {
        assert StepAt(c, ss0, es0, i);
      } else {
        assert StepAt(c, ss1, es1, i - |es0|);
      }
    }
  }

  /** START on an idle command thread. */
  lemma {:induction false} SendStart(c: Config, s: State, p: Event -> bool, ss0: seq<State>, es0: seq<Event>)
    returns (ss: seq<State>, es: seq<Event>)
    requires Continues(c, s, p, ss0, es0) && OnlyCommands(p) && !p(Receive(START_IGNITION)) && ss0[|es0|].cmd == Idle
    ensures Continues(c, s, p, ss, es) && ss[|es|] == ss0[|es0|].(ignitionOn := true, pressureShutoff := false)
  {
    ss, es := Extend(c, s, p, ss0, es0, Receive(START_IGNITION));
    ss, es := Extend(c, s, p, ss, es, Cmd);
  }

  /** STOP on an idle command thread, up to its last write. */
  lemma {:induction false} SendStop(c: Config, s: State, p: Event -> bool, ss0: seq<State>, es0: seq<Event>)
    returns (ss: seq<State>, es: seq<Event>)
    requires Continues(c, s, p, ss0, es0) && OnlyCommands(p) && !p(Receive(STOP_IGNITION)) && ss0[|es0|].cmd == Idle
    ensures Continues(c, s, p, ss, es) && ss[|es|] == ss0[|es0|].SetValve(false).SetIgniter(false).(ignitionOn := false)
    ensures es != [] && es[|es| - 1] == Cmd && ss[|es| - 1].cmd == StopIgniter
  {
    ss, es := Extend(c, s, p, ss0, es0, Receive(STOP_IGNITION));
    ss, es := Extend(c, s, p, ss, es, Cmd);
    ss, es := Extend(c, s, p, ss, es, Cmd);
  }

  /** A monitor that sees the burn signal goes to its loop. */
  lemma {:induction false} Ignite(c: Config, s: State, p: Event -> bool, ss0: seq<State>, es0: seq<Event>)
    returns (ss: seq<State>, es: seq<Event>)
    requires Continues(c, s, p, ss0, es0) && AllowsMonitor(p) && ss0[|es0|].pc == Wait && ss0[|es0|].ignitionOn
    ensures Continues(c, s, p, ss, es)
    ensures var t := ss0[|es0|]; ss[|es|] == t.SetIgniter(true).(pc := LoopTest, initTime := NowMs(c, t), elapsed := 0)
  {
    ss, es := Extend(c, s, p, ss0, es0, Mon);
    ss, es := Extend(c, s, p, ss, es, Mon);
    ss, es := Extend(c, s, p, ss, es, Mon);
  }

  /** The first pass of a burn, up to its sleep. */
  lemma {:induction false} PassToSleep(c: Config, s: State, p: Event -> bool, ss0: seq<State>, es0: seq<Event>)
    returns (ss: seq<State>, es: seq<Event>)
    requires Continues(c, s, p, ss0, es0) && AllowsMonitor(p) && ss0[|es0|].pc == Wait && ss0[|es0|].ignitionOn
    requires c.hotflow > 0
    ensures Continues(c, s, p, ss, es)
    ensures var t := ss0[|es0|];
            ss[|es|] == t.SetIgniter(true).(pc := Sleeping, initTime := NowMs(c, t), elapsed := 0,
                                            wakeAt := t.clock + IGN_CHECK_NS)
  {
    ss, es := Ignite(c, s, p, ss0, es0);
    ss, es := Extend(c, s, p, ss, es, Mon);
    ss, es := Extend(c, s, p, ss, es, Mon);
    ss, es := Extend(c, s, p, ss, es, Mon);
    ss, es := Extend(c, s, p, ss, es, Mon);
  }

  /** START in a start state, and the first pass of its burn. */
  lemma {:induction false} FirstPass(c: Config, s: State, p: Event -> bool) returns (ss: seq<State>, es: seq<Event>)
    requires Init(c, s) && c.hotflow > 0 && OnlyCommands(p) && !p(Receive(START_IGNITION))
    ensures Continues(c, s, p, ss, es)
    ensures ss[|es|] == s.SetIgniter(true).(ignitionOn := true, pc := Sleeping,
                          initTime := NowMs(c, s), elapsed := 0, wakeAt := s.clock + IGN_CHECK_NS)
  {
    ss, es := SendStart(c, s, p, [s], []);
    ss, es := PassToSleep(c, s, p, ss, es);
  }

  // ---- the next sample of the elapsed time ----

  /** The earliest value the sample after a sleep can have. */
  function EarliestSample(c: Config, s: State): int {
    var t := if s.pc == Sleeping && s.clock < s.wakeAt then s.wakeAt else s.clock;
    (t - c.startTime) / NS_PER_MS - s.initTime
  }

  lemma {:induction false} ResampleIsEarliest(c: Config, s: State)
    requires ClockInv(c, s) && s.pc == Resample
    ensures MonNext(c, s, NowMs(c, s)).elapsed == EarliestSample(c, s)
  {
    NestedDivision(s.clock - c.startTime);
  }

  lemma {:induction false} SampleTimeKept(c: Config, s: State, e: Event)
    requires Enabled(s, e) && !e.Tick? && (s.pc == Sleeping || s.pc == Resample)
    ensures var t := Next(c, s, e);
            t.pc == Sleeping || t.pc == Resample ==> EarliestSample(c, t) == EarliestSample(c, s)
  {
    var t := Next(c, s, e);
    assert t.clock == s.clock && t.initTime == s.initTime;
    assert s.pc == Sleeping ==> t.wakeAt == s.wakeAt;
  }

  /** A monitor that has just gone to sleep on its first pass samples 50 ms next. */
  lemma {:induction false} SleepsFifty(c: Config, t: State)
    requires t.pc == Sleeping && c.startTime <= t.clock && t.wakeAt == t.clock + IGN_CHECK_NS < TWO_64
    requires t.initTime == NowMs(c, t)
    ensures EarliestSample(c, t) == 50
  {
    ExactMilliseconds(t.clock, c.startTime, 50);
    NestedDivision(t.wakeAt - c.startTime);
  }

  /** Sleeping no longer than needed before the clock is read. */
  lemma {:induction false} WakeUp(c: Config, s: State, p: Event -> bool, ss0: seq<State>, es0: seq<Event>)
    returns (ss: seq<State>, es: seq<Event>)
    requires Continues(c, s, p, ss0, es0) && AllowsMonitor(p)
    requires var t := ss0[|es0|];
             (t.pc == Sleeping || t.pc == Resample) && ClockInv(c, t) && t.clock + IGN_CHECK_NS < TWO_64
    ensures Continues(c, s, p, ss, es)
    ensures var t, u := ss0[|es0|], ss[|es|];
            && u == t.(pc := Resample, clock := u.clock) && t.clock <= u.clock <= t.clock + IGN_CHECK_NS
            && EarliestSample(c, u) == EarliestSample(c, t) && ClockInv(c, u)
  {
    ss, es := ss0, es0;
    var t := ss[|es|];
    if t.pc == Sleeping {
      var tick := Tick(if t.clock < t.wakeAt then t.wakeAt - t.clock else 0);
      ss, es := Extend(c, s, p, ss, es, tick);
      ClockStep(c, t, tick);
      ss, es := Extend(c, s, p, ss, es, Mon);
    }
  }

  lemma {:induction false} ResampleAt(c: Config, s: State, p: Event -> bool, ss0: seq<State>, es0: seq<Event>, ms: nat)
    returns (ss: seq<State>, es: seq<Event>)
    requires Continues(c, s, p, ss0, es0) && AllowsMonitor(p)
    requires var t := ss0[|es0|]; t.pc == Resample && ClockInv(c, t) && t.clock + ms * NS_PER_MS < TWO_64
    ensures Continues(c, s, p, ss, es)
    ensures var t, u := ss0[|es0|], ss[|es|];
            && u == t.(pc := LoopTest, clock := u.clock, elapsed := u.elapsed)
            && u.elapsed == EarliestSample(c, t) + ms
  {
    var t := ss0[|es0|];
    ExactMilliseconds(t.clock, c.startTime, ms);
    ss, es := Extend(c, s, p, ss0, es0, Tick(ms * NS_PER_MS));
    ClockStep(c, t, Tick(ms * NS_PER_MS));
    ResampleIsEarliest(c, ss[|es|]);
    ResampleIsEarliest(c, t);
    ss, es := Extend(c, s, p, ss, es, Mon);
  }

  /** Letting the clock run to a sample strictly between preignite and burn time, and opening the valve at it. */
  lemma {:induction false} WakeAndOpen(c: Config, s: State, p: Event -> bool, ss0: seq<State>, es0: seq<Event>)
    returns (ss: seq<State>, es: seq<Event>)
    requires Continues(c, s, p, ss0, es0) && AllowsMonitor(p)
    requires var t := ss0[|es0|];
             && (t.pc == Sleeping || t.pc == Resample) && ClockInv(c, t) && !t.mainOpen
             && t.clock + (c.hotflow + 50) * NS_PER_MS < TWO_64
             && c.preignite + 1 < c.hotflow && EarliestSample(c, t) < c.hotflow
    ensures Continues(c, s, p, ss, es) && ss[|es|].Valve() && ss[|es|].Igniter() == ss0[|es0|].Igniter()
  {
    var earliest := EarliestSample(c, ss0[|es0|]);
    ss, es := WakeUp(c, s, p, ss0, es0);
    ss, es := ResampleAt(c, s, p, ss, es, if earliest <= c.preignite then c.preignite + 1 - earliest else 0);
    ss, es := Extend(c, s, p, ss, es, Mon);
    ss, es := Extend(c, s, p, ss, es, Mon);
  }
}
