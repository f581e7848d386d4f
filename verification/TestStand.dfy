/**
 The shared variables, the pins and the threads' local variables, updated in place one atomic step at a time, with the
 run they have been through; what is proved of runs then holds of the object.
 */
module TestStand {
  import opened Clock
  import opened RunningAverage
  import opened BurnProtocol
  import opened BurnSafety
  import opened BurnStop
  import opened BurnAccounting
  import opened BurnPressure

  class Stand {
    const config: Config

    // shared
    var ignitionOn: bool
    var pressureShutoff: bool
    var drivers: Drivers
    var clock: Timestamp

    // ignition monitor
    var pc: MonitorPc
    var mainOpen: bool
    var initTime: Timestamp
    var elapsed: Timestamp
    var wakeAt: nat

    // command thread
    var cmd: CommandPc

    // pressure thread
    var avg: real
    var sensor: SensorPc

    /** The states and events from the start of the program to now. */
    ghost var states: seq<State>
    ghost var events: seq<Event>

    ghost function Now(): State
      reads this
    {
      State(ignitionOn, pressureShutoff, drivers, clock, pc, mainOpen, initTime, elapsed, wakeAt, cmd, avg, sensor)
    }

    /** The stand has come from a start state to where it is by steps of the protocol. */
    ghost predicate Valid()
      reads this
    {
      IsRun(config, states, events) && Init(config, states[0]) && Now() == states[|events|]
    }

    /** The monitor thread records the start of the clock; its valve variable starts with whatever the stack holds. */
    constructor (settings: Config, watch: Stopwatch, clock: Timestamp, mainOpen: bool)
      requires watch.Valid() && forall i :: 0 <= i < |watch.clocks| ==> watch.clocks[i] <= clock
      modifies watch
      ensures Valid() && events == [] && watch.Valid() && watch.clocks == old(watch.clocks) + [clock]
      ensures config == settings.(startTime := watch.startTime) && this.mainOpen == mainOpen && this.clock == clock
      ensures !ignitionOn && !pressureShutoff && Now().PinsLow() && avg == 700.0
    {
      watch.SetStartTime(clock);
      StartIsPast(watch.clocks, clock);
      config := settings.(startTime := watch.startTime);
      ignitionOn, pressureShutoff := false, false;
      drivers := Drivers(false, false, false, false, false, false);
      this.clock := clock;
      pc := Wait;
      this.mainOpen := mainOpen;
      initTime, elapsed, wakeAt := 0, 0, 0;
      cmd := Idle;
      avg, sensor := INITIAL_AVERAGE, Reading;
      events := [];
      new;
      states := [Now()];
    }

    /** Every valid stand has the properties of the runs. */
    lemma {:induction false} History()
      requires Valid()
      ensures CommandInv(Now()) && ClockInv(config, Now())
      ensures None(ManualSet, events, 0, |events|) ==> PinInv(Now())
      ensures avg == AverageOfCounts(700.0, config.slope, config.yint, RawReadings(events, 0, |events|))
      ensures Count(BeginsBurn, states, events, 0, |events|) <= Count(AnyStart, states, events, 0, |events|)
    {
      CommandInvHolds(config, states, events, |events|);
      ClockInvHolds(config, states, events, |events|);
      if None(ManualSet, events, 0, |events|) {
        PinsContained(config, states, events, |events|);
      }
      AverageOfRawCounts(config, states, events, 0, |events|);
      BurnsNeedStarts(config, states, events, |events|);
    }

    /** Adds the step just taken to the history. */
    ghost method Log(e: Event, before: State)
      requires IsRun(config, states, events) && Init(config, states[0]) && before == states[|events|]
      requires Enabled(before, e) && Now() == Next(config, before, e)
      modifies this`states, this`events
      ensures Valid() && events == old(events) + [e] && states == old(states) + [Now()]
    {
      ghost var ss, es := states, events;
      states, events := states + [Now()], events + [e];
      forall i | 0 <= i < |events| ensures StepAt(config, states, events, i) {
        assert i < |es| ==> StepAt(config, ss, es, i);
      }
    }

    /** Time passes. */
    method AdvanceClock(ns: nat)
      requires Valid() && Enabled(Now(), Tick(ns))
      modifies this
      ensures Valid() && events == old(events) + [Tick(ns)] && Now() == Next(config, old(Now()), Tick(ns))
    {
      ghost var before := Now();
      clock := clock + ns;
      Log(Tick(ns), before);
    }

    /** One atomic step of the ignition monitor: polling, starting a burn, one pass of the loop, or shutting down. */
    method MonitorStep()
      requires Valid() && Enabled(Now(), Mon)
      modifies this
      ensures Valid() && events == old(events) + [Mon] && Now() == Next(config, old(Now()), Mon)
    {
      ghost var before := Now();
      if pc == Wait || pc == Nap || pc == SampleStart || pc == RaiseIgniter {
        StartStep();
      } else if pc == LoopTest || pc == ValveTest {
        PassStep(NowMs(config, Now()));
      } else if pc == PressureTest || pc == IgnitionTest {
        BreakStep(NowMs(config, Now()));
      } else if pc == Sleeping || pc == Resample {
        SleepStep();
      } else {
        ShutdownStep(NowMs(config, Now()));
      }
      Log(Mon, before);
    }

    /** Waiting for the burn signal, sampling the clock, lighting the igniter. */
    method StartStep()
      requires Enabled(Now(), Mon) && (pc == Wait || pc == Nap || pc == SampleStart || pc == RaiseIgniter)
      modifies this`pc, this`wakeAt, this`initTime, this`elapsed, this`drivers
      ensures Now() == MonNext(config, old(Now()), NowMs(config, old(Now())))
    {
      match pc {
        case Wait =>
          if ignitionOn {
            pc := SampleStart;
          } else {
            pc, wakeAt := Nap, clock + IGN_CHECK_NS;
          }
        case Nap => pc := Wait;
        case SampleStart =>
          initTime := ElapsedMs(clock, config.startTime);
          elapsed := 0;
          pc := RaiseIgniter;
        case RaiseIgniter =>
          drivers := drivers.(d6 := true);
          pc := LoopTest;
      }
    }

    /** The loop condition and the valve test; neither reads the clock. */
    method PassStep(ghost now: Timestamp)
      requires pc == LoopTest || pc == ValveTest
      modifies this`pc, this`drivers, this`mainOpen
      ensures Now() == MonNext(config, old(Now()), now)
    {
      match pc {
        case LoopTest =>
          if elapsed < config.hotflow {
            pc := ValveTest;
          } else {
            pc := CloseValve;
          }
        case ValveTest =>
          if !mainOpen && elapsed > config.preignite {
            drivers := drivers.(d1 := true);
            mainOpen := true;
          }
          pc := PressureTest;
      }
    }

    /** The two tests that can break out of the loop, and the start of its sleep. */
    method BreakStep(ghost now: Timestamp)
      requires pc == PressureTest || pc == IgnitionTest
      modifies this`pc, this`wakeAt
      ensures Now() == MonNext(config, old(Now()), now)
    {
      match pc {
        case PressureTest =>
          if elapsed > config.shutoffDelay && config.shutoffEnabled && pressureShutoff {
            pc := CloseValve;
          } else {
            pc := IgnitionTest;
          }
        case IgnitionTest =>
          if !ignitionOn {
            pc := CloseValve;
          } else {
            pc, wakeAt := Sleeping, clock + IGN_CHECK_NS;
          }
      }
    }

    /** The end of a pass: waking up and reading the clock. */
    method SleepStep()
      requires Enabled(Now(), Mon) && (pc == Sleeping || pc == Resample)
      modifies this`pc, this`elapsed
      ensures Now() == MonNext(config, old(Now()), NowMs(config, old(Now())))
    {
      match pc {
        case Sleeping => pc := Resample;
        case Resample =>
          elapsed := SubU64(ElapsedMs(clock, config.startTime), initTime);
          pc := LoopTest;
      }
    }

    /** The four writes that end a burn. */
    method ShutdownStep(ghost now: Timestamp)
      requires pc == CloseValve || pc == CloseIgniter || pc == ClearIgnition || pc == ClearMainOpen
      modifies this`pc, this`drivers, this`ignitionOn, this`mainOpen
      ensures Now() == MonNext(config, old(Now()), now)
    {
      match pc {
        case CloseValve =>
          drivers := drivers.(d1 := false);
          pc := CloseIgniter;
        case CloseIgniter =>
          drivers := drivers.(d6 := false);
          pc := ClearIgnition;
        case ClearIgnition =>
          ignitionOn := false;
          pc := ClearMainOpen;
        case ClearMainOpen =>
          mainOpen := false;
          pc := Wait;
      }
    }

    /** The manual driver commands. */
    method WriteDriver(code: nat)
      requires code < STOP_IGNITION
      modifies this`drivers
      ensures drivers == SetDriver(old(drivers), code)
    {
      match code {
        case 0 => drivers := drivers.(d1 := false);
        case 1 => drivers := drivers.(d1 := true);
        case 2 => drivers := drivers.(d2 := false);
        case 3 => drivers := drivers.(d2 := true);
        case 4 => drivers := drivers.(d3 := false);
        case 5 => drivers := drivers.(d3 := true);
        case 6 => drivers := drivers.(d4 := false);
        case 7 => drivers := drivers.(d4 := true);
        case 8 => drivers := drivers.(d5 := false);
        case 9 => drivers := drivers.(d5 := true);
        case 10 => drivers := drivers.(d6 := false);
        case 11 => drivers := drivers.(d6 := true);
      }
    }

    /** The dispatcher receives a command byte; START and STOP leave actions pending, unknown bytes do nothing. */
    method ReceiveCommand(code: nat)
      requires Valid() && Enabled(Now(), Receive(code))
      modifies this
      ensures Valid() && events == old(events) + [Receive(code)] && Now() == Next(config, old(Now()), Receive(code))
    {
      ghost var before := Now();
      if code < STOP_IGNITION {
        WriteDriver(code);
      } else if code == START_IGNITION {
        ignitionOn := true;
        cmd := ClearShutoff;
      } else if code == STOP_IGNITION {
        ignitionOn := false;
        cmd := StopValve;
      }
      Log(Receive(code), before);
    }

    /** The next pending action of START or STOP. */
    method CommandStep()
      requires Valid() && Enabled(Now(), Cmd)
      modifies this
      ensures Valid() && events == old(events) + [Cmd] && Now() == Next(config, old(Now()), Cmd)
    {
      ghost var before := Now();
      match cmd {
        case ClearShutoff =>
          pressureShutoff := false;
          cmd := Idle;
        case StopValve =>
          drivers := drivers.(d1 := false);
          cmd := StopIgniter;
        case StopIgniter =>
          drivers := drivers.(d6 := false);
          cmd := Idle;
      }
      Log(Cmd, before);
    }

    /** Folding a PT1 reading into the average. */
    method SampleStep(raw: nat)
      requires Valid() && Enabled(Now(), Sample(raw))
      modifies this
      ensures Valid() && events == old(events) + [Sample(raw)] && Now() == Next(config, old(Now()), Sample(raw))
    {
      ghost var before := Now();
      avg := Update(avg, Converted(config, raw));
      sensor := Loading;
      Log(Sample(raw), before);
    }

    /** Loading the flag, which only decides what is printed. */
    method LoadStep()
      requires Valid() && Enabled(Now(), Load)
      modifies this
      ensures Valid() && events == old(events) + [Load] && Now() == Next(config, old(Now()), Load)
    {
      ghost var before := Now();
      sensor := Publishing;
      Log(Load, before);
    }

    method PublishStep()
      requires Valid() && Enabled(Now(), Publish)
      modifies this
      ensures Valid() && events == old(events) + [Publish] && Now() == Next(config, old(Now()), Publish)
    {
      ghost var before := Now();
      pressureShutoff := OutOfBand(config, avg);
      sensor := Reading;
      Log(Publish, before);
    }

    // ---- whole operations, when no other thread gets in between ----

    /** A command from its first action to its last. */
    method VisitCommand(code: nat)
      requires Valid() && cmd == Idle
      modifies this
      ensures Valid() && old(events) < events && cmd == Idle
      ensures code < 12 ==> forall k :: 1 <= k <= 6 ==>
                Level(drivers, k) == if k == code / 2 + 1 then code % 2 == 1 else Level(old(drivers), k)
      ensures code >= 12 ==> drivers == if code == 12 then old(drivers).(d1 := false, d6 := false) else old(drivers)
      ensures ignitionOn == if code == 12 then false else if code == 13 then true else old(ignitionOn)
      ensures pressureShutoff == (old(pressureShutoff) && code != 13)
      ensures clock == old(clock) && pc == old(pc) && mainOpen == old(mainOpen) && wakeAt == old(wakeAt)
    {
      forall k | 1 <= k <= 6
        ensures Level(SetDriver(drivers, code), k) == if k == code / 2 + 1 then code % 2 == 1 else Level(drivers, k)
        ensures code >= 12 ==> SetDriver(drivers, code) == drivers
      {
        DriverBytes(drivers, code, k);
      }
      ReceiveCommand(code);
      if code == START_IGNITION {
        CommandStep();
      } else if code == STOP_IGNITION {
        CommandStep();
        CommandStep();
      }
    }

    /** One step towards the end of a burn whose signal is off, after the rest of a sleep. */
    method StepToEnd()
      requires Valid() && !ignitionOn && cmd == Idle && WrittenPins(Now()) && pc != Wait && pc != Nap
      requires pc == Sleeping ==> clock + IGN_CHECK_NS < TWO_64
      modifies this
      ensures Valid() && !ignitionOn && cmd == Idle && WrittenPins(Now()) && pc != Sleeping && Rank(pc) < Rank(old(pc))
      ensures old(events) < events && |events| <= |old(events)| + if old(pc) == Sleeping then 2 else 1
    {
      History();
      if pc == Sleeping && clock < wakeAt {
        AdvanceClock(wakeAt - clock);
      }
      ghost var before := Now();
      WrittenPinsStep(config, before, Mon, NowMs(config, before));
      RankStep(config, before, Mon, NowMs(config, before));
      MonitorStep();
      assert pc == NextPc(config, before);
    }

    /** The monitor's loop from wherever it is until it polls again, once the burn signal is off. */
    method FinishBurn()
      requires Valid() && !ignitionOn && cmd == Idle && WrittenPins(Now()) && clock + IGN_CHECK_NS < TWO_64
      modifies this
      ensures Valid() && old(events) <= events && |events| <= |old(events)| + 11
      ensures Now().Waiting() && Now().PinsLow() && !ignitionOn && cmd == Idle
    {
      while pc != Wait && pc != Nap
        invariant Valid() && old(events) <= events && !ignitionOn && cmd == Idle && WrittenPins(Now())
        invariant |events| + Rank(pc) + (if pc == Sleeping then 1 else 0) <= |old(events)| + 11
        invariant pc == Sleeping ==> clock == old(clock)
        decreases Rank(pc)
      {
        StepToEnd();
      }
    }

    /** A STOP in any state of the stand, whatever came before: the burn ends within a sleep, with both pins LOW. */
    method EmergencyStop()
      requires Valid() && cmd == Idle && clock + IGN_CHECK_NS < TWO_64
      modifies this
      ensures Valid() && old(events) < events
      ensures Now().Waiting() && Now().PinsLow() && !ignitionOn && cmd == Idle
    {
      VisitCommand(STOP_IGNITION);
      FinishBurn();
    }

    /** One PT1 reading: the flag then says whether the running average of all readings so far is out of band. */
    method HandleReading(raw: nat)
      requires Valid() && sensor == Reading
      modifies this
      ensures Valid() && events == old(events) + [Sample(raw), Load, Publish] && sensor == Reading
      ensures avg == 0.95 * old(avg) + 0.05 * (config.slope * raw as real + config.yint)
      ensures avg == AverageOfCounts(700.0, config.slope, config.yint, RawReadings(events, 0, |events|))
      ensures pressureShutoff == (avg > config.pressureMax || avg < config.pressureMin)
    {
      SampleStep(raw);
      LoadStep();
      PublishStep();
      History();
    }
  }
}
