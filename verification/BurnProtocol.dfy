/**
 The burn controller as an interleaving of three threads: the command thread, the ignition
 monitor and the thread that samples the chamber pressure. Every atomic load or store, pin
 write, clock reading and sleep is one step; the threads interleave freely.
 */
module BurnProtocol {
  import opened Clock
  import opened RunningAverage

  /** Polling period of the monitor, in nanoseconds. */
  const IGN_CHECK_NS: int := 50 * NS_PER_MS

  /** Command bytes. */
  const STOP_IGNITION: nat := 12
  const START_IGNITION: nat := 13

  /** Settings read from the configuration file, and the recorded start of the clock. */
  datatype Config = Config(
    hotflow: nat, preignite: nat, shutoffDelay: nat, shutoffEnabled: bool,
    pressureMax: real, pressureMin: real, slope: real, yint: real,
    startTime: Timestamp)

  /** Where the monitor thread is; each constructor names the next thing it does. */
  datatype MonitorPc =
    | Wait            // load ignitionOn
    | Nap             // sleep between two polls of ignitionOn
    | SampleStart     // read the clock, reset the elapsed time
    | RaiseIgniter
    | LoopTest        // compare the elapsed time with the burn time
    | ValveTest       // open the main valve once the preignite time has passed
    | PressureTest    // load pressureShutoff when the delay has passed
    | IgnitionTest    // load ignitionOn
    | Sleeping
    | Resample        // read the clock again
    | CloseValve
    | CloseIgniter
    | ClearIgnition   // store false to ignitionOn
    | ClearMainOpen

  /** What the command thread still has to do for the command it is serving. */
  datatype CommandPc = Idle | ClearShutoff | StopValve | StopIgniter

  datatype SensorPc = Reading | Loading | Publishing

  /** Levels of the six driver pins; true is HIGH. Driver 1 is the main valve, driver 6 the igniter. */
  datatype Drivers = Drivers(d1: bool, d2: bool, d3: bool, d4: bool, d5: bool, d6: bool)

  datatype State = State(
    ignitionOn: bool, pressureShutoff: bool, drivers: Drivers, clock: Timestamp,
    pc: MonitorPc, mainOpen: bool, initTime: Timestamp, elapsed: Timestamp, wakeAt: nat,
    cmd: CommandPc,
    avg: real, sensor: SensorPc)
  {
    predicate Valve() { drivers.d1 }

    predicate Igniter() { drivers.d6 }

    predicate PinsLow() { !Valve() && !Igniter() }

    predicate Waiting() { pc == Wait || pc == Nap }

    function SetValve(level: bool): State { this.(drivers := drivers.(d1 := level)) }

    function SetIgniter(level: bool): State { this.(drivers := drivers.(d6 := level)) }
  }

  datatype Event =
    | Tick(ns: nat)        // the clock advances
    | Mon                  // the monitor takes one step
    | Receive(code: nat)   // the command thread receives a byte and does its first action
    | Cmd                  // the command thread does its next pending action
    | Sample(raw: nat)     // the sensor thread folds a PT1 reading into its average
    | Load                 // the sensor thread loads the flag, to decide what to print
    | Publish              // the sensor thread stores the flag

  function Converted(c: Config, raw: nat): real {
    c.slope * raw as real + c.yint
  }

  /** The average of converted readings in terms of raw counts: a reading is slope times count plus intercept. */
  lemma {:induction false} AverageOfConverted(c: Config, avg: real, raws: seq<nat>, xs: seq<real>)
    requires |xs| == |raws| && forall i :: 0 <= i < |raws| ==> xs[i] == Converted(c, raws[i])
    ensures After(avg, xs) == AverageOfCounts(avg, c.slope, c.yint, raws)
  {
    forall i | 0 <= i < |raws|
      ensures xs[i] == c.slope * Reals(raws)[i] + c.yint
    {
      assert xs[i] == Converted(c, raws[i]);
    }
    AfterRawCounts(avg, raws, xs, c.slope, c.yint);
  }

  predicate OutOfBand(c: Config, avg: real) {
    avg > c.pressureMax || avg < c.pressureMin
  }

  /** Whether an event can happen in a state: sleepers wait for the clock, each thread acts in its own order. */
  predicate Enabled(s: State, e: Event) {
    match e
    case Tick(ns) => s.clock + ns < TWO_64
    case Mon => s.pc == Nap || s.pc == Sleeping ==> s.wakeAt <= s.clock
    case Receive(_) => s.cmd == Idle
    case Cmd => s.cmd != Idle
    case Sample(_) => s.sensor == Reading
    case Load => s.sensor == Loading
    case Publish => s.sensor == Publishing
  }

  /** The level of driver k after a command byte: 2 k - 2 switches it off, 2 k - 1 on, no other byte writes it. */
  function Switched(level: bool, k: nat, code: nat): bool {
    if code == 2 * k - 2 then false else if code == 2 * k - 1 then true else level
  }

  function SetDriver(d: Drivers, code: nat): Drivers {
    Drivers(Switched(d.d1, 1, code), Switched(d.d2, 2, code), Switched(d.d3, 3, code),
            Switched(d.d4, 4, code), Switched(d.d5, 5, code), Switched(d.d6, 6, code))
  }

  /** The level of driver k. */
  predicate Level(d: Drivers, k: nat)
    requires 1 <= k <= 6
  {
    match k
    case 1 => d.d1
    case 2 => d.d2
    case 3 => d.d3
    case 4 => d.d4
    case 5 => d.d5
    case 6 => d.d6
  }

  /** A byte below twelve sets the level of its own driver and of no other; larger bytes set none. */
  lemma {:induction false} DriverBytes(d: Drivers, code: nat, j: nat)
    requires 1 <= j <= 6
    ensures Level(SetDriver(d, code), j) == if code / 2 + 1 == j then code % 2 == 1 else Level(d, j)
    ensures code >= 12 ==> SetDriver(d, code) == d
  {
  }

  /** The first action for a command byte; bytes without a command do nothing. */
  function ReceiveNext(s: State, code: nat): State {
    s.(drivers := SetDriver(s.drivers, code),
       ignitionOn := if code == STOP_IGNITION then false else if code == START_IGNITION then true else s.ignitionOn,
       cmd := if code == STOP_IGNITION then StopValve else if code == START_IGNITION then ClearShutoff else s.cmd)
  }

  function CmdNext(s: State): State {
    match s.cmd
    case Idle => s
    case ClearShutoff => s.(pressureShutoff := false, cmd := Idle)
    case StopValve => s.(drivers := s.drivers.(d1 := false), cmd := StopIgniter)
    case StopIgniter => s.(drivers := s.drivers.(d6 := false), cmd := Idle)
  }

  // ---- one step of the monitor, variable by variable ----

  predicate OpensValve(c: Config, s: State) {
    s.pc == ValveTest && !s.mainOpen && s.elapsed > c.preignite
  }

  predicate PressureTripped(c: Config, s: State) {
    s.elapsed > c.shutoffDelay && c.shutoffEnabled && s.pressureShutoff
  }

  function NextPc(c: Config, s: State): MonitorPc {
    match s.pc
    case Wait => if s.ignitionOn then SampleStart else Nap
    case Nap => Wait
    case SampleStart => RaiseIgniter
    case RaiseIgniter => LoopTest
    case LoopTest => if s.elapsed < c.hotflow then ValveTest else CloseValve
    case ValveTest => PressureTest
    case PressureTest => if PressureTripped(c, s) then CloseValve else IgnitionTest
    case IgnitionTest => if s.ignitionOn then Sleeping else CloseValve
    case Sleeping => Resample
    case Resample => LoopTest
    case CloseValve => CloseIgniter
    case CloseIgniter => ClearIgnition
    case ClearIgnition => ClearMainOpen
    case ClearMainOpen => Wait
  }

  /** now is the clock in milliseconds, should the step read it. */
  function MonNext(c: Config, s: State, now: Timestamp): State {
    s.(pc := NextPc(c, s),
       drivers := s.drivers.(
         d1 := if OpensValve(c, s) then true else if s.pc == CloseValve then false else s.drivers.d1,
         d6 := if s.pc == RaiseIgniter then true else if s.pc == CloseIgniter then false else s.drivers.d6),
       ignitionOn := s.ignitionOn && s.pc != ClearIgnition,
       mainOpen := (s.mainOpen || OpensValve(c, s)) && s.pc != ClearMainOpen,
       initTime := if s.pc == SampleStart then now else s.initTime,
       elapsed := if s.pc == SampleStart then 0 else if s.pc == Resample then SubU64(now, s.initTime) else s.elapsed,
       wakeAt := if NextPc(c, s) == Nap || NextPc(c, s) == Sleeping then s.clock + IGN_CHECK_NS else s.wakeAt)
  }

  function NowMs(c: Config, s: State): Timestamp {
    ElapsedMs(s.clock, c.startTime)
  }

  function Next(c: Config, s: State, e: Event): State
    requires Enabled(s, e)
  {
    NextAt(c, s, e, NowMs(c, s))
  }

  /** The step of an event when a clock reading gives now milliseconds. */
  function NextAt(c: Config, s: State, e: Event, now: Timestamp): State
    requires Enabled(s, e)
  {
    match e
    case Tick(ns) => s.(clock := s.clock + ns)
    case Mon => MonNext(c, s, now)
    case Receive(code) => ReceiveNext(s, code)
    case Cmd => CmdNext(s)
    case Sample(raw) => s.(avg := Update(s.avg, Converted(c, raw)), sensor := Loading)
    case Load => s.(sensor := Publishing)
    case Publish => s.(pressureShutoff := OutOfBand(c, s.avg), sensor := Reading)
  }

  /** States in which the threads start; mainOpen is not initialised by the program and may be anything. */
  predicate Init(c: Config, s: State) {
    && !s.ignitionOn && !s.pressureShutoff && s.PinsLow()
    && s.pc == Wait && s.cmd == Idle && s.sensor == Reading
    && s.avg == INITIAL_AVERAGE && c.startTime <= s.clock
  }

  ghost predicate StepAt(c: Config, ss: seq<State>, es: seq<Event>, i: nat)
    requires i < |es| && |ss| == |es| + 1
  {
    Enabled(ss[i], es[i]) && ss[i + 1] == Next(c, ss[i], es[i])
  }

  /** The states ss and the events es of one run, from any state. */
  ghost predicate IsRun(c: Config, ss: seq<State>, es: seq<Event>) {
    && |ss| == |es| + 1
    && forall i :: 0 <= i < |es| ==> StepAt(c, ss, es, i)
  }

  /** How many of the steps lo..hi of a run satisfy p. */
  function Count(p: (State, Event) -> bool, ss: seq<State>, es: seq<Event>, lo: nat, hi: nat): nat
    requires lo <= hi <= |es| && |ss| == |es| + 1
    decreases hi
  {
    if lo == hi then 0 else Count(p, ss, es, lo, hi - 1) + if p(ss[hi - 1], es[hi - 1]) then 1 else 0
  }

  /** A monitor step of a burn, as opposed to one that polls for a burn. */
  predicate BusyStep(s: State, e: Event) {
    e == Mon && !s.Waiting()
  }

  /** A manual command that drives the main valve or the igniter HIGH. */
  predicate ManualSet(e: Event) {
    e == Receive(1) || e == Receive(11)
  }

  /** A manual command that writes the main valve or the igniter. */
  predicate ManualWrite(e: Event) {
    e == Receive(0) || e == Receive(1) || e == Receive(10) || e == Receive(11)
  }

  ghost predicate None(p: Event -> bool, es: seq<Event>, lo: nat, hi: nat)
    requires hi <= |es|
  {
    forall k :: lo <= k < hi ==> !p(es[k])
  }

  predicate IsStart(e: Event) {
    e == Receive(START_IGNITION)
  }

  predicate IsStop(e: Event) {
    e == Receive(STOP_IGNITION)
  }
}
