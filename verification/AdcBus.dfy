/** Several threads reading the ADCs that share one SPI bus: a mutex around chip select, transfer and release. */
module AdcBus {
  import opened Options
  import opened Adc

  /** The chip-select pins of the three ADCs. */
  datatype ChipSelect = LoadCells | Pressures | Thermocouples

  datatype Pc = Idle | Locking | Checking | Selecting | Lowering | Transferring | Raising | Unlocking

  datatype Thread = Thread(pc: Pc, sensor: nat)

  /** The owner of the mutex, the threads, and the chip selects that are LOW. */
  datatype Bus = Bus(owner: Option<nat>, threads: seq<Thread>, low: set<ChipSelect>)

  datatype Event = Call(thread: nat, sensor: nat) | Step(thread: nat)

  predicate Enabled(s: Bus, e: Event) {
    && e.thread < |s.threads|
    && match e
       case Call(t, _) => s.threads[t].pc == Idle
       case Step(t) => s.threads[t].pc != Idle && (s.threads[t].pc == Locking ==> s.owner == None)
  }

  /** Moves thread t on. */
  function Goto(s: Bus, t: nat, pc: Pc): Bus
    requires t < |s.threads|
  {
    s.(threads := s.threads[t := s.threads[t].(pc := pc)])
  }

  /**
   One step; pins gives the chip select registered for a sensor index. An index over NUM_SENSORS returns with the
   mutex locked.
   */
  function Next(pins: nat -> ChipSelect, s: Bus, e: Event): Bus
    requires Enabled(s, e)
  {
    match e
    case Call(t, sensor) => s.(threads := s.threads[t := Thread(Locking, sensor)])
    case Step(t) =>
      var pin := pins(s.threads[t].sensor);
      match s.threads[t].pc
      case Idle => s
      case Locking => Goto(s, t, Checking).(owner := Some(t))
      case Checking => Goto(s, t, if s.threads[t].sensor > NUM_SENSORS then Idle else Selecting)
      case Selecting => Goto(s, t, Lowering)
      case Lowering => Goto(s, t, Transferring).(low := s.low + {pin})
      case Transferring => Goto(s, t, Raising)
      case Raising => Goto(s, t, Unlocking).(low := s.low - {pin})
      case Unlocking => Goto(s, t, Idle).(owner := None)
  }

  /** Threads not started, mutex free, every chip select HIGH. */
  ghost predicate Init(s: Bus) {
    s.owner == None && s.low == {} && forall t :: 0 <= t < |s.threads| ==> s.threads[t].pc == Idle
  }

  ghost predicate StepAt(pins: nat -> ChipSelect, ss: seq<Bus>, es: seq<Event>, i: nat)
    requires i < |es| && |ss| == |es| + 1
  {
    Enabled(ss[i], es[i]) && ss[i + 1] == Next(pins, ss[i], es[i])
  }

  ghost predicate IsRun(pins: nat -> ChipSelect, ss: seq<Bus>, es: seq<Event>) {
    && |ss| == |es| + 1
    && forall i :: 0 <= i < |es| ==> StepAt(pins, ss, es, i)
  }

  predicate Inside(pc: Pc) {
    pc != Idle && pc != Locking
  }

  predicate HoldsLow(pc: Pc) {
    pc == Transferring || pc == Raising
  }

  /** Only the owner is past the lock, and a LOW chip select is the owner's, around its transfer. */
  ghost predicate BusInv(pins: nat -> ChipSelect, s: Bus) {
    && (forall t :: 0 <= t < |s.threads| && Inside(s.threads[t].pc) ==> s.owner == Some(t))
    && (s.owner.Some? ==> s.owner.value < |s.threads|)
    && s.low == if s.owner.Some? && HoldsLow(s.threads[s.owner.value].pc)
                then {pins(s.threads[s.owner.value].sensor)} else {}
  }

  lemma {:induction false} BusKept(pins: nat -> ChipSelect, ss: seq<Bus>, es: seq<Event>, j: nat)
    requires IsRun(pins, ss, es) && Init(ss[0]) && j <= |es|
    ensures BusInv(pins, ss[j])
  {
    if j > 0 {
      BusKept(pins, ss, es, j - 1);
      assert StepAt(pins, ss, es, j - 1);
    }
  }

  /** The thread of event e executes the instruction at pc. */
  predicate At(pc: Pc, s: Bus, e: Event) {
    e.Step? && e.thread < |s.threads| && s.threads[e.thread].pc == pc
  }

  /**
   In every interleaving of any number of threads at most one chip select is LOW, and a transfer happens with exactly
   its own sensor's pin LOW.
   */
  lemma {:induction false} ChipSelectExclusion(pins: nat -> ChipSelect, ss: seq<Bus>, es: seq<Event>, j: nat)
    requires IsRun(pins, ss, es) && Init(ss[0]) && j <= |es|
    ensures |ss[j].low| <= 1
    ensures j < |es| && At(Transferring, ss[j], es[j]) ==> ss[j].low == {pins(ss[j].threads[es[j].thread].sensor)}
  {
    BusKept(pins, ss, es, j);
    if j < |es| {
      assert StepAt(pins, ss, es, j);
    }
  }

  /** The mutex was left locked by a thread that is no longer inside. */
  predicate Abandoned(s: Bus) {
    s.owner.Some? && s.owner.value < |s.threads| && !Inside(s.threads[s.owner.value].pc)
  }

  /** A thread is turned away because of its sensor index, and returns without unlocking. */
  predicate Rejects(s: Bus, e: Event) {
    At(Checking, s, e) && s.threads[e.thread].sensor > NUM_SENSORS
  }

  /** The mutex is left locked exactly when some thread has been turned away before. */
  lemma {:induction false} AbandonedExactly(pins: nat -> ChipSelect, ss: seq<Bus>, es: seq<Event>, j: nat)
    requires IsRun(pins, ss, es) && Init(ss[0]) && j <= |es|
    ensures Abandoned(ss[j]) <==> exists i :: 0 <= i < j && Rejects(ss[i], es[i])
  {
    if j > 0 {
      AbandonedExactly(pins, ss, es, j - 1);
      BusKept(pins, ss, es, j - 1);
      assert StepAt(pins, ss, es, j - 1);
      AbandonedStep(pins, ss[j - 1], es[j - 1]);
    }
  }

  lemma {:induction false} AbandonedStep(pins: nat -> ChipSelect, s: Bus, e: Event)
    requires Enabled(s, e) && BusInv(pins, s)
    ensures Abandoned(Next(pins, s, e)) <==> Abandoned(s) || Rejects(s, e)
  {
  }

  /** After a rejected sensor index no thread ever transfers again. */
  lemma {:induction false} RejectionBlocksTheBus(pins: nat -> ChipSelect, ss: seq<Bus>, es: seq<Event>, i: nat, j: nat)
    requires IsRun(pins, ss, es) && Init(ss[0]) && i < j <= |es| && Rejects(ss[i], es[i])
    ensures Abandoned(ss[j])
    ensures forall t :: 0 <= t < |ss[j].threads| ==> ss[j].threads[t].pc != Transferring
  {
    BusKept(pins, ss, es, j);
    AbandonedExactly(pins, ss, es, j);
  }

  /** Whenever the bus is free, an idle thread that asks for an index over the limit can leave it locked. */
  lemma {:induction false} RejectionHappens(pins: nat -> ChipSelect, s: Bus, t: nat, sensor: nat)
    returns (ss: seq<Bus>, es: seq<Event>)
    requires s.owner == None && t < |s.threads| && s.threads[t].pc == Idle && sensor > NUM_SENSORS
    ensures IsRun(pins, ss, es) && ss[0] == s && es == [Call(t, sensor), Step(t), Step(t)] && Rejects(ss[2], es[2])
    ensures ss[3].owner == Some(t) && Abandoned(ss[3])
  {
    es := [Call(t, sensor), Step(t), Step(t)];
    var s1 := Next(pins, s, es[0]);
    var s2 := Next(pins, s1, es[1]);
    ss := [s, s1, s2, Next(pins, s2, es[2])];
    assert StepAt(pins, ss, es, 0) && StepAt(pins, ss, es, 1) && StepAt(pins, ss, es, 2);
  }

  // ---- without rejections the bus is always released ----

  /** How many of its own steps a thread inside the lock has left up to its unlock. */
  function StepsLeft(pc: Pc): nat {
    match pc
    case Checking => 6
    case Selecting => 5
    case Lowering => 4
    case Transferring => 3
    case Raising => 2
    case Unlocking => 1
    case _ => 0
  }

  /** How many of the steps i..j thread t takes. */
  function OwnSteps(es: seq<Event>, t: nat, i: nat, j: nat): nat
    requires i <= j <= |es|
    decreases j
  {
    if i == j then 0 else OwnSteps(es, t, i, j - 1) + if es[j - 1] == Step(t) then 1 else 0
  }

  lemma {:induction false} OwnerStep(pins: nat -> ChipSelect, s: Bus, e: Event, t: nat)
    requires Enabled(s, e) && BusInv(pins, s) && s.owner == Some(t) && !Abandoned(s) && !Rejects(s, e)
    ensures var n := Next(pins, s, e);
            || (n.owner == None && e == Step(t) && StepsLeft(s.threads[t].pc) == 1)
            || (n.owner == Some(t) && !Abandoned(n)
                && StepsLeft(n.threads[t].pc) + (if e == Step(t) then 1 else 0) == StepsLeft(s.threads[t].pc))
  {
  }

  lemma {:induction false} NotAbandoned(pins: nat -> ChipSelect, ss: seq<Bus>, es: seq<Event>, j: nat)
    requires IsRun(pins, ss, es) && Init(ss[0]) && j <= |es|
    requires forall k :: 0 <= k < j ==> !Rejects(ss[k], es[k])
    ensures !Abandoned(ss[j]) && BusInv(pins, ss[j])
    ensures ss[j].owner.Some? ==> var t := ss[j].owner.value; t < |ss[j].threads| && Enabled(ss[j], Step(t))
    ensures ss[j].owner.Some? ==> StepsLeft(ss[j].threads[ss[j].owner.value].pc) <= 6
  {
    AbandonedExactly(pins, ss, es, j);
    BusKept(pins, ss, es, j);
  }

  lemma {:induction false} HolderStep(pins: nat -> ChipSelect, ss: seq<Bus>, es: seq<Event>, t: nat, j: nat)
    requires IsRun(pins, ss, es) && Init(ss[0]) && j < |es| && ss[j].owner == Some(t) && ss[j + 1].owner.Some?
    requires forall k :: 0 <= k < j + 1 ==> !Rejects(ss[k], es[k])
    ensures ss[j + 1].owner == Some(t) && t < |ss[j].threads| && t < |ss[j + 1].threads|
    ensures StepsLeft(ss[j + 1].threads[t].pc) + (if es[j] == Step(t) then 1 else 0) == StepsLeft(ss[j].threads[t].pc)
  {
    NotAbandoned(pins, ss, es, j);
    assert StepAt(pins, ss, es, j);
    OwnerStep(pins, ss[j], es[j], t);
  }

  /** The bus has not been free after i and up to j. */
  ghost predicate HeldThrough(ss: seq<Bus>, i: nat, j: nat)
    requires j < |ss|
  {
    forall k :: i < k <= j ==> ss[k].owner.Some?
  }

  lemma {:induction false} HolderProgresses(pins: nat -> ChipSelect, ss: seq<Bus>, es: seq<Event>,
                                            t: nat, i: nat, j: nat)
    requires IsRun(pins, ss, es) && Init(ss[0]) && i <= j <= |es| && ss[i].owner == Some(t)
    requires (forall k :: 0 <= k < j ==> !Rejects(ss[k], es[k])) && HeldThrough(ss, i, j)
    ensures ss[j].owner == Some(t) && t < |ss[j].threads|
    ensures OwnSteps(es, t, i, j) + StepsLeft(ss[j].threads[t].pc) <= 6
    decreases j
  {
    NotAbandoned(pins, ss, es, j);
    if i < j {
      HolderProgresses(pins, ss, es, t, i, j - 1);
      HolderStep(pins, ss, es, t, j - 1);
    }
  }

  /**
   Unless a thread has been turned away, whoever holds the bus can always go on, and has released it after at most six
   steps of its own, whatever the others do.
   */
  lemma {:induction false} BusIsReleased(pins: nat -> ChipSelect, ss: seq<Bus>, es: seq<Event>,
                                         t: nat, i: nat, j: nat)
    requires IsRun(pins, ss, es) && Init(ss[0]) && i <= j <= |es| && ss[i].owner == Some(t)
    requires forall k :: 0 <= k < j ==> !Rejects(ss[k], es[k])
    ensures ss[j].owner == Some(t) ==> Enabled(ss[j], Step(t))
    ensures OwnSteps(es, t, i, j) >= 6 ==> exists k :: i < k <= j && ss[k].owner == None
  {
    NotAbandoned(pins, ss, es, j);
    if HeldThrough(ss, i, j) {
      HolderProgresses(pins, ss, es, t, i, j);
    }
  }
}
