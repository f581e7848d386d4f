/** A sensor thread: one ring and one log per sensor, one packet buffer for all of them, and the pressure average. */
module SensorThread {
  import opened Bytes
  import opened Packets
  import opened CircularBuffers
  import opened RunningAverage
  import opened BurnProtocol

  /** The sensor whose readings feed the pressure shutoff. */
  const PT1: byte := 5

  /** Every 17th reading of a sensor finds the ring full. */
  const CYCLE: nat := 17

  // ---- what a sensor's ring and log hold, as a function of everything read so far ----

  /** The readings still in the ring. */
  function Held(p: seq<Item>): (h: seq<Item>)
    ensures |h| == |p| % CYCLE
  {
    p[17 * (|p| / 17)..]
  }

  /** The readings that reached the log: sixteen of every seventeen. */
  function Packed(p: seq<Item>): seq<Item> {
    if |p| < CYCLE then [] else p[..ITEMS_PER_PACKET] + Packed(p[CYCLE..])
  }

  /** A packet filled to the last byte with the items xs, over the former contents b of the buffer. */
  ghost predicate FilledOver(bytes: seq<byte>, b: seq<byte>, sensor: byte, xs: seq<Item>) {
    |b| == PACKET_SIZE == Offset(|xs|) && bytes == Packet(b, sensor, xs)
  }

  /** A filled packet, over whatever the buffer held. */
  ghost predicate IsPacket(bytes: seq<byte>, sensor: byte, xs: seq<Item>) {
    exists b :: FilledOver(bytes, b, sensor, xs)
  }

  /** Packet k of the log carries readings 17 k to 17 k + 15; there are |p| / 17 packets. */
  ghost predicate LogOf(log: seq<byte>, sensor: byte, p: seq<Item>) {
    && |log| == 260 * (|p| / 17)
    && forall k :: 0 <= k < |p| / 17 ==> PacketAt(log, sensor, p, k)
  }

  ghost predicate PacketAt(log: seq<byte>, sensor: byte, p: seq<Item>, k: nat) {
    && 260 * k + 260 <= |log| && 17 * k + 16 <= |p|
    && IsPacket(log[260 * k..260 * k + 260], sensor, p[17 * k..17 * k + 16])
  }

  lemma {:induction false} PushKept(log: seq<byte>, sensor: byte, p: seq<Item>, x: Item)
    requires LogOf(log, sensor, p) && |Held(p)| < 16
    ensures Held(p + [x]) == Held(p) + [x] && LogOf(log, sensor, p + [x])
  {
    forall k | 0 <= k < |p| / 17
      ensures PacketAt(log, sensor, p + [x], k)
    {
      assert PacketAt(log, sensor, p, k);
      assert (p + [x])[17 * k..17 * k + 16] == p[17 * k..17 * k + 16];
    }
  }

  lemma {:induction false} PushDropped(log: seq<byte>, sensor: byte, p: seq<Item>, x: Item, b: seq<byte>)
    requires LogOf(log, sensor, p) && |Held(p)| == 16 && |b| == PACKET_SIZE
    ensures Held(p + [x]) == [] && LogOf(log + Packet(b, sensor, Held(p)), sensor, p + [x])
  {
    var log', p' := log + Packet(b, sensor, Held(p)), p + [x];
    var m := |p| / 17;
    forall k | 0 <= k < m + 1
      ensures PacketAt(log', sensor, p', k)
    {
      if k < m {
        assert PacketAt(log, sensor, p, k);
        assert log'[260 * k..260 * k + 260] == log[260 * k..260 * k + 260];
        assert p'[17 * k..17 * k + 16] == p[17 * k..17 * k + 16];
      } else {
        assert log'[260 * k..260 * k + 260] == Packet(b, sensor, Held(p));
        assert p'[17 * k..17 * k + 16] == Held(p);
        assert FilledOver(log'[260 * k..260 * k + 260], b, sensor, Held(p));
      }
    }
  }

  lemma {:induction false} CycleOfSeventeen(n: nat, j: nat)
    ensures n >= 17 ==> n / 17 == (n - 17) / 17 + 1
    ensures j >= 16 ==> j / 16 == (j - 16) / 16 + 1 && j % 16 == (j - 16) % 16
    ensures j < 16 ==> j / 16 == 0 && j % 16 == j
  {
  }

  /** Reading j of the log is reading 17 (j / 16) + j % 16 of the sensor: the 17th of each cycle is the one lost. */
  lemma {:induction false} PackedAt(p: seq<Item>, j: nat)
    ensures |Packed(p)| == 16 * (|p| / 17)
    ensures j < |Packed(p)| ==> 17 * (j / 16) + j % 16 < |p| && Packed(p)[j] == p[17 * (j / 16) + j % 16]
  {
    if |p| >= CYCLE {
      var q, k := p[CYCLE..], if j < 16 then 0 else j - 16;
      PackedAt(q, k);
      CycleOfSeventeen(|p|, j);
      assert forall i :: 0 <= i < |q| ==> q[i] == p[17 + i];
    }
  }

  /** Decoding the log gives back exactly the packed readings and their timestamps, in order, whatever the pads hold. */
  lemma {:induction false} LogRoundTrip(log: seq<byte>, sensor: byte, p: seq<Item>)
    requires LogOf(log, sensor, p)
    ensures DecodeLog(log) == AsRecords(Packed(p))
    decreases |p|
  {
    if |p| >= CYCLE {
      var bytes, xs := FirstPacket(log, sensor, p);
      LogTail(log, sensor, p);
      LogRoundTrip(log[PACKET_SIZE..], sensor, p[CYCLE..]);
      assert AsRecords(Packed(p)) == AsRecords(p[..ITEMS_PER_PACKET]) + AsRecords(Packed(p[CYCLE..]));
    }
  }

  lemma {:induction false} UnpackFilled(bytes: seq<byte>, b: seq<byte>, sensor: byte, xs: seq<Item>)
    requires FilledOver(bytes, b, sensor, xs)
    ensures |bytes| == PACKET_SIZE && UnpackItems(bytes, |xs|) == AsRecords(xs)
  {
    UnpackPacket(b, sensor, xs);
  }

  lemma {:induction false} FirstPacket(log: seq<byte>, sensor: byte, p: seq<Item>)
    returns (bytes: seq<byte>, xs: seq<Item>)
    requires LogOf(log, sensor, p) && |p| >= CYCLE
    ensures bytes == log[..PACKET_SIZE] && xs == p[..ITEMS_PER_PACKET]
    ensures |bytes| == PACKET_SIZE && UnpackItems(bytes, |xs|) == AsRecords(xs)
  {
    assert PacketAt(log, sensor, p, 0);
    bytes, xs := log[260 * 0..260 * 0 + 260], p[17 * 0..17 * 0 + 16];
    var b :| FilledOver(bytes, b, sensor, xs);
    UnpackFilled(bytes, b, sensor, xs);
  }

  lemma {:induction false} LogTail(log: seq<byte>, sensor: byte, p: seq<Item>)
    requires LogOf(log, sensor, p) && |p| >= CYCLE
    ensures LogOf(log[PACKET_SIZE..], sensor, p[CYCLE..])
  {
    var log', p' := log[PACKET_SIZE..], p[CYCLE..];
    forall k | 0 <= k < |p'| / 17
      ensures PacketAt(log', sensor, p', k)
    {
      assert PacketAt(log, sensor, p, k + 1);
      assert log'[260 * k..260 * k + 260] == log[260 * (k + 1)..260 * (k + 1) + 260];
      assert p'[17 * k..17 * k + 16] == p[17 * (k + 1)..17 * (k + 1) + 16];
    }
  }

  /** A log cut off at any byte decodes to a prefix of the packed readings. */
  lemma {:induction false} TruncatedLog(log: seq<byte>, sensor: byte, p: seq<Item>, k: nat)
    requires LogOf(log, sensor, p) && k <= |log|
    ensures DecodeLog(log[..k]) <= AsRecords(Packed(p))
  {
    LogRoundTrip(log, sensor, p);
    DecodePrefix(log, k);
  }

  // ---- the thread ----

  /** What a reading of a sensor adds to the PT1 readings. */
  function PressureReading(c: Config, sensor: byte, raw: UInt16): seq<real> {
    if sensor == PT1 then [Converted(c, raw)] else []
  }

  /** The converted PT1 readings among the first n sensors of a sweep. */
  function PressureReadings(c: Config, sensors: seq<byte>, raws: seq<UInt16>, n: nat): seq<real>
    requires n <= |sensors| == |raws|
  {
    if n == 0 then []
    else PressureReadings(c, sensors, raws, n - 1) + PressureReading(c, sensors[n - 1], raws[n - 1])
  }

  /** Those of n whole sweeps and of the first h sensors of the next, in the order they are read. */
  function PressureHistory(c: Config, sensors: seq<byte>, raws: seq<seq<UInt16>>, n: nat, h: nat): seq<real>
    requires n <= |raws| && h <= |sensors| && (h > 0 ==> n < |raws|)
    requires forall k :: 0 <= k < |raws| ==> |raws[k]| == |sensors|
    decreases n, h
  {
    if h > 0 then PressureHistory(c, sensors, raws, n, 0) + PressureReadings(c, sensors, raws[n], h)
    else if n > 0 then PressureHistory(c, sensors, raws, n - 1, |sensors|)
    else []
  }

  // ---- the same for sensors with and without a 5, stated on the raw counts ----

  /** The sensor at p, and no other, is x. */
  ghost predicate OnlyAt(sensors: seq<byte>, x: byte, p: nat) {
    p < |sensors| && forall i :: 0 <= i < |sensors| ==> (sensors[i] == x <==> i == p)
  }

  /** The first m counts in column p. */
  function Counts(raws: seq<seq<UInt16>>, m: nat, p: nat): (s: seq<nat>)
    requires m <= |raws| && forall k :: 0 <= k < |raws| ==> p < |raws[k]|
    ensures |s| == m && forall k :: 0 <= k < m ==> s[k] == raws[k][p]
  {
    seq(m, k requires 0 <= k < m => raws[k][p] as nat)
  }

  /** With m > 0 counts read in column p the flag says whether their average is out of band. */
  ghost predicate FlagOf(c: Config, raws: seq<seq<UInt16>>, m: nat, p: nat, was: bool, flag: bool)
    requires m <= |raws| && forall k :: 0 <= k < |raws| ==> p < |raws[k]|
  {
    var avg := AverageOfCounts(700.0, c.slope, c.yint, Counts(raws, m, p));
    flag == if m == 0 then was else avg > c.pressureMax || avg < c.pressureMin
  }

  lemma {:induction false} FlagIs(c: Config, raws: seq<seq<UInt16>>, m: nat, p: nat, was: bool, flag: bool,
                                  xs: seq<real>)
    requires |xs| == m <= |raws| && forall k :: 0 <= k < |raws| ==> p < |raws[k]|
    requires After(700.0, xs) == AverageOfCounts(700.0, c.slope, c.yint, Counts(raws, m, p))
    requires flag == if xs == [] then was else OutOfBand(c, After(700.0, xs))
    ensures FlagOf(c, raws, m, p, was, flag)
  {
  }

  lemma {:induction false} NoneInSweep(c: Config, sensors: seq<byte>, raws: seq<UInt16>, n: nat)
    requires n <= |sensors| == |raws| && forall i :: 0 <= i < n ==> sensors[i] != 5
    ensures PressureReadings(c, sensors, raws, n) == []
  {
    if n > 0 {
      NoneInSweep(c, sensors, raws, n - 1);
    }
  }

  lemma {:induction false} NoPressureSensor(c: Config, sensors: seq<byte>, raws: seq<seq<UInt16>>, n: nat, h: nat)
    requires n <= |raws| && h <= |sensors| && (h > 0 ==> n < |raws|)
    requires forall k :: 0 <= k < |raws| ==> |raws[k]| == |sensors|
    ensures 5 !in sensors ==> PressureHistory(c, sensors, raws, n, h) == []
    decreases n, h
  {
    if 5 !in sensors {
      if h > 0 {
        NoPressureSensor(c, sensors, raws, n, 0);
        NoneInSweep(c, sensors, raws[n], h);
      } else if n > 0 {
        NoPressureSensor(c, sensors, raws, n - 1, |sensors|);
      }
    }
  }

  lemma {:induction false} OneInSweep(c: Config, sensors: seq<byte>, raws: seq<UInt16>, n: nat, p: nat)
    requires n <= |sensors| == |raws| && OnlyAt(sensors, 5, p)
    ensures PressureReadings(c, sensors, raws, n) == if p < n then [Converted(c, raws[p])] else []
  {
    if n > 0 {
      OneInSweep(c, sensors, raws, n - 1, p);
    }
  }

  lemma {:induction false} PressureColumn(c: Config, sensors: seq<byte>, raws: seq<seq<UInt16>>, n: nat, h: nat, p: nat)
    requires n <= |raws| && h <= |sensors| && (h > 0 ==> n < |raws|) && OnlyAt(sensors, 5, p)
    requires forall k :: 0 <= k < |raws| ==> |raws[k]| == |sensors|
    ensures var xs := PressureHistory(c, sensors, raws, n, h);
            && |xs| == (if p < h then n + 1 else n)
            && forall k :: 0 <= k < |xs| ==> xs[k] == Converted(c, raws[k][p])
    decreases n, h
  {
    if h > 0 {
      PressureColumn(c, sensors, raws, n, 0, p);
      OneInSweep(c, sensors, raws[n], h, p);
    } else if n > 0 {
      PressureColumn(c, sensors, raws, n - 1, |sensors|, p);
    }
  }

  lemma {:induction false} OnePressureSensor(c: Config, sensors: seq<byte>, raws: seq<seq<UInt16>>,
                                             n: nat, h: nat, p: nat)
    requires n <= |raws| && h <= |sensors| && (h > 0 ==> n < |raws|) && OnlyAt(sensors, 5, p)
    requires forall k :: 0 <= k < |raws| ==> |raws[k]| == |sensors|
    ensures var xs, m := PressureHistory(c, sensors, raws, n, h), if p < h then n + 1 else n;
            && |xs| == m <= |raws|
            && After(700.0, xs) == AverageOfCounts(700.0, c.slope, c.yint, Counts(raws, m, p))
  {
    var m := if p < h then n + 1 else n;
    PressureColumn(c, sensors, raws, n, h, p);
    AverageOfConverted(c, 700.0, Counts(raws, m, p), PressureHistory(c, sensors, raws, n, h));
  }

  /** The next reading of a sensor that has read p drains its ring and finds the socket gone. */
  predicate Ends(p: seq<Item>, socketOpen: bool) {
    !socketOpen && |p| % CYCLE == 16
  }

  /** None of the first n sensors ends the thread with its next reading; sockets tells for each whether it is open. */
  ghost predicate NoneEnds(pushed: seq<seq<Item>>, sockets: seq<bool>, n: nat)
    requires n <= |pushed| == |sockets|
  {
    n == 0 || (NoneEnds(pushed, sockets, n - 1) && !Ends(pushed[n - 1], sockets[n - 1]))
  }

  lemma {:induction false} NoneEndsExactly(pushed: seq<seq<Item>>, sockets: seq<bool>, n: nat)
    requires n <= |pushed| == |sockets|
    ensures NoneEnds(pushed, sockets, n) <==> forall i :: 0 <= i < n ==> !Ends(pushed[i], sockets[i])
  {
    if n > 0 {
      NoneEndsExactly(pushed, sockets, n - 1);
    }
  }

  /** One empty ring of sixteen items per sensor; objects are the rings and their arrays. */
  method NewBuffers(sensors: seq<byte>) returns (bs: seq<CircularBuffer>, ghost objects: set<object>)
    ensures |bs| == |sensors| && fresh(objects)
    ensures forall i :: 0 <= i < |bs| ==> bs[i] in objects && bs[i].data in objects && bs[i].sensor == sensors[i]
    ensures forall i :: 0 <= i < |bs| ==>
              bs[i].Valid() && bs[i].Capacity() == ITEMS_PER_PACKET && bs[i].Contents() == []
    ensures forall i, j :: 0 <= i < |bs| && 0 <= j < |bs| && i != j ==> bs[i] != bs[j] && bs[i].data != bs[j].data
  {
    bs, objects := [], {};
    for n := 0 to |sensors|
      invariant |bs| == n && fresh(objects)
      invariant forall i :: 0 <= i < n ==> bs[i] in objects && bs[i].data in objects && bs[i].sensor == sensors[i]
      invariant forall i :: 0 <= i < n ==>
                  bs[i].Valid() && bs[i].Capacity() == ITEMS_PER_PACKET && bs[i].Contents() == []
      invariant forall i, j :: 0 <= i < n && 0 <= j < n && i != j ==> bs[i] != bs[j] && bs[i].data != bs[j].data
    {
      var buffer := new CircularBuffer(sensors[n], 16);
      bs, objects := bs + [buffer], objects + {buffer, buffer.data};
    }
  }

  class AtomicBool {
    var value: bool

    constructor (value: bool)
      ensures this.value == value
    {
      this.value := value;
    }
  }

  class PeriodicThread {
    const config: Config
    const pressureShutoff: AtomicBool
    const buffers: seq<CircularBuffer>
    const b: array<byte>
    var logs: seq<seq<byte>>
    var combAvg: real

    /** Everything read so far, per sensor, and every converted PT1 reading. */
    ghost var pushed: seq<seq<Item>>
    ghost var readings: seq<real>

    ghost const Repr: set<object>

    /** The sensor indexes of the rings. */
    ghost const sensors: seq<byte>

    /** Channel i has lost, logged and kept exactly the readings it should. */
    ghost predicate ChannelInv(i: nat)
      requires i < |buffers| == |logs| == |pushed|
      reads this, buffers[i], buffers[i].data
    {
      && buffers[i].Valid() && buffers[i].Capacity() == ITEMS_PER_PACKET
      && buffers[i].Contents() == Held(pushed[i])
      && LogOf(logs[i], buffers[i].sensor, pushed[i])
    }

    /** Different channels use different objects. */
    ghost predicate Apart(i: nat, j: nat)
      requires i < |buffers| && j < |buffers|
    {
      buffers[i] != buffers[j] && buffers[i].data != buffers[j].data
    }

    ghost predicate Valid()
      reads this, Repr
    {
      && this in Repr && b in Repr && pressureShutoff in Repr
      && (forall i :: 0 <= i < |buffers| ==> buffers[i] in Repr && buffers[i].data in Repr)
      && b.Length == PACKET_SIZE && |buffers| == |logs| == |pushed| == |sensors|
      && (forall i {:trigger buffers[i]} :: 0 <= i < |buffers| ==> buffers[i].sensor == sensors[i])
      && (forall i, j :: 0 <= i < |buffers| && 0 <= j < |buffers| && i != j ==> Apart(i, j))
      && (forall i :: 0 <= i < |buffers| ==> ChannelInv(i))
      && combAvg == After(INITIAL_AVERAGE, readings)
    }

    constructor (config: Config, pressureShutoff: AtomicBool, sensors: seq<byte>)
      ensures Valid() && fresh(Repr - {pressureShutoff})
      ensures this.config == config && this.pressureShutoff == pressureShutoff
      ensures this.sensors == sensors
      ensures readings == [] && combAvg == 700.0 && forall i :: 0 <= i < |sensors| ==> pushed[i] == []
    {
      var bs, objects := NewBuffers(sensors);
      this.config := config;
      this.pressureShutoff := pressureShutoff;
      buffers := bs;
      b := new byte[PACKET_SIZE];
      logs := seq(|sensors|, _ => []);
      combAvg := INITIAL_AVERAGE;
      pushed, readings := seq(|sensors|, _ => []), [];
      Repr := {this, pressureShutoff, b} + objects;
      this.sensors := sensors;
    }

    /** Every log decodes to the readings that reached its packets. */
    lemma {:induction false} LogsDecode()
      requires Valid()
      ensures forall i :: 0 <= i < |logs| ==> DecodeLog(logs[i]) == AsRecords(Packed(pushed[i]))
    {
      forall i | 0 <= i < |logs|
        ensures DecodeLog(logs[i]) == AsRecords(Packed(pushed[i]))
      {
        assert ChannelInv(i);
        LogRoundTrip(logs[i], buffers[i].sensor, pushed[i]);
      }
    }

    /** A PT1 reading enters the average, and the average decides the flag. */
    method FoldPressure(reading: UInt16)
      requires Valid()
      modifies this`combAvg, this`readings, pressureShutoff
      ensures Valid()
      ensures readings == old(readings) + [Converted(config, reading)]
      ensures combAvg == 0.95 * old(combAvg) + 0.05 * Converted(config, reading)
      ensures pressureShutoff.value == (combAvg > config.pressureMax || combAvg < config.pressureMin)
    {
      var converted := Converted(config, reading);
      combAvg := Update(combAvg, converted);
      pressureShutoff.value := OutOfBand(config, combAvg);
      assert (readings + [converted])[..|readings|] == readings;
      readings := readings + [converted];
      forall i | 0 <= i < |buffers|
        ensures ChannelInv(i)
      {
        assert old(ChannelInv(i));
      }
    }

    /** One reading of sensor i: push it, and drain a full ring into the log. The thread ends if the socket is gone. */
    method Record(i: nat, reading: UInt16, timestamp: UInt64, socketOpen: bool) returns (alive: bool)
      requires Valid() && i < |buffers|
      modifies this`logs, this`pushed, buffers[i], buffers[i].data, b
      ensures Valid()
      ensures pushed == old(pushed)[i := old(pushed[i]) + [Item(reading, timestamp)]]
      ensures alive == !Ends(old(pushed[i]), socketOpen)
    {
      assert ChannelInv(i);
      var log, drained := Exchange(buffers[i], b, logs[i], pushed[i], reading, timestamp);
      logs, pushed := logs[i := log], pushed[i := pushed[i] + [Item(reading, timestamp)]];
      alive := socketOpen || !drained;
      forall j | 0 <= j < |buffers|
        ensures ChannelInv(j)
      {
        if j != i {
          assert old(ChannelInv(j)) && Apart(i, j);
        }
      }
    }

    /** The flag and the average are unchanged since there were n PT1 readings, or a later reading has set them. */
    ghost predicate FlagFollows(n: nat, flag: bool, avg: real)
      reads this, pressureShutoff
    {
      if |readings| <= n then pressureShutoff.value == flag && combAvg == avg
      else pressureShutoff.value == OutOfBand(config, combAvg)
    }

    /** What the thread does with one reading of sensor i. */
    method Handle(i: nat, raw: UInt16, timestamp: UInt64, socketOpen: bool) returns (alive: bool)
      requires Valid() && i < |buffers|
      modifies Repr
      ensures Valid()
      ensures pushed == old(pushed)[i := old(pushed[i]) + [Item(raw, timestamp)]]
      ensures readings == old(readings) + PressureReading(config, buffers[i].sensor, raw)
      ensures FlagFollows(|old(readings)|, old(pressureShutoff.value), old(combAvg))
      ensures alive == !Ends(old(pushed[i]), socketOpen)
    {
      if buffers[i].sensor == PT1 {
        FoldPressure(raw);
      }
      alive := Record(i, raw, timestamp, socketOpen);
    }

    /** From pushed p, PT1 readings r, flag and average, the thread has gone through the first n sensors of a sweep. */
    ghost predicate SweptTo(p: seq<seq<Item>>, r: seq<real>, flag: bool, avg: real,
                            raws: seq<UInt16>, stamps: seq<UInt64>, n: nat)
      requires n <= |p| == |raws| == |stamps| == |sensors|
      reads this, pressureShutoff
    {
      && pushed == WithReadings(p, raws, stamps, n)
      && readings == r + PressureReadings(config, sensors, raws, n)
      && FlagFollows(|r|, flag, avg)
    }

    /** The next sensor of a sweep. */
    method HandleNext(ghost p: seq<seq<Item>>, ghost r: seq<real>, ghost flag: bool, ghost avg: real,
                      raws: seq<UInt16>, stamps: seq<UInt64>, n: nat, socketOpen: bool) returns (alive: bool)
      requires Valid() && n < |p| == |raws| == |stamps| == |buffers| && SweptTo(p, r, flag, avg, raws, stamps, n)
      modifies Repr
      ensures Valid() && SweptTo(p, r, flag, avg, raws, stamps, n + 1)
      ensures alive == !Ends(p[n], socketOpen)
    {
      WithReadingsAt(p, raws, stamps, n, n);
      alive := Handle(n, raws[n], stamps[n], socketOpen);
    }

    /**
     One pass over the sensors, in order. It ends the thread exactly when a drained packet finds the socket gone,
     right after that sensor; until then every sensor gets its reading and PT1 drives the flag.
     */
    method Sweep(raws: seq<UInt16>, stamps: seq<UInt64>, sockets: seq<bool>) returns (alive: bool, handled: nat)
      requires Valid() && |raws| == |stamps| == |sockets| == |buffers|
      modifies Repr
      ensures Valid() && handled <= |buffers|
      ensures alive ==> handled == |buffers| && NoneEnds(old(pushed), sockets, handled)
      ensures !alive ==> handled > 0 && NoneEnds(old(pushed), sockets, handled - 1)
      ensures !alive ==> Ends(old(pushed)[handled - 1], sockets[handled - 1])
      ensures SweptTo(old(pushed), old(readings), old(pressureShutoff.value), old(combAvg), raws, stamps, handled)
    {
      alive, handled := true, 0;
      ghost var p, r, flag, avg := pushed, readings, pressureShutoff.value, combAvg;
      while handled < |buffers|
        invariant Valid() && alive && handled <= |buffers| == |p|
        invariant SweptTo(p, r, flag, avg, raws, stamps, handled) && NoneEnds(p, sockets, handled)
      {
        alive := HandleNext(p, r, flag, avg, raws, stamps, handled, sockets[handled]);
        handled := handled + 1;
        if !alive {
          assert NoneEnds(p, sockets, handled - 1) && Ends(p[handled - 1], sockets[handled - 1]);
          break;
        }
      }
    }

    /** Since its start with flag was, the thread has gone through n sweeps and the first h sensors of the next. */
    ghost predicate HasRun(raws: seq<seq<UInt16>>, stamps: seq<seq<UInt64>>, n: nat, h: nat, was: bool)
      requires Rectangular(raws, stamps, |sensors|)
      reads this, pressureShutoff
    {
      && |pushed| == |sensors| && h <= |sensors| && HasRead(pushed, raws, stamps, n, h)
      && readings == PressureHistory(config, sensors, raws, n, h)
      && pressureShutoff.value == if readings == [] then was else OutOfBand(config, combAvg)
    }

    /** What the logs hold then, in terms of the counts and timestamps. */
    lemma {:induction false} LogsHold(raws: seq<seq<UInt16>>, stamps: seq<seq<UInt64>>, n: nat, h: nat, was: bool)
      requires Valid() && Rectangular(raws, stamps, |buffers|) && HasRun(raws, stamps, n, h, was)
      ensures forall i :: 0 <= i < |logs| ==> Logged(logs[i], raws, stamps, if i < h then n + 1 else n, i)
    {
      LogsDecode();
      forall i | 0 <= i < |logs|
        ensures Logged(logs[i], raws, stamps, if i < h then n + 1 else n, i)
      {
        assert pushed[i] == Column(raws, stamps, if i < h then n + 1 else n, i);
        ColumnLogged(logs[i], raws, stamps, if i < h then n + 1 else n, i);
      }
    }

    /** One more sweep. */
    method SweepAgain(raws: seq<seq<UInt16>>, stamps: seq<seq<UInt64>>, sockets: seq<seq<bool>>, n: nat,
                      ghost was: bool)
      returns (alive: bool, h: nat)
      requires Valid() && Rectangular(raws, stamps, |buffers|) && n < |raws| == |sockets|
      requires |sockets[n]| == |buffers| && HasRun(raws, stamps, n, 0, was)
      modifies Repr
      ensures Valid()
      ensures if alive then NoneEndsAt(sockets, n, |buffers|) && HasRun(raws, stamps, n + 1, 0, was)
              else 0 < h <= |buffers| && NoneEndsAt(sockets, n, h - 1) && EndsAt(sockets, n, h - 1)
                   && HasRun(raws, stamps, n, h, was)
    {
      ghost var before := pushed;
      alive, h := Sweep(raws[n], stamps[n], sockets[n]);
      HasReadMore(before, raws, stamps, n, h);
      SweepEnds(before, raws, stamps, sockets, n, if alive then h else h - 1);
    }
  }

  /** The first n sensors have each got one more reading. */
  function WithReadings(p: seq<seq<Item>>, raws: seq<UInt16>, stamps: seq<UInt64>, n: nat): (r: seq<seq<Item>>)
    requires n <= |p| == |raws| == |stamps|
    ensures |r| == |p|
  {
    if n == 0 then p
    else WithReadings(p, raws, stamps, n - 1)[n - 1 := p[n - 1] + [Item(raws[n - 1], stamps[n - 1])]]
  }

  lemma {:induction false} WithReadingsAt(p: seq<seq<Item>>, raws: seq<UInt16>, stamps: seq<UInt64>, n: nat, i: nat)
    requires n <= |p| == |raws| == |stamps| && i < |p|
    ensures WithReadings(p, raws, stamps, n)[i] == if i < n then p[i] + [Item(raws[i], stamps[i])] else p[i]
  {
    if n > 0 {
      WithReadingsAt(p, raws, stamps, n - 1, i);
    }
  }

  /** Pushes a reading; a full ring drops it and is drained into the packet buffer, which is appended to the log. */
  method Exchange(buffer: CircularBuffer, b: array<byte>, log: seq<byte>, ghost p: seq<Item>,
                  reading: UInt16, timestamp: UInt64)
    returns (log': seq<byte>, drained: bool)
    requires buffer.Valid() && buffer.Capacity() == ITEMS_PER_PACKET && b.Length == PACKET_SIZE
    requires buffer.Contents() == Held(p) && LogOf(log, buffer.sensor, p)
    modifies buffer, buffer.data, b
    ensures buffer.Valid()
    ensures buffer.Contents() == Held(p + [Item(reading, timestamp)])
    ensures LogOf(log', buffer.sensor, p + [Item(reading, timestamp)])
    ensures drained == (|p| % CYCLE == 16)
  {
    var status := buffer.PushDataItem(reading, timestamp);
    log', drained := log, status == FULL;
    if status == FULL {
      ghost var before := b[..];
      var _ := buffer.GetData(b, PACKET_SIZE);
      log' := log + b[..];
      assert Held(p)[..16] == Held(p);
      PushDropped(log, buffer.sensor, p, Item(reading, timestamp), before);
    } else {
      PushKept(log, buffer.sensor, p, Item(reading, timestamp));
    }
  }

  /** What sensor i has read in the first n sweeps. */
  function Column(raws: seq<seq<UInt16>>, stamps: seq<seq<UInt64>>, n: nat, i: nat): seq<Item>
    requires n <= |raws| == |stamps| && forall k :: 0 <= k < |raws| ==> i < |raws[k]| && i < |stamps[k]|
  {
    seq(n, k requires 0 <= k < n => Item(raws[k][i], stamps[k][i]))
  }

  /** Every sensor has got its readings of n sweeps, and the first h sensors those of the next. */
  ghost predicate HasRead(pushed: seq<seq<Item>>, raws: seq<seq<UInt16>>, stamps: seq<seq<UInt64>>, n: nat, h: nat)
    requires Rectangular(raws, stamps, |pushed|)
  {
    && n <= |raws| && (h > 0 ==> n < |raws|)
    && forall i :: 0 <= i < |pushed| ==> pushed[i] == Column(raws, stamps, if i < h then n + 1 else n, i)
  }

  ghost predicate Rectangular(raws: seq<seq<UInt16>>, stamps: seq<seq<UInt64>>, width: nat) {
    |raws| == |stamps| && forall k :: 0 <= k < |raws| ==> |raws[k]| == |stamps[k]| == width
  }

  lemma {:induction false} HasReadMore(pushed: seq<seq<Item>>, raws: seq<seq<UInt16>>, stamps: seq<seq<UInt64>>,
                                       n: nat, h: nat)
    requires Rectangular(raws, stamps, |pushed|) && HasRead(pushed, raws, stamps, n, 0) && n < |raws| && h <= |pushed|
    ensures HasRead(WithReadings(pushed, raws[n], stamps[n], h), raws, stamps, n, h)
    ensures h == |pushed| ==> HasRead(WithReadings(pushed, raws[n], stamps[n], h), raws, stamps, n + 1, 0)
  {
    var more := WithReadings(pushed, raws[n], stamps[n], h);
    forall i | 0 <= i < |pushed|
      ensures more[i] == Column(raws, stamps, if i < h then n + 1 else n, i)
    {
      assert pushed[i] == Column(raws, stamps, n, i);
      WithReadingsAt(pushed, raws[n], stamps[n], h, i);
    }
  }

  /** Of m readings in column i the log decodes to the first sixteen of every seventeen, with their timestamps. */
  ghost predicate Logged(log: seq<byte>, raws: seq<seq<UInt16>>, stamps: seq<seq<UInt64>>, m: nat, i: nat)
    requires m <= |raws| == |stamps| && forall k :: 0 <= k < |raws| ==> i < |raws[k]| && i < |stamps[k]|
  {
    && |DecodeLog(log)| == 16 * (m / 17)
    && forall j :: 0 <= j < |DecodeLog(log)| ==>
         var k := 17 * (j / 16) + j % 16;
         k < m && DecodeLog(log)[j] == Record(Signed16(raws[k][i]), stamps[k][i])
  }

  lemma {:induction false} ColumnLogged(log: seq<byte>, raws: seq<seq<UInt16>>, stamps: seq<seq<UInt64>>,
                                        m: nat, i: nat)
    requires m <= |raws| == |stamps| && forall k :: 0 <= k < |raws| ==> i < |raws[k]| && i < |stamps[k]|
    requires DecodeLog(log) == AsRecords(Packed(Column(raws, stamps, m, i)))
    ensures Logged(log, raws, stamps, m, i)
  {
    var p := Column(raws, stamps, m, i);
    PackedAt(p, 0);
    forall j | 0 <= j < |DecodeLog(log)|
      ensures var k := 17 * (j / 16) + j % 16;
              k < m && DecodeLog(log)[j] == Record(Signed16(raws[k][i]), stamps[k][i])
    {
      PackedAt(p, j);
    }
  }

  /** Sweep k is the 17th of a cycle, and the drained packet of sensor i finds the socket gone. */
  predicate EndsAt(sockets: seq<seq<bool>>, k: nat, i: nat)
    requires k < |sockets| && i < |sockets[k]|
  {
    k % CYCLE == 16 && !sockets[k][i]
  }

  /** No packet of the first h sensors in sweep k does. */
  ghost predicate NoneEndsAt(sockets: seq<seq<bool>>, k: nat, h: nat)
    requires k < |sockets| && h <= |sockets[k]|
  {
    forall i :: 0 <= i < h ==> !EndsAt(sockets, k, i)
  }

  /** All sensors have read equally much before a sweep, so the number of the sweep tells which packets are full. */
  lemma {:induction false} SweepEnds(pushed: seq<seq<Item>>, raws: seq<seq<UInt16>>, stamps: seq<seq<UInt64>>,
                                     sockets: seq<seq<bool>>, n: nat, h: nat)
    requires Rectangular(raws, stamps, |pushed|) && HasRead(pushed, raws, stamps, n, 0)
    requires n < |raws| == |sockets| && |sockets[n]| == |pushed| && h <= |pushed|
    ensures NoneEnds(pushed, sockets[n], h) <==> NoneEndsAt(sockets, n, h)
    ensures h < |pushed| ==> Ends(pushed[h], sockets[n][h]) == EndsAt(sockets, n, h)
  {
    NoneEndsExactly(pushed, sockets[n], h);
    forall i | 0 <= i < |pushed|
      ensures Ends(pushed[i], sockets[n][i]) == EndsAt(sockets, n, i)
    {
      assert pushed[i] == Column(raws, stamps, n, i);
    }
  }

  /** A thread that has read nothing. */
  method NewThread(config: Config, flag: AtomicBool, sensors: seq<byte>,
                   ghost raws: seq<seq<UInt16>>, ghost stamps: seq<seq<UInt64>>) returns (thread: PeriodicThread)
    requires Rectangular(raws, stamps, |sensors|)
    ensures fresh(thread) && fresh(thread.Repr - {flag}) && thread.Valid() && thread.pressureShutoff == flag
    ensures thread.config == config && thread.sensors == sensors
    ensures thread.HasRun(raws, stamps, 0, 0, flag.value)
  {
    thread := new PeriodicThread(config, flag, sensors);
  }

  /** The thread from its start, in terms of its history. */
  method RunThread(config: Config, flag: AtomicBool, sensors: seq<byte>, raws: seq<seq<UInt16>>,
                   stamps: seq<seq<UInt64>>, sockets: seq<seq<bool>>)
    returns (thread: PeriodicThread, n: nat, h: nat)
    requires Rectangular(raws, stamps, |sensors|) && |sockets| == |raws|
    requires forall k :: 0 <= k < |sockets| ==> |sockets[k]| == |sensors|
    modifies flag
    ensures fresh(thread) && thread.Valid() && thread.config == config && thread.sensors == sensors
    ensures thread.pressureShutoff == flag
    ensures n <= |raws| && forall k :: 0 <= k < n ==> NoneEndsAt(sockets, k, |sensors|)
    ensures if n < |raws| then 0 < h <= |sensors| && NoneEndsAt(sockets, n, h - 1) && EndsAt(sockets, n, h - 1)
            else h == 0
    ensures thread.HasRun(raws, stamps, n, h, old(flag.value))
  {
    thread := NewThread(config, flag, sensors, raws, stamps);
    n, h := 0, 0;
    var alive := true;
    while n < |raws| && alive
      invariant fresh(thread.Repr - {flag}) && thread.Valid() && thread.pressureShutoff == flag
      invariant thread.config == config && thread.sensors == sensors
      invariant n <= |raws| && forall k :: 0 <= k < n ==> NoneEndsAt(sockets, k, |sensors|)
      invariant alive ==> h == 0
      invariant !alive ==> n < |raws| && 0 < h <= |sensors|
      invariant !alive ==> NoneEndsAt(sockets, n, h - 1) && EndsAt(sockets, n, h - 1)
      invariant thread.HasRun(raws, stamps, n, h, old(flag.value))
      decreases |raws| - n, alive
    {
      alive, h := thread.SweepAgain(raws, stamps, sockets, n, old(flag.value));
      if alive {
        n, h := n + 1, 0;
      }
    }
  }

  /**
   The thread from its start, for as many passes as there are readings; sockets tells for each pass and sensor whether
   the socket is open when that sensor's packet would be sent. The thread ends at the first packet that is drained
   without a socket, and only there. However it ends, each log decodes to exactly what reached its packets, and the
   flag is that of the average of all PT1 readings.
   */
  method ThreadFunc(config: Config, flag: AtomicBool, sensors: seq<byte>, raws: seq<seq<UInt16>>,
                    stamps: seq<seq<UInt64>>, sockets: seq<seq<bool>>)
    returns (thread: PeriodicThread, n: nat, h: nat)
    requires Rectangular(raws, stamps, |sensors|) && |sockets| == |raws|
    requires forall k :: 0 <= k < |sockets| ==> |sockets[k]| == |sensors|
    modifies flag
    ensures fresh(thread) && thread.Valid() && |thread.logs| == |sensors| == |thread.pushed|
    ensures n <= |raws| && forall k :: 0 <= k < n ==> NoneEndsAt(sockets, k, |sensors|)
    ensures if n < |raws| then 0 < h <= |sensors| && NoneEndsAt(sockets, n, h - 1) && EndsAt(sockets, n, h - 1)
            else h == 0
    ensures HasRead(thread.pushed, raws, stamps, n, h)
    ensures forall i :: 0 <= i < |sensors| ==> DecodeLog(thread.logs[i]) == AsRecords(Packed(thread.pushed[i]))
    ensures var xs := PressureHistory(config, sensors, raws, n, h);
            flag.value == if xs == [] then old(flag.value) else OutOfBand(config, After(INITIAL_AVERAGE, xs))
    ensures forall i :: 0 <= i < |sensors| ==> Logged(thread.logs[i], raws, stamps, if i < h then n + 1 else n, i)
    ensures 5 !in sensors ==> flag.value == old(flag.value)
    ensures forall p: nat :: OnlyAt(sensors, 5, p) ==>
              FlagOf(config, raws, if p < h then n + 1 else n, p, old(flag.value), flag.value)
  {
    thread, n, h := RunThread(config, flag, sensors, raws, stamps, sockets);
    thread.LogsDecode();
    thread.LogsHold(raws, stamps, n, h, old(flag.value));
    NoPressureSensor(config, sensors, raws, n, h);
    forall p: nat | OnlyAt(sensors, 5, p)
      ensures FlagOf(config, raws, if p < h then n + 1 else n, p, old(flag.value), flag.value)
    {
      OnePressureSensor(config, sensors, raws, n, h, p);
      FlagIs(config, raws, if p < h then n + 1 else n, p, old(flag.value), flag.value,
             PressureHistory(config, sensors, raws, n, h));
    }
  }
}
