/** The ring of readings of one sensor, and draining it into a packet. */
module CircularBuffers {
  import opened Bytes
  import opened Packets
  import opened Sequences

  datatype BuffStatus = JUSTRIGHT | EMPTY | FULL

  /** How many of held items a packet of size bytes takes: as many as fit, up to all of them. */
  function Drained(held: nat, size: nat): (n: nat)
    requires HEADER_SIZE <= size
    ensures n <= held && 4 + 16 * n <= size && (n == held || size < 4 + 16 * (n + 1))
  {
    var room := (size - 4) / 16;
    if held < room then held else room
  }

  /** The items held after x is pushed: a full ring drops it. */
  function AfterPush(capacity: int, held: seq<Item>, x: Item): seq<Item> {
    if |held| == capacity then held else held + [x]
  }

  /** The items held after a packet of size bytes is drained. */
  function AfterDrain(held: seq<Item>, size: nat): seq<Item>
    requires HEADER_SIZE <= size
  {
    held[Drained(|held|, size)..]
  }

  /** A store of a k-byte little-endian integer into a byte buffer. */
  method Store(buf: array<byte>, at: nat, n: nat, k: nat)
    requires at + k <= buf.Length
    modifies buf
    ensures buf[..] == old(buf[..at]) + Le(n, k) + old(buf[at + k..])
  {
    var s := Le(n, k);
    forall i | 0 <= i < k {
      buf[at + i] := s[i];
    }
  }

  /** The reading and the timestamp are stored; the six bytes between them are not. */
  method StoreItem(buf: array<byte>, at: nat, x: Item)
    requires at + ITEM_SIZE <= buf.Length
    modifies buf
    ensures buf[..] == PutItem(old(buf[..]), at, x)
  {
    Store(buf, at, x.reading, 2);
    Store(buf, at + 8, x.timestamp, 8);
  }

  /** A circular buffer of capacity items in capacity + 1 slots; head is where the next item goes, tail the oldest. */
  class CircularBuffer {
    const sensor: byte
    const data: array<Item>
    var head: nat
    var tail: nat

    ghost predicate Valid()
      reads this
    {
      head < data.Length && tail < data.Length
    }

    ghost function Capacity(): int {
      data.Length - 1
    }

    ghost function Contents(): (s: seq<Item>)
      requires Valid()
      reads this, data
      ensures |s| <= Capacity()
    {
      if tail <= head then data[tail..head] else data[tail..] + data[..head]
    }

    constructor (sensor: byte, numItems: UInt16)
      ensures Valid() && fresh(data) && this.sensor == sensor && Capacity() == numItems && Contents() == []
    {
      this.sensor := sensor;
      data := new Item[numItems + 1];
      head, tail := 0, 0;
    }

    /** Appends a reading, or drops it and reports FULL. */
    method PushDataItem(reading: UInt16, timestamp: UInt64) returns (status: BuffStatus)
      requires Valid()
      modifies this`head, data
      ensures Valid()
      ensures status == if |old(Contents())| == Capacity() then FULL else JUSTRIGHT
      ensures Contents() == AfterPush(Capacity(), old(Contents()), Item(reading, timestamp))
      ensures Contents() == old(Contents()) + if status == FULL then [] else [Item(reading, timestamp)]
    {
      var next := head + 1;
      if next >= data.Length {
        next := 0;
      }
      if next == tail {
        return FULL;
      }
      data[head] := Item(reading, timestamp);
      head := next;
      return JUSTRIGHT;
    }

    /** Takes the oldest item out and writes it into buf at offset at; the pad bytes are not written. */
    method PopDataItem(buf: array<byte>, at: nat) returns (status: BuffStatus)
      requires Valid() && at + ITEM_SIZE <= buf.Length
      modifies this`tail, buf
      ensures Valid()
      ensures status == if old(Contents()) == [] then EMPTY else JUSTRIGHT
      ensures status == EMPTY ==> Contents() == [] && buf[..] == old(buf[..])
      ensures status == JUSTRIGHT ==>
                Contents() == old(Contents())[1..] && buf[..] == PutItem(old(buf[..]), at, old(Contents())[0])
    {
      if head == tail {
        return EMPTY;
      }
      assert data[tail] == Contents()[0];
      StoreItem(buf, at, data[tail]);
      tail := tail + 1;
      if tail >= data.Length {
        tail := 0;
      }
      return JUSTRIGHT;
    }

    /** Drains as many items as fit into a packet of size bytes, and returns the length of the packet. */
    method GetData(buf: array<byte>, size: UInt16) returns (length: UInt16)
      requires Valid() && HEADER_SIZE <= size <= buf.Length
      modifies this`tail, buf
      ensures Valid()
      ensures length == Offset(Drained(|old(Contents())|, size))
      ensures Contents() == AfterDrain(old(Contents()), size)
      ensures buf[..] == Packet(old(buf[..]), sensor, old(Contents())[..Drained(|old(Contents())|, size)])
    {
      length := WriteItems(buf, size);
      WriteHeader(buf, length);
    }

    /** The draining loop: one item after the other, as long as there is room and data. */
    method WriteItems(buf: array<byte>, size: UInt16) returns (bytesWritten: UInt16)
      requires Valid() && HEADER_SIZE <= size <= buf.Length
      modifies this`tail, buf
      ensures Valid()
      ensures bytesWritten == Offset(Drained(|old(Contents())|, size))
      ensures Contents() == AfterDrain(old(Contents()), size)
      ensures buf[..] == PutItems(old(buf[..]), old(Contents())[..Drained(|old(Contents())|, size)])
    {
      ghost var before, items := buf[..], Contents();
      ghost var n := 0;
      bytesWritten := HEADER_SIZE;
      while bytesWritten + ITEM_SIZE <= size
        invariant Valid() && n <= Drained(|items|, size) && bytesWritten == Offset(n)
        invariant Contents() == items[n..]
        invariant buf[..] == PutItems(before, items[..n])
      {
        var status := PopDataItem(buf, bytesWritten);
        if status == EMPTY {
          break;
        }
        PutOneMore(before, items, n);
        assert items[n..][0] == items[n] && items[n..][1..] == items[n + 1..];
        bytesWritten := bytesWritten + ITEM_SIZE;
        n := n + 1;
      }
    }

    method WriteHeader(buf: array<byte>, length: UInt16)
      requires HEADER_SIZE <= buf.Length
      modifies buf
      ensures buf[..] == PutHeader(old(buf[..]), sensor, length)
    {
      buf[0] := sensor;
      Store(buf, 2, length, 2);
      buf[1] := 0;
    }
  }

  lemma {:induction false} PutOneMore(b: seq<byte>, xs: seq<Item>, n: nat)
    requires n < |xs| && Offset(n + 1) <= |b|
    ensures PutItems(b, xs[..n + 1]) == PutItem(PutItems(b, xs[..n]), Offset(n), xs[n])
  {
    var ys := xs[..n + 1];
    assert |ys| - 1 == n && ys[n] == xs[n];
    assert ys[..n] == xs[..n];
  }

  // ---- conservation over any run of pushes and drains ----

  datatype Op = Push(item: Item) | Drain(size: UInt16)

  /** What a run of operations has done: what the ring holds, and every item pushed, accepted, rejected and drained. */
  datatype Ledger = Ledger(
    held: seq<Item>, accepted: seq<Item>, drained: seq<Item>, pushed: seq<Item>, rejected: seq<Item>)

  /** One operation, as PushDataItem and GetData specify it. */
  function Apply(capacity: nat, l: Ledger, op: Op): Ledger
    requires op.Drain? ==> HEADER_SIZE <= op.size
  {
    match op
    case Push(x) =>
      l.(held := AfterPush(capacity, l.held, x), pushed := l.pushed + [x],
         accepted := if |l.held| == capacity then l.accepted else l.accepted + [x],
         rejected := if |l.held| == capacity then l.rejected + [x] else l.rejected)
    case Drain(size) =>
      l.(held := AfterDrain(l.held, size), drained := l.drained + l.held[..Drained(|l.held|, size)])
  }

  function Run(capacity: nat, ops: seq<Op>): Ledger
    requires ValidOps(ops)
  {
    if ops == [] then Ledger([], [], [], [], [])
    else Apply(capacity, Run(capacity, ops[..|ops| - 1]), ops[|ops| - 1])
  }

  /** xs is what is left of ys after deleting some elements. */
  ghost predicate Subsequence(xs: seq<Item>, ys: seq<Item>) {
    if xs == [] then true
    else if ys == [] then false
    else
      || Subsequence(xs, ys[..|ys| - 1])
      || (xs[|xs| - 1] == ys[|ys| - 1] && Subsequence(xs[..|xs| - 1], ys[..|ys| - 1]))
  }

  ghost predicate ValidOps(ops: seq<Op>) {
    forall i :: 0 <= i < |ops| && ops[i].Drain? ==> HEADER_SIZE <= ops[i].size
  }

  ghost predicate Balanced(capacity: nat, l: Ledger) {
    && l.accepted == l.drained + l.held
    && |l.pushed| == |l.drained| + |l.held| + |l.rejected|
    && |l.held| <= capacity
  }

  lemma {:induction false} BalanceStep(capacity: nat, l: Ledger, op: Op)
    requires Balanced(capacity, l) && (op.Drain? ==> HEADER_SIZE <= op.size)
    ensures Balanced(capacity, Apply(capacity, l, op))
  {
    match op
    case Push(x) => Regroup(l.drained, l.held, [x]);
    case Drain(size) =>
      var k := Drained(|l.held|, size);
      Regroup(l.drained, l.held[..k], l.held[k..]);
      assert l.held == l.held[..k] + l.held[k..];
  }

  lemma {:induction false} SubsequenceStep(capacity: nat, l: Ledger, op: Op)
    requires Subsequence(l.accepted, l.pushed) && (op.Drain? ==> HEADER_SIZE <= op.size)
    ensures var l' := Apply(capacity, l, op); Subsequence(l'.accepted, l'.pushed)
  {
    if op.Push? {
      assert (l.pushed + [op.item])[..|l.pushed|] == l.pushed;
      assert (l.accepted + [op.item])[..|l.accepted|] == l.accepted;
    }
  }

  /** Nothing accepted is lost, duplicated or reordered, whatever the capacity and the packet sizes. */
  lemma {:induction false} Conservation(capacity: nat, ops: seq<Op>)
    requires ValidOps(ops)
    ensures Balanced(capacity, Run(capacity, ops))
    ensures Subsequence(Run(capacity, ops).accepted, Run(capacity, ops).pushed)
  {
    if ops != [] {
      Conservation(capacity, ops[..|ops| - 1]);
      BalanceStep(capacity, Run(capacity, ops[..|ops| - 1]), ops[|ops| - 1]);
      SubsequenceStep(capacity, Run(capacity, ops[..|ops| - 1]), ops[|ops| - 1]);
    }
  }

  /** One operation on a ring that holds what the ledger says: the records of its packet, and whether it is FULL. */
  method OperateOnce(ring: CircularBuffer, buf: array<byte>, op: Op, ghost l: Ledger)
    returns (records: seq<Record>, full: bool)
    requires ring.Valid() && ring.Contents() == l.held && (op.Drain? ==> HEADER_SIZE <= op.size <= buf.Length)
    modifies ring, ring.data, buf
    ensures ring.Valid()
    ensures var l' := Apply(ring.Capacity(), l, op);
            && ring.Contents() == l'.held && AsRecords(l'.drained) == AsRecords(l.drained) + records
            && |l'.rejected| == |l.rejected| + if full then 1 else 0
  {
    records, full := [], false;
    match op {
      case Push(x) =>
        var status := ring.PushDataItem(x.reading, x.timestamp);
        full := status == FULL;
      case Drain(size) =>
        ghost var before, xs := buf[..], l.held[..Drained(|l.held|, size)];
        var length := ring.GetData(buf, size);
        UnpackPacket(before, ring.sensor, xs);
        records := UnpackItems(buf[..], (length - HEADER_SIZE) / ITEM_SIZE);
        AsRecordsAppend(l.drained, xs);
    }
  }

  lemma {:induction false} AsRecordsAppend(xs: seq<Item>, ys: seq<Item>)
    ensures AsRecords(xs + ys) == AsRecords(xs) + AsRecords(ys)
  {
  }

  /**
   Operations carried out on a ring, each drain through the packet buffer buf: the ring ends with what the ledger holds,
   the packets unpack to what it has drained, and FULL is reported once for each item it has rejected.
   */
  method Operate(ring: CircularBuffer, buf: array<byte>, ops: seq<Op>) returns (records: seq<Record>, rejected: nat)
    requires ring.Valid() && ring.Contents() == [] && ValidOps(ops)
    requires forall i :: 0 <= i < |ops| && ops[i].Drain? ==> ops[i].size <= buf.Length
    modifies ring, ring.data, buf
    ensures ring.Valid()
    ensures var l := Run(ring.Capacity(), ops);
            && Balanced(ring.Capacity(), l) && Subsequence(l.accepted, l.pushed)
            && ring.Contents() == l.held && records == AsRecords(l.drained) && rejected == |l.rejected|
  {
    records, rejected := [], 0;
    ghost var l := Run(ring.Capacity(), []);
    for n := 0 to |ops|
      invariant ring.Valid() && l == Run(ring.Capacity(), ops[..n]) && ring.Contents() == l.held
      invariant records == AsRecords(l.drained) && rejected == |l.rejected|
    {
      assert ops[..n + 1][..n] == ops[..n] && ops[..n + 1][n] == ops[n];
      var more, full := OperateOnce(ring, buf, ops[n], l);
      l := Apply(ring.Capacity(), l, ops[n]);
      records, rejected := records + more, rejected + if full then 1 else 0;
    }
    assert ops[..|ops|] == ops;
    Conservation(ring.Capacity(), ops);
  }
}
