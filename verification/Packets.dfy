/** The packet a sensor's readings travel in, a 4-byte header and 16-byte items, and how a log of them is read back. */
module Packets {
  import opened Bytes

  const HEADER_SIZE: nat := 4
  const ITEM_SIZE: nat := 16

  /** BUFF_SIZE: room for a header and 16 items. */
  const PACKET_SIZE: nat := 260
  const ITEMS_PER_PACKET: nat := 16

  /** Where item n of a packet starts. */
  function Offset(n: nat): nat {
    4 + 16 * n
  }

  datatype Item = Item(reading: UInt16, timestamp: UInt64)

  /** What the decoder reports for an item: the reading as a signed 16-bit number, and the timestamp. */
  datatype Record = Record(d: int, t: UInt64)

  // ---- writing ----

  /** Bytes b after an item is stored at offset at; the six pad bytes keep what they held. */
  function PutItem(b: seq<byte>, at: nat, x: Item): (r: seq<byte>)
    requires at + ITEM_SIZE <= |b|
    ensures |r| == |b|
  {
    b[..at] + Le(x.reading, 2) + b[at + 2..at + 8] + Le(x.timestamp, 8) + b[at + 16..]
  }

  /** Items stored one after the other behind the header. */
  function PutItems(b: seq<byte>, xs: seq<Item>): (r: seq<byte>)
    requires Offset(|xs|) <= |b|
    ensures |r| == |b|
  {
    if xs == [] then b
    else PutItem(PutItems(b, xs[..|xs| - 1]), Offset(|xs| - 1), xs[|xs| - 1])
  }

  /** The header: sensor, valid (always 0) and the length in bytes, header included. */
  function PutHeader(b: seq<byte>, sensor: byte, length: UInt16): (r: seq<byte>)
    requires HEADER_SIZE <= |b|
    ensures |r| == |b|
  {
    [sensor, 0] + Le(length, 2) + b[HEADER_SIZE..]
  }

  /** The buffer b after a packet with the items xs has been written into it. */
  function Packet(b: seq<byte>, sensor: byte, xs: seq<Item>): (r: seq<byte>)
    requires Offset(|xs|) <= |b| && Offset(|xs|) < 0x1_0000
    ensures |r| == |b|
  {
    PutHeader(PutItems(b, xs), sensor, Offset(|xs|))
  }

  // ---- reading ----

  /** One item unpacked with the format h6xQ. */
  function Unpack(b: seq<byte>): Record
    requires |b| == ITEM_SIZE
  {
    UnpackBounds(b);
    Record(Signed16(FromLe(b[0..2])), FromLe(b[8..16]))
  }

  lemma {:induction false} FromLeBound(s: seq<byte>)
    ensures FromLe(s) < Pow256(|s|)
  {
    if s != [] {
      FromLeBound(s[1..]);
    }
  }

  lemma {:induction false} UnpackBounds(b: seq<byte>)
    requires |b| == ITEM_SIZE
    ensures FromLe(b[0..2]) < 0x1_0000 && FromLe(b[8..16]) < 0x1_0000_0000_0000_0000
  {
    FromLeBound(b[0..2]);
    FromLeBound(b[8..16]);
    assert Pow256(2) == 0x1_0000;
    assert Pow256(4) == 0x1_0000 * Pow256(2);
    assert Pow256(6) == 0x1_0000 * Pow256(4);
    assert Pow256(8) == 0x1_0000 * Pow256(6);
  }

  /** The first n items of a packet. */
  function UnpackItems(p: seq<byte>, n: nat): (rs: seq<Record>)
    requires Offset(n) <= |p|
    ensures |rs| == n
  {
    if n == 0 then []
    else
      var at := Offset(n - 1);
      UnpackItems(p, n - 1) + [Unpack(p[at..at + ITEM_SIZE])]
  }

  /** The records of every whole packet of a log; a trailing part of a packet is ignored. */
  function DecodeLog(log: seq<byte>): seq<Record> {
    if |log| < PACKET_SIZE then []
    else UnpackItems(log[..PACKET_SIZE], ITEMS_PER_PACKET) + DecodeLog(log[PACKET_SIZE..])
  }

  function AsRecord(x: Item): Record {
    Record(Signed16(x.reading), x.timestamp)
  }

  function AsRecords(xs: seq<Item>): (rs: seq<Record>)
    ensures |rs| == |xs| && forall i :: 0 <= i < |xs| ==> rs[i] == AsRecord(xs[i])
  {
    seq(|xs|, i requires 0 <= i < |xs| => AsRecord(xs[i]))
  }

  // ---- round trip ----

  lemma {:induction false} UnpackPutItem(b: seq<byte>, at: nat, x: Item)
    requires at + ITEM_SIZE <= |b|
    ensures Unpack(PutItem(b, at, x)[at..at + ITEM_SIZE]) == AsRecord(x)
  {
    var p := PutItem(b, at, x)[at..at + ITEM_SIZE];
    assert p[0..2] == Le(x.reading, 2);
    assert p[8..16] == Le(x.timestamp, 8);
    StoreLoad(x.reading, x.timestamp);
  }

  /** Unpacking the first n items depends only on the bytes they occupy. */
  lemma {:induction false} UnpackFrame(p: seq<byte>, q: seq<byte>, n: nat)
    requires Offset(n) <= |p| && |p| == |q|
    requires p[HEADER_SIZE..Offset(n)] == q[HEADER_SIZE..Offset(n)]
    ensures UnpackItems(p, n) == UnpackItems(q, n)
  {
    if n > 0 {
      var at := Offset(n - 1);
      var m := Offset(n);
      assert p[HEADER_SIZE..at] == p[HEADER_SIZE..m][..at - HEADER_SIZE];
      assert q[HEADER_SIZE..at] == q[HEADER_SIZE..m][..at - HEADER_SIZE];
      assert p[at..m] == p[HEADER_SIZE..m][at - HEADER_SIZE..];
      assert q[at..m] == q[HEADER_SIZE..m][at - HEADER_SIZE..];
      UnpackFrame(p, q, n - 1);
    }
  }

  lemma {:induction false} UnpackPutItems(b: seq<byte>, xs: seq<Item>)
    requires Offset(|xs|) <= |b|
    ensures UnpackItems(PutItems(b, xs), |xs|) == AsRecords(xs)
  {
    if xs != [] {
      var n := |xs| - 1;
      var at := Offset(n);
      var p := PutItems(b, xs[..n]);
      var q := PutItem(p, at, xs[n]);
      UnpackPutItems(b, xs[..n]);
      assert p[HEADER_SIZE..at] == q[HEADER_SIZE..at];
      UnpackFrame(p, q, n);
      UnpackPutItem(p, at, xs[n]);
      assert AsRecords(xs) == AsRecords(xs[..n]) + [AsRecord(xs[n])];
    }
  }

  lemma {:induction false} UnpackBehindHeader(q: seq<byte>, sensor: byte, length: UInt16, n: nat)
    requires Offset(n) <= |q|
    ensures UnpackItems(PutHeader(q, sensor, length), n) == UnpackItems(q, n)
  {
    var p := PutHeader(q, sensor, length);
    assert p[4..] == q[4..];
    assert p[4..Offset(n)] == p[4..][..Offset(n) - 4];
    assert q[4..Offset(n)] == q[4..][..Offset(n) - 4];
    UnpackFrame(p, q, n);
  }

  /** Whatever the buffer held before, a packet unpacks to its items. */
  lemma {:induction false} UnpackPacket(b: seq<byte>, sensor: byte, xs: seq<Item>)
    requires Offset(|xs|) <= |b| && Offset(|xs|) < 0x1_0000
    ensures UnpackItems(Packet(b, sensor, xs), |xs|) == AsRecords(xs)
  {
    UnpackBehindHeader(PutItems(b, xs), sensor, Offset(|xs|), |xs|);
    UnpackPutItems(b, xs);
  }

  lemma {:induction false} DecodeAppend(log: seq<byte>, more: seq<byte>)
    requires |log| % PACKET_SIZE == 0
    ensures DecodeLog(log + more) == DecodeLog(log) + DecodeLog(more)
  {
    if log == [] {
      assert log + more == more;
    } else {
      assert (log + more)[..PACKET_SIZE] == log[..PACKET_SIZE];
      assert (log + more)[PACKET_SIZE..] == log[PACKET_SIZE..] + more;
      DecodeAppend(log[PACKET_SIZE..], more);
    }
  }

  /** Decoding any byte prefix of a log gives a prefix of the records. */
  lemma {:induction false} DecodePrefix(log: seq<byte>, k: nat)
    requires k <= |log|
    ensures DecodeLog(log[..k]) <= DecodeLog(log)
  {
    var m := k - k % PACKET_SIZE;
    SplitAt(log, m);
    SplitAt(log[..k], m);
    assert log[..k][..m] == log[..m];
    assert DecodeLog(log[..k][m..]) == [];
  }

  lemma {:induction false} SplitAt(log: seq<byte>, m: nat)
    requires m <= |log| && m % PACKET_SIZE == 0
    ensures DecodeLog(log) == DecodeLog(log[..m]) + DecodeLog(log[m..])
  {
    assert log == log[..m] + log[m..];
    DecodeAppend(log[..m], log[m..]);
  }

  lemma {:induction false} SameSlice(p: seq<byte>, q: seq<byte>, lo: nat, hi: nat, i: nat, j: nat)
    requires lo <= i <= j <= hi <= |p| && hi <= |q| && p[lo..hi] == q[lo..hi]
    ensures p[i..j] == q[i..j]
  {
    forall k | i <= k < j
      ensures p[k] == q[k]
    {
      assert p[k] == p[lo..hi][k - lo] && q[k] == q[lo..hi][k - lo];
    }
  }

  /** The pads of the items xs and everything behind them are the same in p and b. */
  ghost predicate RestKept(p: seq<byte>, b: seq<byte>, n: nat)
    requires Offset(n) <= |b| == |p|
  {
    && p[Offset(n)..] == b[Offset(n)..]
    && forall k :: 0 <= k < n ==> p[Offset(k) + 2..Offset(k) + 8] == b[Offset(k) + 2..Offset(k) + 8]
  }

  lemma {:induction false} PutItemSlices(b: seq<byte>, at: nat, x: Item)
    requires at + 16 <= |b|
    ensures var r := PutItem(b, at, x);
            r[..at] == b[..at] && r[at + 2..at + 8] == b[at + 2..at + 8] && r[at + 16..] == b[at + 16..]
  {
  }

  lemma {:induction false} RestKeptStep(p: seq<byte>, b: seq<byte>, n: nat, x: Item)
    requires Offset(n + 1) <= |b| == |p| && RestKept(p, b, n)
    ensures RestKept(PutItem(p, Offset(n), x), b, n + 1)
  {
    var q, at := PutItem(p, Offset(n), x), Offset(n);
    PutItemSlices(p, at, x);
    SameSlice(p, b, at, |p|, at + 16, |p|);
    SameSlice(p, b, at, |p|, at + 2, at + 8);
    forall k | 0 <= k < n
      ensures q[Offset(k) + 2..Offset(k) + 8] == b[Offset(k) + 2..Offset(k) + 8]
    {
      SameSlice(q, p, 0, at, Offset(k) + 2, Offset(k) + 8);
    }
  }

  lemma {:induction false} RestKeptByItems(b: seq<byte>, xs: seq<Item>)
    requires Offset(|xs|) <= |b|
    ensures RestKept(PutItems(b, xs), b, |xs|)
  {
    if xs != [] {
      RestKeptByItems(b, xs[..|xs| - 1]);
      RestKeptStep(PutItems(b, xs[..|xs| - 1]), b, |xs| - 1, xs[|xs| - 1]);
    }
  }

  /** The bytes of a packet besides readings and timestamps: the header, and pads and tail, which keep their bytes. */
  lemma {:induction false} PacketLayout(b: seq<byte>, sensor: byte, xs: seq<Item>)
    requires Offset(|xs|) <= |b| && Offset(|xs|) < 0x1_0000
    ensures var p := Packet(b, sensor, xs);
            p[0] == sensor && p[1] == 0 && FromLe(p[2..4]) == Offset(|xs|) && RestKept(p, b, |xs|)
  {
    var p, q := Packet(b, sensor, xs), PutItems(b, xs);
    assert p[2..4] == Le(Offset(|xs|), 2);
    StoreLoad(Offset(|xs|), 0);
    RestKeptByItems(b, xs);
    assert p[4..] == q[4..];
    SameSlice(p, q, 4, |p|, Offset(|xs|), |p|);
    forall k | 0 <= k < |xs|
      ensures p[Offset(k) + 2..Offset(k) + 8] == q[Offset(k) + 2..Offset(k) + 8]
    {
      SameSlice(p, q, 4, |p|, Offset(k) + 2, Offset(k) + 8);
    }
  }

  /** Byte for byte: where and in which order the header, the readings and the timestamps stand in a packet. */
  lemma {:induction false} PacketBytes(b: seq<byte>, sensor: byte, xs: seq<Item>, k: nat)
    requires Offset(|xs|) <= |b| && Offset(|xs|) < 0x1_0000 && k < |xs|
    ensures var p, at := Packet(b, sensor, xs), 4 + 16 * k;
            && p[0] == sensor && p[1] == 0 && Number(p[2], p[3], 0, 0) == 4 + 16 * |xs|
            && Number(p[at], p[at + 1], 0, 0) == xs[k].reading
            && Number(p[at + 8], p[at + 9], p[at + 10], p[at + 11])
               + 0x1_0000_0000 * Number(p[at + 12], p[at + 13], p[at + 14], p[at + 15]) == xs[k].timestamp
  {
    var p, at := Packet(b, sensor, xs), 4 + 16 * k;
    HeaderBytes(b, sensor, xs);
    ItemKept(b, sensor, xs, k);
    StoreLoad(xs[k].reading, xs[k].timestamp);
    FromLeWeights(p[at..at + 2]);
    var t := p[at + 8..at + 16];
    FromLeSplit(t);
    FromLeWeights(t[..4]);
    FromLeWeights(t[4..]);
  }

  lemma {:induction false} HeaderBytes(b: seq<byte>, sensor: byte, xs: seq<Item>)
    requires Offset(|xs|) <= |b| && Offset(|xs|) < 0x1_0000
    ensures var p := Packet(b, sensor, xs);
            p[0] == sensor && p[1] == 0 && Number(p[2], p[3], 0, 0) == 4 + 16 * |xs|
  {
    var p := Packet(b, sensor, xs);
    assert p[2..4] == Le(Offset(|xs|), 2);
    StoreLoad(Offset(|xs|), 0);
    FromLeWeights(p[2..4]);
  }

  /** The bytes of item k in a packet, which later items do not touch. */
  lemma {:induction false} ItemKept(b: seq<byte>, sensor: byte, xs: seq<Item>, k: nat)
    requires Offset(|xs|) <= |b| && Offset(|xs|) < 0x1_0000 && k < |xs|
    ensures var p, at := Packet(b, sensor, xs), 4 + 16 * k;
            p[at..at + 2] == Le(xs[k].reading, 2) && p[at + 8..at + 16] == Le(xs[k].timestamp, 8)
  {
    var p, q, at := Packet(b, sensor, xs), PutItems(b, xs), 4 + 16 * k;
    ItemStored(b, xs, k);
    assert p[4..] == q[4..];
    SameSlice(p, q, 4, |p|, at, at + 2);
    SameSlice(p, q, 4, |p|, at + 8, at + 16);
  }

  lemma {:induction false} ItemStored(b: seq<byte>, xs: seq<Item>, k: nat)
    requires Offset(|xs|) <= |b| && k < |xs|
    ensures var q, at := PutItems(b, xs), 4 + 16 * k;
            q[at..at + 2] == Le(xs[k].reading, 2) && q[at + 8..at + 16] == Le(xs[k].timestamp, 8)
  {
    var n, at := |xs| - 1, 4 + 16 * k;
    var r, q := PutItems(b, xs[..n]), PutItems(b, xs);
    PutItemSlices(r, Offset(n), xs[n]);
    if k < n {
      ItemStored(b, xs[..n], k);
      SameSlice(q, r, 0, Offset(n), at, at + 2);
      SameSlice(q, r, 0, Offset(n), at + 8, at + 16);
    }
  }
}
