/** Reading one sample from an ADC: putting the received bits together. */
module Adc {
  import opened Bytes

  // Bit operations on non-negative integers, one bit at a time.

  function BitAnd(x: nat, y: nat): nat {
    if x == 0 || y == 0 then 0
    else 2 * BitAnd(x / 2, y / 2) + (if x % 2 == 1 && y % 2 == 1 then 1 else 0)
  }

  function BitOr(x: nat, y: nat): nat {
    if x == 0 && y == 0 then 0
    else 2 * BitOr(x / 2, y / 2) + (if x % 2 == 1 || y % 2 == 1 then 1 else 0)
  }

  function Pow2(k: nat): nat {
    if k == 0 then 1 else 2 * Pow2(k - 1)
  }

  function ShiftLeft(x: nat, k: nat): nat {
    if k == 0 then x else 2 * ShiftLeft(x, k - 1)
  }

  function ShiftRight(x: nat, k: nat): nat {
    if k == 0 then x else ShiftRight(x, k - 1) / 2
  }

  /** Masking with 2^k - 1 keeps a number of at most k bits. */
  lemma {:induction false} MaskKeeps(x: nat, k: nat)
    requires x < Pow2(k)
    ensures BitAnd(x, Pow2(k) - 1) == x
  {
    if k > 0 && x > 0 {
      var m := Pow2(k - 1);
      assert (2 * m - 1) / 2 == m - 1 && (2 * m - 1) % 2 == 1;
      MaskKeeps(x / 2, k - 1);
    }
  }

  /** Masking with 3 is the remainder modulo 4. */
  lemma {:induction false} MaskThree(x: nat)
    ensures BitAnd(x, 3) == x % 4
  {
    assert BitAnd(x / 2, 1) == x / 2 % 2 by {
      assert BitAnd(x / 2 / 2, 0) == 0;
    }
    assert x % 4 == 2 * (x / 2 % 2) + x % 2;
  }

  /** Or-ing in bits above position k adds them. */
  lemma {:induction false} OrAboveAdds(x: nat, y: nat, k: nat)
    requires x < Pow2(k)
    ensures BitOr(x, ShiftLeft(y, k)) == x + ShiftLeft(y, k)
  {
    if k == 0 {
      OrZero(y);
    } else {
      assert ShiftLeft(y, k) / 2 == ShiftLeft(y, k - 1) && ShiftLeft(y, k) % 2 == 0;
      OrAboveAdds(x / 2, y, k - 1);
    }
  }

  lemma {:induction false} OrZero(y: nat)
    ensures BitOr(0, y) == y
  {
    if y > 0 {
      OrZero(y / 2);
    }
  }

  /** A 16-bit load from two bytes on a little-endian host. */
  function LittleEndian16(first: byte, second: byte): UInt16 {
    first + 256 * second
  }

  /** Exchanges the two bytes of a 16-bit number. */
  function ByteSwap16(n: UInt16): UInt16 {
    n % 256 * 256 + n / 256
  }

  /** The two received bytes, shifted into place. */
  function LowByte(b1: byte, b2: byte): nat {
    BitAnd(BitOr(ShiftRight(b2, 2), ShiftLeft(BitAnd(b1, 0x03), 6)), 0xFF)
  }

  function HighByte(b1: byte): nat {
    BitAnd(ShiftRight(b1, 2), 0xFF)
  }

  lemma {:induction false} ShiftedBytes(b1: byte, b2: byte)
    ensures HighByte(b1) == b1 / 4 && LowByte(b1, b2) == b2 / 4 + 64 * (b1 % 4)
  {
    Shifts(b1);
    Shifts(b2);
    Shifts(b1 % 4);
    MaskThree(b1);
    OrAboveAdds(b2 / 4, b1 % 4, 6);
    MaskKeeps(b1 / 4, 8);
    MaskKeeps(b2 / 4 + 64 * (b1 % 4), 8);
  }

  lemma {:induction false} Shifts(x: nat)
    ensures Pow2(6) == 64 && Pow2(8) == 256
    ensures ShiftRight(x, 2) == x / 4 && ShiftLeft(x, 6) == 64 * x
  {
    assert Pow2(4) == 16 && Pow2(6) == 64;
    assert ShiftRight(x, 1) == x / 2;
    assert ShiftLeft(x, 1) == 2 * x;
    assert ShiftLeft(x, 2) == 2 * ShiftLeft(x, 1);
    assert ShiftLeft(x, 3) == 2 * ShiftLeft(x, 2);
    assert ShiftLeft(x, 4) == 2 * ShiftLeft(x, 3);
    assert ShiftLeft(x, 5) == 2 * ShiftLeft(x, 4);
  }

  /** The value the three received bytes stand for: the middle and last byte without their two low bits. */
  function AdcValue(b1: byte, b2: byte): (v: UInt16)
    ensures v < 0x4000
    ensures b1 < 0x40 ==> v < 0x1000
  {
    (256 * b1 + b2) / 4
  }

  lemma {:induction false} SwapPair(high: byte, low: byte)
    ensures ByteSwap16(LittleEndian16(high, low)) == 256 * high + low
  {
    var n := high + 256 * low;
    assert n % 256 == high && n / 256 == low;
  }

  /** Shifts, masks and byte swap give the ADC's number, and the decoder's signed 16-bit load returns it. */
  lemma {:induction false} ReadingSurvives(b1: byte, b2: byte)
    ensures LowByte(b1, b2) < 256 && HighByte(b1) < 256
    ensures ByteSwap16(LittleEndian16(HighByte(b1), LowByte(b1, b2))) == AdcValue(b1, b2)
    ensures Signed16(AdcValue(b1, b2)) == AdcValue(b1, b2)
  {
    ShiftedBytes(b1, b2);
    SwapPair(b1 / 4, b2 / 4 + 64 * (b1 % 4));
    assert b1 == 4 * (b1 / 4) + b1 % 4;
  }

  /** Rewrites the received bytes in place and loads them as a byte-swapped 16-bit number. */
  method Reassemble(readBuf: array<byte>) returns (reading: UInt16)
    requires readBuf.Length == 3
    modifies readBuf
    ensures reading == AdcValue(old(readBuf[1]), old(readBuf[2]))
  {
    ReadingSurvives(readBuf[1], readBuf[2]);
    readBuf[2] := LowByte(readBuf[1], readBuf[2]);
    readBuf[1] := HighByte(readBuf[1]);
    reading := ByteSwap16(LittleEndian16(readBuf[1], readBuf[2]));
  }

  // ---- the reader ----

  const NUM_SENSORS: nat := 13

  datatype AdcInfo = AdcInfo(csPin: nat, channel: byte)

  /** The bus the readers share: its mutex and the chip selects that are LOW. */
  class SpiBus {
    var locked: bool
    var low: set<nat>

    constructor ()
      ensures !locked && low == {}
    {
      locked, low := false, {};
    }
  }

  /** The first byte sent: start bit, single-ended mode, channel. */
  function CommandByte(channel: byte): nat {
    BitOr(BitOr(ShiftLeft(1, 4), ShiftLeft(1, 3)), channel)
  }

  lemma {:induction false} OrCommutes(x: nat, y: nat)
    ensures BitOr(x, y) == BitOr(y, x)
  {
    if x > 0 || y > 0 {
      OrCommutes(x / 2, y / 2);
    }
  }

  /** For the channels of the ADC the three fields of the command byte do not overlap. */
  lemma {:induction false} CommandFields(channel: byte)
    requires channel < 8
    ensures CommandByte(channel) == 24 + channel
  {
    assert ShiftLeft(1, 1) == 2 && ShiftLeft(1, 2) == 4 && ShiftLeft(1, 3) == 8 && ShiftLeft(1, 4) == 16;
    assert ShiftLeft(3, 1) == 6 && ShiftLeft(3, 2) == 12 && ShiftLeft(3, 3) == 24;
    assert Pow2(3) == 8 && Pow2(1) == 2 && Pow2(4) == 16;
    OrAboveAdds(8, 1, 4);
    OrCommutes(16, 8);
    OrCommutes(24, channel);
    OrAboveAdds(channel, 3, 3);
  }

  class AdcReader {
    var adcInfos: map<nat, AdcInfo>

    constructor ()
      ensures adcInfos == map[]
    {
      adcInfos := map[];
    }

    method AddAdcInfo(sensorIndex: byte, csPin: nat, channel: byte)
      modifies this
      ensures adcInfos ==
              if sensorIndex > 13 then old(adcInfos)
              else old(adcInfos)[sensorIndex as nat := AdcInfo(csPin, channel)]
    {
      if sensorIndex > NUM_SENSORS {
        return;
      }
      adcInfos := adcInfos[sensorIndex as nat := AdcInfo(csPin, channel)];
    }

    /**
     One reading, with the three bytes the ADC answers. lowDuring is the set of chip selects LOW during the transfer.
     A rejected index returns with the bus still locked.
     */
    method ReadItem(bus: SpiBus, sensorIndex: byte, received: seq<byte>)
      returns (reading: UInt16, sent: nat, lowDuring: set<nat>)
      requires !bus.locked && |received| == 3
      requires sensorIndex <= 13 ==> sensorIndex as nat in adcInfos
      modifies bus
      ensures sensorIndex > 13 ==> reading == 0xFFFF && bus.locked && bus.low == old(bus.low)
      ensures sensorIndex <= 13 ==>
                var info := adcInfos[sensorIndex as nat];
                && reading == (256 * received[1] as int + received[2] as int) / 4 && !bus.locked
                && lowDuring == old(bus.low) + {info.csPin} && bus.low == old(bus.low) - {info.csPin}
                && (info.channel < 8 ==> sent == 24 + info.channel)
    {
      sent, lowDuring := 0, {};
      bus.locked := true;
      if sensorIndex > NUM_SENSORS {
        return 0xFFFF, sent, lowDuring;
      }
      var info := adcInfos[sensorIndex as nat];
      sent := CommandByte(info.channel);
      if info.channel < 8 {
        CommandFields(info.channel);
      }
      bus.low := bus.low + {info.csPin};
      lowDuring := bus.low;
      var readBuf := new byte[3];
      forall i | 0 <= i < 3 {
        readBuf[i] := received[i];
      }
      bus.low := bus.low - {info.csPin};
      reading := Reassemble(readBuf);
      bus.locked := false;
    }
  }
}
