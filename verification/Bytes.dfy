/** Bytes and little-endian unsigned integers, as the controller and the decoding script share them. */
module Bytes {
  type byte = b: int | 0 <= b < 256
  type UInt16 = n: int | 0 <= n < 0x1_0000
  type UInt64 = n: int | 0 <= n < 0x1_0000_0000_0000_0000

  /** The k low bytes of n, least significant first. */
  function Le(n: nat, k: nat): (s: seq<byte>)
    ensures |s| == k
  {
    if k == 0 then [] else [n % 256] + Le(n / 256, k - 1)
  }

  function FromLe(s: seq<byte>): nat {
    if s == [] then 0 else s[0] + 256 * FromLe(s[1..])
  }

  function Pow256(k: nat): nat {
    if k == 0 then 1 else 256 * Pow256(k - 1)
  }

  lemma {:induction false} LeRoundTrip(n: nat, k: nat)
    requires n < Pow256(k)
    ensures FromLe(Le(n, k)) == n
  {
    if k > 0 {
      LeRoundTrip(n / 256, k - 1);
      assert Le(n, k)[1..] == Le(n / 256, k - 1);
    }
  }

  /** The number with four given bytes, the least significant one first. */
  function Number(a: int, b: int, c: int, d: int): int {
    a + 0x100 * b + 0x1_0000 * c + 0x100_0000 * d
  }

  /** The order is little-endian: byte j has weight 256^j. */
  lemma {:induction false} FromLeWeights(s: seq<byte>)
    ensures |s| == 2 ==> FromLe(s) == Number(s[0], s[1], 0, 0)
    ensures |s| == 4 ==> FromLe(s) == Number(s[0], s[1], s[2], s[3])
  {
    if |s| == 2 {
      assert FromLe(s[1..]) == s[1] + 256 * FromLe(s[1..][1..]);
    }
    if |s| == 4 {
      FromLeWeights(s[1..][1..]);
      assert FromLe(s[1..]) == s[1] + 256 * FromLe(s[1..][1..]);
    }
  }

  lemma {:induction false} FromLeSplit(s: seq<byte>)
    requires |s| == 8
    ensures FromLe(s) == FromLe(s[..4]) + 0x1_0000_0000 * FromLe(s[4..])
  {
    FromLeSplitTwo(s);
    FromLeSplitTwo(s[2..]);
    FromLeSplitTwo(s[..4]);
    assert s[2..][2..] == s[4..] && s[2..][..2] == s[2..4] == s[..4][2..] && s[..4][..2] == s[..2];
    assert FromLe(s[..4][2..]) == FromLe(s[2..4]);
  }

  lemma {:induction false} FromLeSplitTwo(s: seq<byte>)
    requires |s| >= 2
    ensures FromLe(s) == FromLe(s[..2]) + 0x1_0000 * FromLe(s[2..])
  {
    FromLeWeights(s[..2]);
    assert FromLe(s[1..]) == s[1] + 256 * FromLe(s[1..][1..]) && s[1..][1..] == s[2..];
  }

  /** Two- and eight-byte integers survive being stored and loaded. */
  lemma {:induction false} StoreLoad(r: UInt16, t: UInt64)
    ensures FromLe(Le(r, 2)) == r && FromLe(Le(t, 8)) == t
  {
    assert Pow256(2) == 0x1_0000;
    assert Pow256(4) == 0x1_0000 * Pow256(2);
    assert Pow256(6) == 0x1_0000 * Pow256(4);
    assert Pow256(8) == 0x1_0000 * Pow256(6);
    LeRoundTrip(r, 2);
    LeRoundTrip(t, 8);
  }

  /** A two-byte load as a signed integer. */
  function Signed16(n: UInt16): (r: int)
    ensures -32768 <= r < 32768 && (r == n || r == n - 65536)
  {
    if n < 0x8000 then n else n - 0x1_0000
  }
}
