/**
 * Little-endian encoding of 64-bit values (cpu_to_le64 / le64_to_cpu).
 * A Le64 is the eight bytes a PRP entry occupies in memory, least significant byte first,
 * which is how an NVM Express controller reads every 64-bit field.
 */
module Endian {
  import opened Base

  type Le64 = s: seq<u8> | |s| == 8 witness [0, 0, 0, 0, 0, 0, 0, 0]

  const LeZero: Le64 := [0, 0, 0, 0, 0, 0, 0, 0]

  function Pow256(n: nat): (r: nat)
    ensures r >= 1
  {
    if n == 0 then 1 else 256 * Pow256(n - 1)
  }

  lemma Pow256Eight()
    ensures Pow256(8) == U64_LIMIT
  {
    assert Pow256(1) == 256;
    assert Pow256(2) == 256 * 256;
    assert Pow256(3) == 256 * 256 * 256;
    assert Pow256(4) == 256 * 256 * 256 * 256;
    assert Pow256(5) == 256 * Pow256(4);
    assert Pow256(6) == 256 * Pow256(5);
    assert Pow256(7) == 256 * Pow256(6);
  }

  /** The n least significant bytes of x, least significant first. */
  function LeBytes(x: nat, n: nat): (s: seq<u8>)
    ensures |s| == n
  {
    if n == 0 then [] else [x % 256] + LeBytes(x / 256, n - 1)
  }

  /** The value of a little-endian byte string. */
  function LeValue(s: seq<u8>): (x: nat)
    ensures x < Pow256(|s|)
  {
    if s == [] then 0 else s[0] + 256 * LeValue(s[1..])
  }

  lemma {:induction false} ValueOfBytes(x: nat, n: nat)
    requires x < Pow256(n)
    ensures LeValue(LeBytes(x, n)) == x
    decreases n
  {
    if n > 0 {
      ValueOfBytes(x / 256, n - 1);
      assert LeBytes(x, n)[1..] == LeBytes(x / 256, n - 1);
    }
  }

  lemma {:induction false} BytesOfValue(s: seq<u8>)
    ensures LeBytes(LeValue(s), |s|) == s
    decreases |s|
  {
    if s != [] {
      var v := LeValue(s[1..]);
      assert (s[0] + 256 * v) % 256 == s[0];
      assert (s[0] + 256 * v) / 256 == v;
      BytesOfValue(s[1..]);
    }
  }

  /** Byte i of the value x: bits 8i..8i+7. */
  function ByteOf(x: nat, i: nat): (b: u8)
  {
    if i == 0 then x % 256 else ByteOf(x / 256, i - 1)
  }

  /** Byte i of LeBytes(x, n) is byte i of x. */
  lemma {:induction false} LeBytesDigit(x: nat, n: nat, i: nat)
    requires i < n
    ensures LeBytes(x, n)[i] == ByteOf(x, i)
    decreases i
  {
    if i > 0 {
      LeBytesDigit(x / 256, n - 1, i - 1);
    }
  }

  /** cpu_to_le64: the in-memory image of a 64-bit value. */
  function CpuToLe64(x: u64): (r: Le64)
    ensures forall i :: 0 <= i < 8 ==> r[i] == ByteOf(x, i)
  {
    var r := LeBytes(x, 8);
    forall i | 0 <= i < 8
      ensures r[i] == ByteOf(x, i)
    {
      LeBytesDigit(x, 8, i);
    }
    r
  }

  /** le64_to_cpu: the value an in-memory little-endian word holds. */
  function Le64ToCpu(b: Le64): (x: u64)
  {
    Pow256Eight();
    LeValue(b)
  }

  lemma Le64RoundTrip(x: u64)
    ensures Le64ToCpu(CpuToLe64(x)) == x
  {
    Pow256Eight();
    ValueOfBytes(x, 8);
  }

  lemma Le64RoundTripBytes(b: Le64)
    ensures CpuToLe64(Le64ToCpu(b)) == b
  {
    Pow256Eight();
    BytesOfValue(b);
  }

  /** Distinct values have distinct images. */
  lemma CpuToLe64Injective(x: u64, y: u64)
    requires CpuToLe64(x) == CpuToLe64(y)
    ensures x == y
  {
    Le64RoundTrip(x);
    Le64RoundTrip(y);
  }
}
