/** The Internet checksum (sections 1 and 2 of RFC 1071) as dummy_ping.c gets it from the kernel:
    a 32-bit sum with end-around carry, folded to 16 bits and complemented. The reference is the
    plain sum of the 16-bit words, reduced once at the end. */
module OnesComplement {
  import Counters

  type Byte = b: int | 0 <= b < 256
  type Word16 = x: int | 0 <= x < 0x1_0000
  type Word32 = x: int | 0 <= x < 0x1_0000_0000

  // ---- reference ----

  /** Sum of the 16-bit words of s; an odd last byte is padded with zero on the right. */
  function Total(s: seq<Byte>): (r: nat) {
    if |s| == 0 then 0
    else if |s| == 1 then s[0] * 256
    else s[0] * 256 + s[1] + Total(s[2..])
  }

  /** x reduced with end-around carry to a word whose largest value is m: zero only for zero. */
  function Ones(x: nat, m: nat): (r: nat)
    requires m > 0
    ensures r <= m && (r == 0 <==> x == 0)
  {
    if x == 0 then 0 else 1 + (x - 1) % m
  }

  /** A message that includes its checksum is accepted when its sum is all ones. */
  predicate Verifies(s: seq<Byte>) {
    Ones(Total(s), 0xFFFF) == 0xFFFF
  }

  lemma {:induction false} TotalConcat(a: seq<Byte>, b: seq<Byte>)
    requires |a| % 2 == 0
    ensures Total(a + b) == Total(a) + Total(b)
  {
    if a == [] {
      assert a + b == b;
    } else {
      assert (a + b)[2..] == a[2..] + b;
      TotalConcat(a[2..], b);
    }
  }

  lemma OnesIsFull(x: nat)
    ensures Ones(x, 0xFFFF) == 0xFFFF <==> x > 0 && x % 0xFFFF == 0
  {
    if x > 0 {
      var q, r := (x - 1) / 0xFFFF, (x - 1) % 0xFFFF;
      if r == 0xFFFE {
        assert x == 0xFFFF * (q + 1);
      } else {
        assert x == 0xFFFF * q + (r + 1);
      }
    }
  }

  /** A message is accepted exactly when its sum is a positive multiple of 2^16 - 1. */
  lemma VerifiesMeans(s: seq<Byte>)
    ensures Verifies(s) <==> Total(s) > 0 && Total(s) % 0xFFFF == 0
  {
    OnesIsFull(Total(s));
  }

  // ---- the kernel's arithmetic ----

  /** 32-bit addition with end-around carry. */
  function AddCarry(a: Word32, b: Word32): (r: Word32) {
    var t := a + b;
    if t < 0x1_0000_0000 then t else t - 0x1_0000_0000 + 1
  }

  lemma AddCarryIsOnes(x: nat, b: Word16)
    ensures AddCarry(Ones(x, 0xFFFF_FFFF), b) == Ones(x + b, 0xFFFF_FFFF)
  {
  }

  /** csum_partial: any length, also odd, also none. */
  method CsumPartial(a: array<Byte>, start: nat, len: int, csum: Word32) returns (sum: Word32)
    requires len > 0 ==> start + len <= a.Length
    ensures len <= 0 ==> sum == csum
    ensures len > 0 ==> sum == Ones(csum + Total(a[start..start + len]), 0xFFFF_FFFF)
  {
    sum := csum;
    var i := 0;
    ghost var done: nat := csum;
    while i + 1 < len
      invariant 0 <= i && (i <= len || i == 0)
      invariant sum == Ones(done, 0xFFFF_FFFF)
      invariant len > 0 ==> done + Total(a[start + i..start + len]) == csum + Total(a[start..start + len])
      invariant i == 0 ==> sum == csum
    {
      var hi: int, lo: int := a[start + i], a[start + i + 1];
      var w := hi * 256 + lo;
      assert a[start + i..start + len][2..] == a[start + i + 2..start + len];
      AddCarryIsOnes(done, w);
      sum := AddCarry(sum, w);
      done := done + w;
      i := i + 2;
    }
    if i < len {
      var last: int := a[start + i];
      AddCarryIsOnes(done, last * 256);
      sum := AddCarry(sum, last * 256);
    }
  }

  /** csum_fold: add the halves twice, then complement. */
  function CsumFold(sum: Word32): (r: Word16) {
    var once := sum % 0x1_0000 + sum / 0x1_0000;
    var twice := once % 0x1_0000 + once / 0x1_0000;
    0xFFFF - twice
  }

  lemma OnesShift(x: nat, k: nat)
    requires x > 0
    ensures Ones(x + 0xFFFF * k, 0xFFFF) == Ones(x, 0xFFFF)
  {
    Counters.ModOfMultiple(x - 1, k, 0xFFFF);
  }

  /** Two half-word additions are always enough. */
  lemma FoldIsOnes(sum: Word32)
    ensures CsumFold(sum) == 0xFFFF - Ones(sum, 0xFFFF)
  {
    var once := sum % 0x1_0000 + sum / 0x1_0000;
    var twice := once % 0x1_0000 + once / 0x1_0000;
    if sum > 0 {
      assert once == twice + 0xFFFF * (once / 0x1_0000) && 0 < twice <= 0xFFFF;
      assert sum == once + 0xFFFF * (sum / 0x1_0000);
      OnesShift(twice, once / 0x1_0000);
      OnesShift(once, sum / 0x1_0000);
    }
  }

  /** Reducing to 32 bits on the way does not change the 16-bit result. */
  lemma OnesOfOnes(x: nat)
    ensures Ones(Ones(x, 0xFFFF_FFFF), 0xFFFF) == Ones(x, 0xFFFF)
  {
    if x > 0 {
      var k := (x - 1) / 0xFFFF_FFFF;
      assert x == Ones(x, 0xFFFF_FFFF) + 0xFFFF * (0x1_0001 * k);
      OnesShift(Ones(x, 0xFFFF_FFFF), 0x1_0001 * k);
    }
  }

  /** The kernel's computation agrees with the reference. */
  lemma ChecksumIsComplement(x: nat)
    ensures CsumFold(Ones(x, 0xFFFF_FFFF)) == 0xFFFF - Ones(x, 0xFFFF)
  {
    FoldIsOnes(Ones(x, 0xFFFF_FFFF));
    OnesOfOnes(x);
  }

  /** Adding the complement of a sum to the sum gives all ones. */
  lemma ComplementCompletes(x: nat)
    ensures Ones(x + (0xFFFF - Ones(x, 0xFFFF)), 0xFFFF) == 0xFFFF
  {
    var k := if x == 0 then 0 else (x - 1) / 0xFFFF;
    assert x + (0xFFFF - Ones(x, 0xFFFF)) == 0xFFFF + 0xFFFF * k;
    OnesShift(0xFFFF, k);
  }
}
