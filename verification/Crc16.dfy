/**
 The checksum of a frame: CRC-16 with the polynomial 0x1021 of ITU-T V.41, initial value
 0xFFFF, no reflection. The register is clocked one message bit at a time, most significant
 bit first.
 */
module Crc16 {
  import opened Bytes

  /** The shift register, least significant bit first. */
  type Register = r: seq<bool> | |r| == 16 witness ONES

  const ONES := [true, true, true, true, true, true, true, true, true, true, true, true, true, true, true, true]

  const INIT: Register := ONES

  /** One clock: shift left by one and, if the bit leaving the register differs from the
      message bit, add the polynomial, whose taps are bits 0, 5 and 12. */
  function Clock(r: Register, bit: bool): Register {
    var f := r[15] != bit;
    var shifted := [f] + r[..15];
    shifted[5 := r[4] != f][12 := r[11] != f]
  }

  function ClockAll(r: Register, bits: seq<bool>): Register
    decreases |bits|
  {
    if bits == [] then r else ClockAll(Clock(r, bits[0]), bits[1..])
  }

  /** The `k` low bits of `n`, most significant first. */
  function BitsFrom(n: nat, k: nat): (r: seq<bool>)
    ensures |r| == k
  {
    if k == 0 then [] else BitsFrom(n / 2, k - 1) + [n % 2 == 1]
  }

  /** The bits of a byte in transmission order. */
  function BitsOf(b: Byte): (r: seq<bool>)
    ensures |r| == 8
  {
    BitsFrom(b, 8)
  }

  function Bits(s: Bytes): (r: seq<bool>)
    ensures |r| == 8 * |s|
  {
    if s == [] then [] else BitsOf(s[0]) + Bits(s[1..])
  }

  /** The integer held in a register, least significant bit first. */
  function Value(r: seq<bool>): nat {
    if r == [] then 0 else (if r[0] then 1 else 0) + 2 * Value(r[1..])
  }

  function Crc(s: Bytes): nat {
    Value(ClockAll(INIT, Bits(s)))
  }

  lemma {:induction false} ClockAllAppend(r: Register, a: seq<bool>, b: seq<bool>)
    ensures ClockAll(r, a + b) == ClockAll(ClockAll(r, a), b)
    decreases |a|
  {
    if a == [] {
      assert a + b == b;
    } else {
      assert (a + b)[0] == a[0] && (a + b)[1..] == a[1..] + b;
      ClockAllAppend(Clock(r, a[0]), a[1..], b);
    }
  }

  /** Two registers agree on their `k` low bits. */
  predicate AgreeLow(r: Register, s: Register, k: nat)
    requires k <= 16
  {
    forall i :: 0 <= i < k ==> r[i] == s[i]
  }

  /** Agreement runs backwards through a clock, losing one bit. The message bits need not agree. */
  lemma ClockBack(r: Register, s: Register, a: bool, b: bool, k: nat)
    requires 0 < k <= 16
    requires AgreeLow(Clock(r, a), Clock(s, b), k)
    ensures AgreeLow(r, s, k - 1)
    ensures (r[15] != a) == (s[15] != b)
  {
    assert Clock(r, a)[0] == Clock(s, b)[0];
    forall i | 0 <= i < k - 1
      ensures r[i] == s[i]
    {
      assert Clock(r, a)[i + 1] == Clock(s, b)[i + 1];
    }
  }

  lemma {:induction false} ClockAllBack(r: Register, s: Register, a: seq<bool>, b: seq<bool>)
    requires |a| == |b| <= 16
    requires ClockAll(r, a) == ClockAll(s, b)
    ensures AgreeLow(r, s, 16 - |a|)
    decreases |a|
  {
    if a != [] {
      ClockAllBack(Clock(r, a[0]), Clock(s, b[0]), a[1..], b[1..]);
      ClockBack(r, s, a[0], b[0], 17 - |a|);
    }
  }

  /** From one register, at most 16 message bits can be read back from where they lead. */
  lemma {:induction false} BurstDecided(r: Register, a: seq<bool>, b: seq<bool>)
    requires |a| == |b| <= 16
    requires ClockAll(r, a) == ClockAll(r, b)
    ensures a == b
    decreases |a|
  {
    if a != [] {
      ClockAllBack(Clock(r, a[0]), Clock(r, b[0]), a[1..], b[1..]);
      ClockBack(r, r, a[0], b[0], 17 - |a|);
      BurstDecided(Clock(r, a[0]), a[1..], b[1..]);
    }
  }

  /** A common tail of message bits never merges two registers. */
  lemma {:induction false} ClockAllInjective(r: Register, s: Register, bits: seq<bool>)
    requires ClockAll(r, bits) == ClockAll(s, bits)
    ensures r == s
    decreases |bits|
  {
    if bits != [] {
      ClockAllInjective(Clock(r, bits[0]), Clock(s, bits[0]), bits[1..]);
      ClockBack(r, s, bits[0], bits[0], 16);
      assert r[15] == s[15];
    }
  }

  /** Every burst of at most 16 consecutive bits, at any alignment, changes the register. */
  lemma BurstDetected(r: Register, pre: seq<bool>, a: seq<bool>, b: seq<bool>, post: seq<bool>)
    requires |a| == |b| <= 16
    requires a != b
    ensures ClockAll(r, pre + a + post) != ClockAll(r, pre + b + post)
  {
    var m := ClockAll(r, pre);
    forall x: seq<bool>
      ensures ClockAll(r, pre + x + post) == ClockAll(ClockAll(m, x), post)
    {
      ClockAllAppend(r, pre + x, post);
      ClockAllAppend(r, pre, x);
    }
    if ClockAll(r, pre + a + post) == ClockAll(r, pre + b + post) {
      ClockAllInjective(ClockAll(m, a), ClockAll(m, b), post);
      BurstDecided(m, a, b);
    }
  }

  lemma {:induction false} ValueInjective(r: seq<bool>, s: seq<bool>)
    requires |r| == |s| && Value(r) == Value(s)
    ensures r == s
    decreases |r|
  {
    if r != [] {
      assert r[0] == s[0];
      ValueInjective(r[1..], s[1..]);
      assert r == [r[0]] + r[1..] && s == [s[0]] + s[1..];
    }
  }

  function Pow2(n: nat): nat {
    if n == 0 then 1 else 2 * Pow2(n - 1)
  }

  lemma Pow2Values()
    ensures Pow2(8) == 256 && Pow2(16) == 0x1_0000
  {
    assert Pow2(4) == 16 && Pow2(8) == 16 * Pow2(4);
    assert Pow2(12) == 16 * Pow2(8) && Pow2(16) == 16 * Pow2(12);
  }

  lemma {:induction false} ValueBound(r: seq<bool>)
    ensures Value(r) < Pow2(|r|)
    decreases |r|
  {
    if r != [] {
      ValueBound(r[1..]);
    }
  }

  /** The checksum fits its two bytes. */
  lemma CrcFits(s: Bytes)
    ensures Crc(s) < 0x1_0000
  {
    ValueBound(ClockAll(INIT, Bits(s)));
    Pow2Values();
  }

  lemma {:induction false} BitsAppend(a: Bytes, b: Bytes)
    ensures Bits(a + b) == Bits(a) + Bits(b)
    decreases |a|
  {
    if a == [] {
      assert a + b == b;
    } else {
      assert (a + b)[0] == a[0] && (a + b)[1..] == a[1..] + b;
      BitsAppend(a[1..], b);
    }
  }

  lemma {:induction false} BitsFromInjective(m: nat, n: nat, k: nat)
    requires m < Pow2(k) && n < Pow2(k)
    requires BitsFrom(m, k) == BitsFrom(n, k)
    ensures m == n
  {
    if k > 0 {
      var p, q := BitsFrom(m / 2, k - 1), BitsFrom(n / 2, k - 1);
      assert p == (p + [m % 2 == 1])[..k - 1] && q == (q + [n % 2 == 1])[..k - 1];
      assert (p + [m % 2 == 1])[k - 1] == (q + [n % 2 == 1])[k - 1];
      BitsFromInjective(m / 2, n / 2, k - 1);
    }
  }

  lemma BitsOfInjective(a: Byte, b: Byte)
    requires BitsOf(a) == BitsOf(b)
    ensures a == b
  {
    Pow2Values();
    BitsFromInjective(a, b, 8);
  }

  lemma {:induction false} BitsInjective(a: Bytes, b: Bytes)
    requires |a| == |b| && Bits(a) == Bits(b)
    ensures a == b
    decreases |a|
  {
    if a != [] {
      assert Bits(a)[..8] == BitsOf(a[0]) && Bits(b)[..8] == BitsOf(b[0]);
      assert Bits(a)[8..] == Bits(a[1..]) && Bits(b)[8..] == Bits(b[1..]);
      BitsOfInjective(a[0], b[0]);
      BitsInjective(a[1..], b[1..]);
      assert a == [a[0]] + a[1..] && b == [b[0]] + b[1..];
    }
  }

  /** Changing one or two adjacent bytes always changes the checksum. */
  lemma AdjacentBytesDetected(pre: Bytes, a: Bytes, b: Bytes, post: Bytes)
    requires |a| == |b| <= 2
    requires a != b
    ensures Crc(pre + a + post) != Crc(pre + b + post)
  {
    forall x: Bytes
      ensures Bits(pre + x + post) == Bits(pre) + Bits(x) + Bits(post)
    {
      BitsAppend(pre + x, post);
      BitsAppend(pre, x);
    }
    if Bits(a) == Bits(b) {
      BitsInjective(a, b);
    }
    BurstDetected(INIT, Bits(pre), Bits(a), Bits(b), Bits(post));
    if Crc(pre + a + post) == Crc(pre + b + post) {
      ValueInjective(ClockAll(INIT, Bits(pre + a + post)), ClockAll(INIT, Bits(pre + b + post)));
    }
  }
}
