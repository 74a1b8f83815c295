/** Bytes and the little-endian integers of the wire format. */
module Bytes {

  type Byte = b: int | 0 <= b < 256

  type Bytes = seq<Byte>

  type Word = n: int | 0 <= n < 0x1_0000

  /** The two little-endian bytes of `n` cast to 16 bits. */
  function LE16(n: nat): (r: Bytes)
    ensures |r| == 2
  {
    [n % 256, n / 256 % 256]
  }

  /** The 16-bit integer stored at `at`. */
  function At16(s: Bytes, at: nat): Word
    requires at + 2 <= |s|
  {
    (s[at] as int) + 256 * (s[at + 1] as int)
  }

  /** The four little-endian bytes of `n` cast to 32 bits. */
  function LE32(n: nat): (r: Bytes)
    ensures |r| == 4
  {
    LE16(n) + LE16(n / 0x1_0000)
  }

  function At32(s: Bytes, at: nat): (n: nat)
    requires at + 4 <= |s|
    ensures n < 0x1_0000_0000
  {
    At16(s, at) + 0x1_0000 * At16(s, at + 2)
  }

  /** The eight little-endian bytes of `n` cast to 64 bits. */
  function LE64(n: nat): (r: Bytes)
    ensures |r| == 8
  {
    LE32(n) + LE32(n / 0x1_0000_0000)
  }

  /** The 64-bit integer stored at `at`. */
  function At64(s: Bytes, at: nat): nat
    requires at + 8 <= |s|
  {
    At32(s, at) + 0x1_0000_0000 * At32(s, at + 4)
  }

  /** The `k` little-endian bytes of a number: the least significant first. */
  function Little(n: nat, k: nat): (r: Bytes)
    ensures |r| == k
  {
    if k == 0 then [] else [n % 256] + Little(n / 256, k - 1)
  }

  /** What is left of a number without its `j` least significant bytes. */
  function High(n: nat, j: nat): nat {
    if j == 0 then n else High(n / 256, j - 1)
  }

  lemma HighWords(n: nat)
    ensures High(n, 2) == n / 0x1_0000 && High(n, 4) == n / 0x1_0000_0000
  {
    assert High(n, 2) == High(n / 256, 1) == High(n / 256 / 256, 0);
    assert High(n, 4) == High(n / 256, 3) == High(n / 256 / 256, 2);
    assert High(n / 0x1_0000, 2) == High(n / 0x1_0000 / 256, 1) == High(n / 0x1_0000 / 256 / 256, 0);
  }

  lemma {:induction false} LittleSplit(n: nat, j: nat, k: nat)
    ensures Little(n, j + k) == Little(n, j) + Little(High(n, j), k)
    decreases j
  {
    if j > 0 {
      LittleSplit(n / 256, j - 1, k);
    } else {
      assert Little(n, 0) + Little(n, k) == Little(n, k);
    }
  }

  lemma LittleTwo(n: nat)
    ensures Little(n, 2) == LE16(n)
  {
    assert Little(n / 256, 1) == [n / 256 % 256] + Little(n / 256 / 256, 0);
  }

  lemma LittleFour(n: nat)
    ensures Little(n, 4) == LE32(n)
  {
    LittleSplit(n, 2, 2);
    HighWords(n);
    LittleTwo(n);
    LittleTwo(n / 0x1_0000);
  }

  /** Every integer on the wire is little-endian. */
  lemma WireIsLittle(n: nat)
    ensures LE16(n) == Little(n, 2) && LE32(n) == Little(n, 4) && LE64(n) == Little(n, 8)
  {
    LittleTwo(n);
    LittleFour(n);
    LittleFour(n / 0x1_0000_0000);
    LittleSplit(n, 4, 4);
    HighWords(n);
  }

  /** Writing a 16-bit integer anywhere and reading it back gives the cast value. */
  lemma ReadBack16(pre: Bytes, n: nat, post: Bytes)
    ensures At16(pre + LE16(n) + post, |pre|) == n % 0x1_0000
    ensures n < 0x1_0000 ==> At16(pre + LE16(n) + post, |pre|) == n
  {
    var s := pre + LE16(n) + post;
    assert s[|pre|] == n % 256 && s[|pre| + 1] == n / 256 % 256;
  }

  /** The same, for an integer found as a slice. */
  lemma ReadSlice16(s: Bytes, at: nat, n: nat)
    requires at + 2 <= |s| && n < 0x1_0000 && s[at..at + 2] == LE16(n)
    ensures At16(s, at) == n
  {
    assert s[at] == s[at..at + 2][0] && s[at + 1] == s[at..at + 2][1];
  }

  lemma ReadBack32(pre: Bytes, n: nat, post: Bytes)
    ensures At32(pre + LE32(n) + post, |pre|) == n % 0x1_0000_0000
    ensures n < 0x1_0000_0000 ==> At32(pre + LE32(n) + post, |pre|) == n
  {
    var s := pre + LE32(n) + post;
    var lo, hi := LE16(n), LE16(n / 0x1_0000);
    assert s == pre + lo + (hi + post);
    ReadBack16(pre, n, hi + post);
    assert s == (pre + lo) + hi + post;
    ReadBack16(pre + lo, n / 0x1_0000, post);
    Halves(n);
  }

  lemma ReadBack64(pre: Bytes, n: nat, post: Bytes)
    ensures At64(pre + LE64(n) + post, |pre|) == n % 0x1_0000_0000_0000_0000
    ensures n < 0x1_0000_0000_0000_0000 ==> At64(pre + LE64(n) + post, |pre|) == n
  {
    var s := pre + LE64(n) + post;
    var lo, hi := LE32(n), LE32(n / 0x1_0000_0000);
    assert s == pre + lo + (hi + post);
    ReadBack32(pre, n, hi + post);
    assert s == (pre + lo) + hi + post;
    ReadBack32(pre + lo, n / 0x1_0000_0000, post);
    LongHalves(n);
  }

  lemma LongHalves(n: nat)
    ensures n % 0x1_0000_0000_0000_0000 == n % 0x1_0000_0000 + 0x1_0000_0000 * (n / 0x1_0000_0000 % 0x1_0000_0000)
  {
  }

  lemma Halves(n: nat)
    ensures n % 0x1_0000_0000 == n % 0x1_0000 + 0x1_0000 * (n / 0x1_0000 % 0x1_0000)
  {
  }

  /** Any two bytes are the encoding of the integer they hold. */
  lemma WriteBack16(s: Bytes, at: nat)
    requires at + 2 <= |s|
    ensures LE16(At16(s, at)) == s[at..at + 2]
  {
  }

  lemma SubSlice(s: Bytes, at: nat, n: nat, i: nat, j: nat)
    requires at + n <= |s| && i <= j <= n
    ensures s[at..at + n][i..j] == s[at + i..at + j]
  {
    var t := s[at..at + n];
    assert forall k :: 0 <= k < n ==> t[k] == s[at + k];
    assert forall k :: 0 <= k < j - i ==> t[i..j][k] == t[i + k];
  }

  /** A 16-bit field cannot tell a value from its cast. */
  lemma Cast16(n: nat)
    ensures LE16(n) == LE16(n % 0x1_0000)
  {
    assert [] + LE16(n) + [] == LE16(n);
    ReadBack16([], n, []);
    WriteBack16(LE16(n), 0);
  }
}
