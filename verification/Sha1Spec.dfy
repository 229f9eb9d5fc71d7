/**
 SHA-1 as FIPS 180-4 defines it: padding by section 5.1.1, the message schedule and the compression of
 section 6.1.2, over bytes.
 */
module Sha1Spec {

  type Word = bv32
  type Octets = seq<bv8>

  const BLOCK: nat := 64

  const INITIAL: seq<Word> := [0x67452301, 0xEFCDAB89, 0x98BADCFE, 0x10325476, 0xC3D2E1F0]

  // ---------------------------------------------------------------- section 4.1.1: functions

  function Rotl(x: Word, n: nat): Word
    requires 0 < n < 32
  {
    (x << n) | (x >> (32 - n))
  }

  function Ch(x: Word, y: Word, z: Word): Word { (x & y) ^ (!x & z) }

  function Parity(x: Word, y: Word, z: Word): Word { x ^ y ^ z }

  function Maj(x: Word, y: Word, z: Word): Word { (x & y) ^ (x & z) ^ (y & z) }

  function F(t: nat, x: Word, y: Word, z: Word): Word
  {
    if t < 20 then Ch(x, y, z) else if t < 40 then Parity(x, y, z) else if t < 60 then Maj(x, y, z) else Parity(x, y, z)
  }

  /** Addition modulo 2^32 of the five terms of a round. */
  function Sum(v: Word, w: Word, x: Word, y: Word, z: Word): Word { v + w + x + y + z }

  function Plus(x: Word, y: Word): Word { x + y }

  /** Section 4.2.1. */
  function K(t: nat): Word
  {
    if t < 20 then 0x5A827999 else if t < 40 then 0x6ED9EBA1 else if t < 60 then 0x8F1BBCDC else 0xCA62C1D6
  }

  // ---------------------------------------------------------------- section 6.1.2: one block

  function Be32(b: Octets, at: nat): Word
    requires at + 4 <= |b|
  {
    (b[at] as Word << 24) | (b[at + 1] as Word << 16) | (b[at + 2] as Word << 8) | (b[at + 3] as Word)
  }

  function Mixed(x: Word, y: Word, z: Word, w: Word): Word { x ^ y ^ z ^ w }

  /** The message schedule. */
  function W(block: Octets, t: nat): Word
    requires |block| == BLOCK
  {
    if t < 16 then Be32(block, 4 * t)
    else Rotl(Mixed(W(block, t - 3), W(block, t - 8), W(block, t - 14), W(block, t - 16)), 1)
  }

  datatype Working = Working(a: Word, b: Word, c: Word, d: Word, e: Word)

  /** The working variables after `t` rounds. */
  function Rounds(hash: seq<Word>, block: Octets, t: nat): Working
    requires |hash| == 5 && |block| == BLOCK
  {
    if t == 0 then Working(hash[0], hash[1], hash[2], hash[3], hash[4])
    else
      var v := Rounds(hash, block, t - 1);
      var next := Sum(Rotl(v.a, 5), F(t - 1, v.b, v.c, v.d), v.e, K(t - 1), W(block, t - 1));
      Working(next, v.a, Rotl(v.b, 30), v.c, v.d)
  }

  function Compress(hash: seq<Word>, block: Octets): (r: seq<Word>)
    requires |hash| == 5 && |block| == BLOCK
    ensures |r| == 5
  {
    var v := Rounds(hash, block, 80);
    [Plus(hash[0], v.a), Plus(hash[1], v.b), Plus(hash[2], v.c), Plus(hash[3], v.d), Plus(hash[4], v.e)]
  }

  /** All whole blocks in turn. */
  function HashBlocks(hash: seq<Word>, b: Octets): (r: seq<Word>)
    requires |hash| == 5 && |b| % BLOCK == 0
    ensures |r| == 5
  {
    if b == [] then hash else Compress(HashBlocks(hash, b[..|b| - BLOCK]), b[|b| - BLOCK..])
  }

  // ---------------------------------------------------------------- section 5.1.1: padding

  function Zeros(n: nat): (z: Octets)
    ensures |z| == n
  {
    seq(n, _ => 0)
  }

  function Octet(n: nat): bv8 { (n % 256) as bv8 }

  /** The last `k` digits to base 256, most significant first. */
  function BeDigits(n: nat, k: nat): (b: Octets)
    ensures |b| == k
  {
    if k == 0 then [] else BeDigits(n / 256, k - 1) + [Octet(n)]
  }

  function Be64(n: nat): (b: Octets)
    ensures |b| == 8
  {
    BeDigits(n, 8)
  }

  /** The least number of zero bytes that leaves room for exactly the length at the end of a block. */
  function Gap(n: nat): (k: nat)
    ensures k < BLOCK && (n + 1 + k) % BLOCK == 56
  {
    (119 - n % BLOCK) % BLOCK
  }

  lemma {:induction false} PaddedLength(n: nat)
    ensures (n + 1 + Gap(n) + 8) % BLOCK == 0
  {}

  function Pad(message: Octets): (p: Octets)
    ensures |p| % BLOCK == 0
  {
    PaddedLength(|message|);
    message + [0x80] + Zeros(Gap(|message|)) + Be64(8 * |message|)
  }

  /** The digest of a message, in words. */
  function Digest(message: Octets): (r: seq<Word>)
    ensures |r| == 5
  {
    HashBlocks(INITIAL, Pad(message))
  }

  /** The padding is the shortest there can be. */
  lemma {:induction false} GapIsLeast(n: nat, k: nat)
    requires (n + 1 + k) % BLOCK == 56
    ensures Gap(n) <= k
  {}

  // ---------------------------------------------------------------- forms the implementation uses

  function Choice(x: Word, y: Word, z: Word): Word { (x & y) | (!x & z) }

  function Majority(x: Word, y: Word, z: Word): Word { (x & y) | (y & z) | (x & z) }

  function Rotate(x: Word, n: nat): Word
    requires n < 32
  {
    x.RotateLeft(n)
  }

  lemma {:induction false} ChooseBits(x: Word, y: Word, z: Word)
    ensures (x & y) | (!x & z) == (x & y) ^ (!x & z)
  {}

  lemma {:induction false} MajorityBits(x: Word, y: Word, z: Word)
    ensures (x & y) | (y & z) | (x & z) == (x & y) ^ (x & z) ^ (y & z)
  {}

  lemma {:induction false} ChoiceIsCh(x: Word, y: Word, z: Word)
    ensures Choice(x, y, z) == Ch(x, y, z)
  {
    ChooseBits(x, y, z);
  }

  lemma {:induction false} MajorityIsMaj(x: Word, y: Word, z: Word)
    ensures Majority(x, y, z) == Maj(x, y, z)
  {
    MajorityBits(x, y, z);
  }

  lemma {:induction false} RotateIsRotl(x: Word)
    ensures Rotate(x, 1) == Rotl(x, 1) && Rotate(x, 5) == Rotl(x, 5) && Rotate(x, 30) == Rotl(x, 30)
  {}

  lemma {:induction false} NextWord(block: Octets, t: nat)
    requires |block| == BLOCK && t >= 16
    ensures W(block, t) == Rotate(Mixed(W(block, t - 3), W(block, t - 8), W(block, t - 14), W(block, t - 16)), 1)
  {
    hide Rotate, Rotl, Mixed;
    RotateIsRotl(Mixed(W(block, t - 3), W(block, t - 8), W(block, t - 14), W(block, t - 16)));
  }

  lemma {:induction false} NextRound(hash: seq<Word>, block: Octets, t: nat)
    requires |hash| == 5 && |block| == BLOCK
    ensures var v := Rounds(hash, block, t);
            Rounds(hash, block, t + 1) == Working(Sum(Rotate(v.a, 5), F(t, v.b, v.c, v.d), v.e, K(t), W(block, t)), v.a, Rotate(v.b, 30), v.c, v.d)
  {
    hide Rotate, Rotl, F, K, W, Sum;
    var v := Rounds(hash, block, t);
    RotateIsRotl(v.a);
    RotateIsRotl(v.b);
  }

  /** One more block. */
  lemma {:induction false} HashNext(hash: seq<Word>, b: Octets, block: Octets)
    requires |hash| == 5 && |b| % BLOCK == 0 && |block| == BLOCK
    ensures |b + block| % BLOCK == 0 && HashBlocks(hash, b + block) == Compress(HashBlocks(hash, b), block)
  {
    assert (b + block)[..|b|] == b && (b + block)[|b|..] == block;
  }
}
