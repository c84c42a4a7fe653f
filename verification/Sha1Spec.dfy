/** The message digest of FIPS PUB 180-1, for messages that are whole bytes. */
module Sha1Spec {
  type Word = bv32
  type Octet = bv8

  /** Section 3(c): the circular left shift. */
  function Rotl(n: bv32, x: Word): Word
    requires n < 32
  {
    (x << n) | (x >> (32 - n))
  }

  /** Section 5: the functions of rounds 0 to 19, of 20 to 39 and 60 to 79, and of 40 to 59. */
  function Ch(b: Word, c: Word, d: Word): Word { (b & c) | (!b & d) }

  function Par(b: Word, c: Word, d: Word): Word { b ^ c ^ d }

  function Maj(b: Word, c: Word, d: Word): Word { (b & c) | (b & d) | (c & d) }

  function F(t: nat, b: Word, c: Word, d: Word): Word {
    if t < 20 then Ch(b, c, d) else if 40 <= t < 60 then Maj(b, c, d) else Par(b, c, d)
  }

  /** Section 6. */
  function K(t: nat): Word {
    if t < 20 then 0x5A827999
    else if t < 40 then 0x6ED9EBA1
    else if t < 60 then 0x8F1BBCDC
    else 0xCA62C1D6
  }

  datatype Digest = Digest(a: Word, b: Word, c: Word, d: Word, e: Word)

  const H0 := Digest(0x67452301, 0xEFCDAB89, 0x98BADCFE, 0x10325476, 0xC3D2E1F0)

  /** Four bytes as a word, the first the most significant. */
  function ToWord(b0: Octet, b1: Octet, b2: Octet, b3: Octet): Word {
    (b0 as bv32 << 24) | (b1 as bv32 << 16) | (b2 as bv32 << 8) | b3 as bv32
  }

  function Mixed(w: Word, x: Word, y: Word, z: Word): Word { w ^ x ^ y ^ z }

  /** Section 7, steps (a) and (b): the words W_0 to W_79 of a block. */
  function W(block: seq<Octet>, t: nat): Word
    requires |block| == 64 && t < 80
  {
    if t < 16 then ToWord(block[4 * t], block[4 * t + 1], block[4 * t + 2], block[4 * t + 3])
    else Rotl(1, Mixed(W(block, t - 3), W(block, t - 8), W(block, t - 14), W(block, t - 16)))
  }

  /** Addition of words, which is modulo 2^32. */
  function Sum(a: Word, f: Word, e: Word, w: Word, k: Word): Word { a + f + e + w + k }

  /** Section 7, step (d), once. */
  function Round(r: Digest, t: nat, w: Word): Digest {
    Digest(Sum(Rotl(5, r.a), F(t, r.b, r.c, r.d), r.e, w, K(t)), r.a, Rotl(30, r.b), r.c, r.d)
  }

  function Rounds(h: Digest, block: seq<Octet>, t: nat): Digest
    requires |block| == 64 && t <= 80
  {
    if t == 0 then h else Round(Rounds(h, block, t - 1), t - 1, W(block, t - 1))
  }

  function Plus(x: Word, y: Word): Word { x + y }

  /** Section 7, step (e). */
  function Accumulate(h: Digest, r: Digest): Digest {
    Digest(Plus(h.a, r.a), Plus(h.b, r.b), Plus(h.c, r.c), Plus(h.d, r.d), Plus(h.e, r.e))
  }

  /** Section 7, steps (a) to (e): one block. */
  function Compress(h: Digest, block: seq<Octet>): Digest
    requires |block| == 64
  {
    Accumulate(h, Rounds(h, block, 80))
  }

  /** All the blocks of a message of whole blocks, in order. */
  function HashBlocks(m: seq<Octet>): Digest
    requires |m| % 64 == 0
  {
    if m == [] then H0
    else Compress(HashBlocks(m[..|m| - 64]), m[|m| - 64..])
  }

  function Zeros(n: nat): seq<Octet> { seq(n, _ => 0) }

  type Count = x: nat | x < 0x1_0000_0000

  function WordBytes(x: Count): (r: seq<Octet>)
    ensures |r| == 4
  {
    [(x / 0x100_0000) as bv8, (x / 0x1_0000 % 256) as bv8, (x / 0x100 % 256) as bv8, (x % 256) as bv8]
  }

  /** The two-word representation of a length in bits, the high word first. */
  function LengthBytes(high: Count, low: Count): (r: seq<Octet>)
    ensures |r| == 8
  {
    WordBytes(high) + WordBytes(low)
  }

  /** Section 4: a one bit, then zero bits up to where the length completes a block, then the length. */
  function PaddedWith(m: seq<Octet>, length: seq<Octet>): (p: seq<Octet>)
    requires |length| == 8
    ensures |p| % 64 == 0
  {
    m + [0x80] + Zeros((55 - |m|) % 64) + length
  }

  function Padded(m: seq<Octet>): (p: seq<Octet>)
    requires 8 * |m| < 0x1_0000_0000_0000_0000
    ensures |p| % 64 == 0
  {
    PaddedWith(m, LengthBytes(8 * |m| / 0x1_0000_0000, 8 * |m| % 0x1_0000_0000))
  }

  function Sha1(m: seq<Octet>): Digest
    requires 8 * |m| < 0x1_0000_0000_0000_0000
  {
    HashBlocks(Padded(m))
  }
}
