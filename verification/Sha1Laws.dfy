/** What the functions and constants of Sha1Spec are, told from the words of FIPS PUB 180-1 and not from their code. */
module Sha1Laws {
  import opened Sha1Spec
  import opened Streams

  // The laws of the expressions, then those of the functions.

  lemma XorTheOther(b: Word, c: Word, d: Word, m: Word)
    requires b & m == c & m
    ensures (b ^ c ^ d) & m == d & m
  {
  }

  lemma XorSwaps(b: Word, c: Word, d: Word)
    ensures b ^ c ^ d == b ^ d ^ c && b ^ c ^ d == c ^ d ^ b
  {
  }

  lemma MajorityAgrees(b: Word, c: Word, d: Word, m: Word)
    requires b & m == c & m
    ensures ((b & c) | (b & d) | (c & d)) & m == b & m
  {
  }

  lemma MajoritySwaps(b: Word, c: Word, d: Word)
    ensures (b & c) | (b & d) | (c & d) == (b & d) | (b & c) | (d & c)
    ensures (b & c) | (b & d) | (c & d) == (c & d) | (c & b) | (d & b)
  {
  }

  lemma ShiftsMoveUp(n: Word, x: Word, i: Word)
    requires 0 < n < 32 && i < 32 && i + n < 32
    ensures (((x << n) | (x >> (32 - n))) >> (i + n)) & 1 == (x >> i) & 1
  {
  }

  lemma ShiftsMoveRound(n: Word, x: Word, i: Word)
    requires 0 < n < 32 && i < 32 && 32 <= i + n
    ensures (((x << n) | (x >> (32 - n))) >> (i + n - 32)) & 1 == (x >> i) & 1
  {
  }

  /** A circular shift by `n` moves the bit at `i` up to `i + n` .. */
  lemma RotlMovesUp(n: Word, x: Word, i: Word)
    requires 0 < n < 32 && i < 32 && i + n < 32
    ensures (Rotl(n, x) >> (i + n)) & 1 == (x >> i) & 1
  {
    ShiftsMoveUp(n, x, i);
  }

  /** .. and round the end. */
  lemma RotlMovesRound(n: Word, x: Word, i: Word)
    requires 0 < n < 32 && i < 32 && 32 <= i + n
    ensures (Rotl(n, x) >> (i + n - 32)) & 1 == (x >> i) & 1
  {
    ShiftsMoveRound(n, x, i);
  }

  /** On the bits `m`, Ch is c where b is set and d where it is not. */
  lemma ChChooses(b: Word, c: Word, d: Word, m: Word)
    ensures b & m == m ==> Ch(b, c, d) & m == c & m
    ensures b & m == 0 ==> Ch(b, c, d) & m == d & m
  {
  }

  /** Where two agree, Par is the third of them; and of three bits two always agree. */
  lemma ParIsTheOther(b: Word, c: Word, d: Word, m: Word)
    requires b & m == c & m
    ensures Par(b, c, d) & m == d & m
  {
    XorTheOther(b, c, d, m);
  }

  lemma ParSwaps(b: Word, c: Word, d: Word)
    ensures Par(b, c, d) == Par(b, d, c) == Par(c, d, b)
  {
    XorSwaps(b, c, d);
  }

  /** Where two agree, Maj agrees with them. */
  lemma MajAgrees(b: Word, c: Word, d: Word, m: Word)
    requires b & m == c & m
    ensures Maj(b, c, d) & m == b & m
  {
    MajorityAgrees(b, c, d, m);
  }

  lemma MajSwaps(b: Word, c: Word, d: Word)
    ensures Maj(b, c, d) == Maj(b, d, c) == Maj(c, d, b)
  {
    MajoritySwaps(b, c, d);
  }

  /** K is the first thirty bits after the point of a square root: of 2, 3, 5 and 10, twenty rounds each. */
  lemma KIsRoot(t: nat)
    requires t < 80
    ensures var k, n := K(t) as int, if t < 20 then 2 else if t < 40 then 3 else if t < 60 then 5 else 10;
            k * k <= n * 0x1000_0000_0000_0000 < (k + 1) * (k + 1)
  {
  }

  /** A number from its bytes, the most significant first. */
  function BigEndian(s: seq<Octet>): nat {
    if s == [] then 0 else 256 * BigEndian(s[..|s| - 1]) + s[|s| - 1] as nat
  }

  lemma Append(s: seq<Octet>, last: Octet)
    ensures BigEndian(s + [last]) == 256 * BigEndian(s) + last as nat
  {
    assert (s + [last])[..|s|] == s;
  }

  lemma FourBytes(a: Octet, b: Octet, c: Octet, d: Octet)
    ensures BigEndian([a, b, c, d]) == 256 * (256 * (256 * (a as nat) + b as nat) + c as nat) + d as nat
  {
    Append([], a);
    Append([a], b);
    Append([a, b], c);
    Append([a, b, c], d);
    assert [] + [a] == [a] && [a] + [b] == [a, b] && [a, b] + [c] == [a, b, c] && [a, b, c] + [d] == [a, b, c, d];
  }

  lemma Digits(x: Count)
    ensures x == 256 * (256 * (256 * (x / 0x100_0000) + x / 0x1_0000 % 256) + x / 0x100 % 256) + x % 256
  {
    var q := x / 256;
    var r := q / 256;
    assert x / 0x1_0000 == r && x / 0x100_0000 == r / 256;
  }

  lemma WordBytesNumber(x: Count)
    ensures BigEndian(WordBytes(x)) == x
  {
    var a, b, c, d := x / 0x100_0000, x / 0x1_0000 % 256, x / 0x100 % 256, x % 256;
    ByteAsInt(a);
    ByteAsInt(b);
    ByteAsInt(c);
    ByteAsInt(d);
    FourBytes(a as bv8, b as bv8, c as bv8, d as bv8);
    Digits(x);
  }

  /** Section 4: the message, a one bit, as few zero bits as make whole blocks, and the length in bits. */
  lemma PaddedIs(m: seq<Octet>)
    requires 8 * |m| < 0x1_0000_0000_0000_0000
    ensures var p := Padded(m); var n := |p| - 8;
            && |p| % 64 == 0 && |m| + 9 <= |p| < |m| + 9 + 64
            && p[..|m|] == m && p[|m|] == 0x80
            && (forall i :: |m| < i < n ==> p[i] == 0)
            && BigEndian(p[n..n + 4]) * 0x1_0000_0000 + BigEndian(p[n + 4..]) == 8 * |m|
  {
    var bits := 8 * |m|;
    var high, low := bits / 0x1_0000_0000, bits % 0x1_0000_0000;
    var p := Padded(m);
    var n := |p| - 8;
    WordBytesNumber(high);
    WordBytesNumber(low);
    assert p[n..] == LengthBytes(high, low);
    assert p[n..n + 4] == WordBytes(high) && p[n + 4..] == WordBytes(low);
  }
}
