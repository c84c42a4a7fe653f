/** Big-endian numbers in a byte buffer, as `struct.pack("!...")` writes and `struct.unpack_from` reads them. */
module OfBytes {
  import Streams

  type Byte = bv8
  type Length = x: int | 0 <= x < 0x1_0000

  function U16(x: bv16): (r: seq<Byte>)
    ensures |r| == 2
  {
    [(x >> 8) as bv8, (x & 0xFF) as bv8]
  }

  function U32(x: bv32): (r: seq<Byte>)
    ensures |r| == 4
  {
    [(x >> 24) as bv8, ((x >> 16) & 0xFF) as bv8, ((x >> 8) & 0xFF) as bv8, (x & 0xFF) as bv8]
  }

  function U48(x: bv48): (r: seq<Byte>)
    ensures |r| == 6
  {
    [(x >> 40) as bv8, ((x >> 32) & 0xFF) as bv8, ((x >> 24) & 0xFF) as bv8,
     ((x >> 16) & 0xFF) as bv8, ((x >> 8) & 0xFF) as bv8, (x & 0xFF) as bv8]
  }

  function U64(x: bv64): (r: seq<Byte>)
    ensures |r| == 8
  {
    [(x >> 56) as bv8, ((x >> 48) & 0xFF) as bv8, ((x >> 40) & 0xFF) as bv8, ((x >> 32) & 0xFF) as bv8,
     ((x >> 24) & 0xFF) as bv8, ((x >> 16) & 0xFF) as bv8, ((x >> 8) & 0xFF) as bv8, (x & 0xFF) as bv8]
  }

  /** A length is used as an index, so it is an integer. */
  function ULen(x: Length): (r: seq<Byte>)
    ensures |r| == 2
  {
    [(x / 256) as bv8, (x % 256) as bv8]
  }

  function Get16(s: seq<Byte>): bv16
    requires |s| == 2
  {
    (s[0] as bv16 << 8) | s[1] as bv16
  }

  function Get32(s: seq<Byte>): bv32
    requires |s| == 4
  {
    (s[0] as bv32 << 24) | (s[1] as bv32 << 16) | (s[2] as bv32 << 8) | s[3] as bv32
  }

  function Get48(s: seq<Byte>): bv48
    requires |s| == 6
  {
    (s[0] as bv48 << 40) | (s[1] as bv48 << 32) | (s[2] as bv48 << 24)
    | (s[3] as bv48 << 16) | (s[4] as bv48 << 8) | s[5] as bv48
  }

  function Get64(s: seq<Byte>): bv64
    requires |s| == 8
  {
    (s[0] as bv64 << 56) | (s[1] as bv64 << 48) | (s[2] as bv64 << 40) | (s[3] as bv64 << 32)
    | (s[4] as bv64 << 24) | (s[5] as bv64 << 16) | (s[6] as bv64 << 8) | s[7] as bv64
  }

  function GetLen(s: seq<Byte>): Length
    requires |s| == 2
  {
    256 * (s[0] as int) + s[1] as int
  }

  lemma Inverse16(x: bv16)
    ensures Get16(U16(x)) == x
  {
  }

  lemma Inverse32(x: bv32)
    ensures Get32(U32(x)) == x
  {
  }

  lemma Inverse48(x: bv48)
    ensures Get48(U48(x)) == x
  {
  }

  lemma InverseLen(x: Length)
    ensures GetLen(ULen(x)) == x
  {
    Streams.ByteAsInt(x / 256);
    Streams.ByteAsInt(x % 256);
  }

  /** `s` stands in `b` at offset `i`. */
  predicate Stands(b: seq<Byte>, i: nat, s: seq<Byte>) {
    i + |s| <= |b| && b[i..i + |s|] == s
  }

  lemma StandsSplit(b: seq<Byte>, i: nat, s: seq<Byte>, t: seq<Byte>)
    requires Stands(b, i, s + t)
    ensures Stands(b, i, s) && Stands(b, i + |s|, t)
  {
    var st := s + t;
    assert st[..|s|] == s && st[|s|..] == t;
    assert b[i..i + |s|] == b[i..i + |st|][..|s|];
    assert b[i + |s|..i + |st|] == b[i..i + |st|][|s|..];
  }

  lemma SliceOfSlice(b: seq<Byte>, i: nat, n: nat, j: nat, k: nat)
    requires i + n <= |b| && j <= k <= n
    ensures b[i..i + n][j..k] == b[i + j..i + k]
  {
    var s, t := b[i..i + n][j..k], b[i + j..i + k];
    assert forall x :: 0 <= x < k - j ==> s[x] == b[i + (j + x)] && t[x] == b[i + (j + x)];
  }
}
