/**
 The Internet checksum as the repository computes it twice: Project-3/tcp_sum.c adds 16-bit words in the
 byte order of a little-endian host and folds twice; Project-4/router/sr_utils.c adds big-endian words in
 a 32-bit unsigned and folds in a loop. Words are kept as integers, so every wrap-around is written out.
 */
module Checksum {
  import opened Streams

  type Word = x: int | 0 <= x < 0x1_0000

  const U32 := 0x1_0000_0000
  const INT_MAX := 0x7FFF_FFFF

  function Hi(x: Byte): Word { 256 * (x as int) }

  function Le(b: seq<Byte>, i: nat): Word
    requires i + 1 < |b|
  {
    b[i] + Hi(b[i + 1])
  }

  function Be(b: seq<Byte>, i: nat): Word
    requires i + 1 < |b|
  {
    Hi(b[i]) + b[i + 1]
  }

  /** The bytes of a word exchanged: `htons` on a little-endian host. */
  function Swap(x: Word): Word { 256 * (x % 256) + x / 256 }

  /** The words from byte `i` on; an odd last byte is the low byte of a native word. */
  function LeSum(b: seq<Byte>, i: nat): nat
    decreases |b| - i
  {
    if i >= |b| then 0 else if i + 1 == |b| then b[i] else Le(b, i) + LeSum(b, i + 2)
  }

  /** The same for big-endian words, where an odd last byte is the high byte. */
  function BeSum(b: seq<Byte>, i: nat): nat
    decreases |b| - i
  {
    if i >= |b| then 0 else if i + 1 == |b| then Hi(b[i]) else Be(b, i) + BeSum(b, i + 2)
  }

  /** Addition with end-around carry, all at once: the residue modulo 65535, where 0 stands only for itself. */
  function Fold(x: nat): Word {
    if x == 0 then 0 else (x - 1) % 65535 + 1
  }

  lemma FoldUnique(x: nat, y: int, k: int)
    requires x == y + 65535 * k && 1 <= y <= 65535 && x > 0
    ensures Fold(x) == y
  {
    assert x - 1 == 65535 * k + (y - 1);
  }

  /** Adding the carries back in keeps the folded value. */
  lemma FoldStep(x: nat)
    ensures Fold(x / 0x1_0000 + x % 0x1_0000) == Fold(x)
  {
    var y := x / 0x1_0000 + x % 0x1_0000;
    if x > 0 {
      assert x == y + 65535 * (x / 0x1_0000);
      assert y > 0;
      var r: int := Fold(y);
      assert y == r + 65535 * ((y - 1) / 65535);
      FoldUnique(x, r, (y - 1) / 65535 + x / 0x1_0000);
    }
  }

  // ---- sr_utils.c

  /** The value `cksum` returns, by the total of all words: the sum is kept in 32 unsigned bits. */
  function CksumOfTotal(total: nat): Word { Swap(0xFFFF - Fold(total % U32)) }

  function CksumOf(data: seq<Byte>): Word { CksumOfTotal(BeSum(data, 0)) }

  /** Unsigned 32-bit addition of a word. */
  function Wrap(x: nat): nat
    requires x < 2 * U32
  {
    if x < U32 then x else x - U32
  }

  lemma WrapsAway(sum: nat, wraps: nat, total: nat)
    requires sum < U32 && total == sum + U32 * wraps
    ensures total % U32 == sum
  {
  }

  method Cksum(data: seq<Byte>) returns (r: Word)
    ensures r == CksumOf(data)
  {
    var sum: nat := 0;
    var at := 0;
    ghost var wraps := 0;
    while |data| - at >= 2
      invariant at <= |data| && sum < U32
      invariant sum + U32 * wraps + BeSum(data, at) == BeSum(data, 0)
    {
      var next := sum + Be(data, at);
      wraps := if next < U32 then wraps else wraps + 1;
      sum := Wrap(next);
      at := at + 2;
    }
    if |data| - at > 0 {
      var next := sum + Hi(data[at]);
      wraps := if next < U32 then wraps else wraps + 1;
      sum := Wrap(next);
    }
    WrapsAway(sum, wraps, BeSum(data, 0));
    r := FoldLoop(sum);
  }

  method FoldLoop(total: nat) returns (r: Word)
    ensures r == Swap(0xFFFF - Fold(total))
  {
    var sum := total;
    while sum > 0xFFFF
      invariant Fold(sum) == Fold(total)
      decreases sum
    {
      FoldStep(sum);
      sum := sum / 0x1_0000 + sum % 0x1_0000;
    }
    r := Swap(0xFFFF - sum);
  }

  // ---- a checksum stored in the data it covers

  /** A native 16-bit store at byte `p`. */
  function Store(b: seq<Byte>, p: nat, v: Word): (r: seq<Byte>)
    requires p + 1 < |b|
    ensures |r| == |b| && Le(r, p) == v && Be(r, p) == Swap(v)
  {
    b[p := v % 256][p + 1 := v / 256]
  }

  /** The two buffers agree except for the word at byte `p`. */
  predicate SameBut(b: seq<Byte>, c: seq<Byte>, p: nat) {
    |b| == |c| && p + 1 < |b| && forall k :: 0 <= k < |b| && k != p && k != p + 1 ==> b[k] == c[k]
  }

  lemma SwapTwice(x: Word)
    ensures Swap(Swap(x)) == x
  {
    assert Swap(x) % 256 == x / 256 && Swap(x) / 256 == x % 256;
  }

  /** Changing the word at an even position changes the sums by the change of that word. */
  lemma {:induction false} SumsChange(b: seq<Byte>, c: seq<Byte>, p: nat, i: nat)
    requires SameBut(b, c, p) && i % 2 == 0 && p % 2 == 0
    ensures BeSum(c, i) - BeSum(b, i) == if i <= p then Be(c, p) - Be(b, p) else 0
    ensures LeSum(c, i) - LeSum(b, i) == if i <= p then Le(c, p) - Le(b, p) else 0
    decreases |b| - i
  {
    if i + 1 < |b| {
      SumsChange(b, c, p, i + 2);
      if i != p {
        assert b[i] == c[i] && b[i + 1] == c[i + 1];
      }
    } else if i < |b| {
      assert b[i] == c[i];
    }
  }

  /** A 32-bit sum plus what `cksum` makes of it never wraps: it is the next multiple of 65535. */
  lemma CompletesTo(sum: nat)
    requires sum < U32
    ensures sum + (0xFFFF - Fold(sum)) < U32 && Fold(sum + (0xFFFF - Fold(sum))) == 0xFFFF
  {
    if sum > 0 {
      var m := (sum - 1) / 65535;
      assert sum == Fold(sum) + 65535 * m;
      assert m <= 65536;
      FoldUnique(sum + (0xFFFF - Fold(sum)), 0xFFFF, m);
    }
  }

  lemma TotalCompletes(total: nat)
    ensures CksumOfTotal(total + (0xFFFF - Fold(total % U32))) == 0
  {
    var low := total % U32;
    CompletesTo(low);
    WrapsAway(low + (0xFFFF - Fold(low)), total / U32, total + (0xFFFF - Fold(low)));
  }

  /** Writing the checksum of a buffer into a zeroed field at an even position makes the buffer's checksum 0:
      for any buffer, odd lengths and sums that wrap in 32 bits included. */
  lemma CksumChecks(data: seq<Byte>, p: nat)
    requires p % 2 == 0 && p + 1 < |data| && Le(data, p) == 0
    ensures CksumOf(Store(data, p, CksumOf(data))) == 0
  {
    var stored := Store(data, p, CksumOf(data));
    var total := BeSum(data, 0);
    var rest: Word := 0xFFFF - Fold(total % U32);
    SumsChange(data, stored, p, 0);
    SwapTwice(rest);
    assert BeSum(stored, 0) == total + rest;
    TotalCompletes(total);
  }

  lemma {:induction false} BeSumBound(b: seq<Byte>, i: nat)
    requires i <= |b|
    ensures BeSum(b, i) <= 0xFFFF * ((|b| - i + 1) / 2)
    decreases |b| - i
  {
    if i + 1 < |b| {
      BeSumBound(b, i + 2);
    }
  }

  lemma FoldAdds(x: nat, y: nat)
    ensures Fold(x + y) == Fold(Fold(x) + y)
  {
    if x > 0 {
      var f, z: int := Fold(Fold(x) + y), Fold(x) + y;
      assert x == Fold(x) + 65535 * ((x - 1) / 65535);
      assert z == f + 65535 * ((z - 1) / 65535);
      FoldUnique(x + y, f, (x - 1) / 65535 + (z - 1) / 65535);
    }
  }

  lemma FoldIsAllOnes(f: Word, v: Word)
    ensures Fold(f + v) == 0xFFFF <==> f + v == 0xFFFF || f + v == 2 * 0xFFFF
  {
  }

  lemma TotalMatches(total: nat, w: Word)
    requires total + w < U32
    ensures CksumOfTotal(total + w) == 0 <==> w == 0xFFFF - Fold(total) || (Fold(total) == 0xFFFF && w == 0xFFFF)
  {
    WrapsAway(total + w, 0, total + w);
    FoldAdds(total, w);
    FoldIsAllOnes(Fold(total), w);
    SwapTwice(0xFFFF - Fold(total + w));
  }

  lemma SwapMatches(v: Word, w: Word)
    ensures Swap(v) == w <==> v == Swap(w)
  {
    SwapTwice(v);
    SwapTwice(w);
  }

  /** Of the sums that fit in 32 bits only the largest leaves no room for a word of all ones. */
  lemma NoRoom(low: nat)
    requires low < U32 && Fold(low) == 0xFFFF
    ensures low + 0xFFFF < U32 <==> low != U32 - 1
  {
    assert low == 0xFFFF * ((low - 1) / 65535 + 1);
  }

  /** A sum that wraps once a word is added never folds to all ones. */
  lemma WrappedMisses(low: nat, w: Word)
    requires low < U32 <= low + w
    ensures CksumOfTotal(low + w) != 0 && w != 0xFFFF - Fold(low)
  {
    WrapsAway(low + w - U32, 1, low + w);
    var f: Word := Fold(low + w - U32);
    assert f < 0xFFFF;
    SwapTwice(0xFFFF - f);
    CompletesTo(low);
  }

  lemma CksumOfLow(total: nat, w: Word)
    ensures CksumOfTotal(total + w) == CksumOfTotal(total % U32 + w)
  {
    assert (total + w) % U32 == (total % U32 + w) % U32;
  }

  lemma LowMatches(low: nat, w: Word)
    requires low < U32
    ensures CksumOfTotal(low + w) == 0
       <==> w == 0xFFFF - Fold(low) || (Fold(low) == 0xFFFF && w == 0xFFFF && low != U32 - 1)
  {
    if low + w < U32 {
      TotalMatches(low, w);
      if w == 0xFFFF && Fold(low) == 0xFFFF { NoRoom(low); }
    } else {
      WrappedMisses(low, w);
      if w == 0xFFFF && Fold(low) == 0xFFFF { NoRoom(low); }
    }
  }

  lemma FieldMatches(low: nat, v: Word)
    requires low < U32
    ensures CksumOfTotal(low + Swap(v)) == 0
       <==> v == CksumOfTotal(low) || (CksumOfTotal(low) == 0 && v == 0xFFFF && low != U32 - 1)
  {
    LowMatches(low, Swap(v));
    WrapsAway(low, 0, low);
    SwapMatches(v, 0xFFFF - Fold(low));
    SwapMatches(v, 0xFFFF);
    SwapMatches(0, 0xFFFF - Fold(low));
  }

  lemma TotalCatches(total: nat, stored: nat, v: Word)
    requires stored == total + Swap(v)
    ensures CksumOfTotal(stored) == 0
       <==> v == CksumOfTotal(total) || (CksumOfTotal(total) == 0 && v == 0xFFFF && total % U32 != U32 - 1)
  {
    CksumOfLow(total, Swap(v));
    CksumOfLow(total, 0);
    FieldMatches(total % U32, v);
  }

  lemma StoreAdds(data: seq<Byte>, p: nat, v: Word)
    requires p % 2 == 0 && p + 1 < |data| && Le(data, p) == 0
    ensures BeSum(Store(data, p, v), 0) == BeSum(data, 0) + Swap(v)
  {
    SumsChange(data, Store(data, p, v), p, 0);
  }

  /** What a buffer with checksum 0 holds in its field: the checksum of the rest, or all ones where that is 0,
      unless the words of the rest add up to one less than a multiple of 2^32. */
  lemma CksumCatches(data: seq<Byte>, p: nat, v: Word)
    requires p % 2 == 0 && p + 1 < |data| && Le(data, p) == 0
    ensures CksumOf(Store(data, p, v)) == 0
       <==> v == CksumOf(data) || (CksumOf(data) == 0 && v == 0xFFFF && BeSum(data, 0) % U32 != U32 - 1)
  {
    StoreAdds(data, p, v);
    TotalCatches(BeSum(data, 0), BeSum(Store(data, p, v), 0), v);
  }

  /** The words of a buffer of up to 131074 bytes, its field zeroed, never add up to that. */
  lemma ShortSumsStayBelow(data: seq<Byte>, p: nat)
    requires p % 2 == 0 && p + 1 < |data| <= 0x2_0002 && Le(data, p) == 0
    ensures BeSum(data, 0) % U32 != U32 - 1
  {
    var full := Store(data, p, 0xFFFF);
    SumsChange(data, full, p, 0);
    BeSumBound(full, 0);
    WrapsAway(BeSum(data, 0), 0, BeSum(data, 0));
  }

  // ---- tcp_sum.c

  type Address = a: seq<Byte> | |a| == 4 witness [0, 0, 0, 0]

  const TH_SUM := 16

  /** Addresses, a zero byte, IPPROTO_TCP and the length, truncated to 16 bits by `htons`. */
  function PseudoHeader(src: Address, dst: Address, len: nat): (h: seq<Byte>)
    ensures |h| == 12
  {
    src + dst + [0, 6, len / 256 % 256, len % 256]
  }

  function ZeroSum(segment: seq<Byte>): seq<Byte>
    requires |segment| >= 20
  {
    Store(segment, TH_SUM, 0)
  }

  /** Every word the segment's checksum covers, in host order. */
  function TcpTotal(src: Address, dst: Address, segment: seq<Byte>): nat
    requires |segment| >= 20
  {
    LeSum(PseudoHeader(src, dst, |segment|), 0) + LeSum(ZeroSum(segment), 0)
  }

  function TcpChecksumOf(src: Address, dst: Address, segment: seq<Byte>): Word
    requires |segment| >= 20
  {
    0xFFFF - Fold(TcpTotal(src, dst, segment))
  }

  /** Where the program's `int32_t` sum cannot overflow. */
  predicate FitsInInt(src: Address, dst: Address, segment: seq<Byte>)
    requires |segment| >= 20
  {
    TcpTotal(src, dst, segment) <= INT_MAX
  }

  lemma {:induction false} LeSumBound(b: seq<Byte>, i: nat)
    requires i <= |b|
    ensures LeSum(b, i) <= 0xFFFF * ((|b| - i) / 2) + 255 * ((|b| - i) % 2)
    decreases |b| - i
  {
    if i + 1 < |b| {
      LeSumBound(b, i + 2);
    }
  }

  lemma LeSum12(h: seq<Byte>)
    requires |h| == 12
    ensures LeSum(h, 0) == Le(h, 0) + Le(h, 2) + Le(h, 4) + Le(h, 6) + Le(h, 8) + Le(h, 10)
  {
    assert LeSum(h, 8) == Le(h, 8) + (Le(h, 10) + LeSum(h, 12));
    assert LeSum(h, 4) == Le(h, 4) + (Le(h, 6) + LeSum(h, 8));
    assert LeSum(h, 0) == Le(h, 0) + (Le(h, 2) + LeSum(h, 4));
  }

  lemma PseudoSum(h: seq<Byte>)
    requires |h| == 12 && Le(h, 8) == 0x600
    ensures 0x600 <= LeSum(h, 0) <= 0x600 + 5 * 0xFFFF
  {
    LeSum12(h);
  }

  lemma ZeroSumBound(segment: seq<Byte>)
    requires |segment| >= 20
    ensures LeSum(ZeroSum(segment), 0) <= 0xFFFF * (|segment| / 2 - 1) + 255
  {
    var ones := Store(segment, TH_SUM, 0xFFFF);
    SumsChange(ones, ZeroSum(segment), TH_SUM, 0);
    LeSumBound(ones, 0);
  }

  /** Any segment of up to 65529 bytes fits, so any an IP packet can carry, whose limit is 65515. */
  lemma ShortSegmentsFit(src: Address, dst: Address, segment: seq<Byte>)
    requires 20 <= |segment| <= 65529
    ensures FitsInInt(src, dst, segment)
  {
    PseudoSum(PseudoHeader(src, dst, |segment|));
    ZeroSumBound(segment);
  }

  lemma {:induction false} OnesSum(b: seq<Byte>, i: nat)
    requires i <= |b| && forall k :: 0 <= k < |b| ==> b[k] == 255
    ensures LeSum(b, i) == 0xFFFF * ((|b| - i) / 2) + 255 * ((|b| - i) % 2)
    decreases |b| - i
  {
    if i + 1 < |b| {
      OnesSum(b, i + 2);
    }
  }

  const ONES: Address := [255, 255, 255, 255]

  function AllOnes(len: nat): (b: seq<Byte>)
    ensures |b| == len && forall k :: 0 <= k < len ==> b[k] == 255
  {
    seq(len, _ => 255)
  }

  lemma SplitWord(hi: Byte, lo: Byte)
    ensures (256 * hi + lo) / 256 == hi && (256 * hi + lo) % 256 == lo
  {
  }

  lemma LowWord(x: nat, k: nat, y: nat)
    requires x == 0x1_0000 * k + y && y < 0x1_0000
    ensures x % 0x1_0000 == y
  {
  }

  /** The two bytes `htons` gives the length. */
  lemma LengthWord(len: nat)
    ensures len / 256 % 256 + Hi(len % 256) == Swap(len % 0x1_0000)
  {
    var q, lo := len / 256, len % 256;
    LowWord(len, q / 256, 256 * (q % 256) + lo);
    SplitWord(q % 256, lo);
  }

  lemma TopLengthWord(len: nat)
    requires 65530 <= len < 0x1_0000
    ensures Swap(len % 0x1_0000) >= 64000
  {
    assert len % 256 >= 250;
  }

  lemma PseudoOnes(len: nat)
    ensures LeSum(PseudoHeader(ONES, ONES, len), 0) == 4 * 0xFFFF + 0x600 + Swap(len % 0x1_0000)
  {
    var h := PseudoHeader(ONES, ONES, len);
    LeSum12(h);
    assert Le(h, 0) == 0xFFFF && Le(h, 2) == 0xFFFF && Le(h, 4) == 0xFFFF && Le(h, 6) == 0xFFFF;
    assert Le(h, 8) == 0x600;
    assert h[10] == len / 256 % 256 && h[11] == len % 256;
    LengthWord(len);
  }

  /** From 65530 bytes on, a segment of all ones between two addresses of all ones overflows. */
  lemma AllOnesOverflow(len: nat)
    requires len >= 65530
    ensures !FitsInInt(ONES, ONES, AllOnes(len))
  {
    var segment := AllOnes(len);
    OnesSum(segment, 0);
    SumsChange(segment, ZeroSum(segment), TH_SUM, 0);
    PseudoOnes(len);
    var total := 0xFFFF * (len / 2 + 3) + 255 * (len % 2) + 0x600 + Swap(len % 0x1_0000);
    assert TcpTotal(ONES, ONES, segment) == total;
    if len < 0x1_0000 {
      TopLengthWord(len);
      assert len / 2 >= 32765;
    } else {
      assert len / 2 >= 32768;
    }
  }

  ghost predicate AlwaysFits(len: nat)
    requires len >= 20
  {
    forall src, dst, segment :: |segment| == len ==> FitsInInt(src, dst, segment)
  }

  /** The signed sum cannot overflow on any segment of a given length exactly when that is at most 65529. */
  lemma LengthsThatFit(len: nat)
    requires len >= 20
    ensures AlwaysFits(len) <==> len <= 65529
  {
    if len <= 65529 {
      forall src, dst, segment | |segment| == len ensures FitsInInt(src, dst, segment) {
        ShortSegmentsFit(src, dst, segment);
      }
    } else {
      AllOnesOverflow(len);
    }
  }

  method TcpChecksum(src: Address, dst: Address, packet: seq<Byte>) returns (r: Word)
    requires src != [0, 0, 0, 0] && dst != [0, 0, 0, 0] && |packet| >= 20
    requires FitsInInt(src, dst, packet)
    ensures r == TcpChecksumOf(src, dst, packet)
  {
    var pseudo := PseudoHeader(src, dst, |packet|);
    var sum := AddPseudo(pseudo, LeSum(ZeroSum(packet), 0));
    sum := AddSegment(packet, sum);
    r := TwoFolds(sum);
  }

  /** The first loop; `later` is what is still to be added. */
  method AddPseudo(h: seq<Byte>, ghost later: nat) returns (sum: nat)
    requires |h| == 12 && LeSum(h, 0) + later <= INT_MAX
    ensures sum == LeSum(h, 0)
  {
    sum := 0;
    for k := 0 to 6
      invariant sum + LeSum(h, 2 * k) == LeSum(h, 0)
    {
      assert sum + Le(h, 2 * k) <= INT_MAX;
      sum := sum + Le(h, 2 * k);
    }
  }

  /** The second loop, which skips `th_sum`, and the odd byte. */
  method AddSegment(packet: seq<Byte>, start: nat) returns (sum: nat)
    requires |packet| >= 20 && start + LeSum(ZeroSum(packet), 0) <= INT_MAX
    ensures sum == start + LeSum(ZeroSum(packet), 0)
  {
    ghost var zeroed := ZeroSum(packet);
    sum := start;
    for k := 0 to |packet| / 2
      invariant sum + LeSum(zeroed, 2 * k) == start + LeSum(zeroed, 0)
    {
      if k == TH_SUM / 2 {
        assert Le(zeroed, 2 * k) == 0;
      } else {
        assert Le(zeroed, 2 * k) == Le(packet, 2 * k);
        assert sum + Le(packet, 2 * k) <= INT_MAX;
        sum := sum + Le(packet, 2 * k);
      }
    }
    if |packet| % 2 == 1 {
      assert sum + packet[|packet| - 1] <= INT_MAX;
      sum := sum + packet[|packet| - 1];
    }
  }

  /** Two folds are enough for a sum that fits in 31 bits. */
  method TwoFolds(total: nat) returns (r: Word)
    requires total <= INT_MAX
    ensures r == 0xFFFF - Fold(total)
  {
    var sum := total;
    FoldStep(sum);
    sum := sum / 0x1_0000 + sum % 0x1_0000;
    FoldStep(sum);
    assert sum < 0x2_0000;
    sum := sum + sum / 0x1_0000;
    r := 0xFFFF - sum % 0x1_0000;
  }

  // ---- the two agree

  function EvenBytes(b: seq<Byte>, i: nat): nat
    decreases |b| - i
  {
    if i >= |b| then 0 else b[i] + EvenBytes(b, i + 2)
  }

  lemma {:induction false} ByteOrders(b: seq<Byte>, i: nat)
    ensures LeSum(b, i) + 0xFFFF * EvenBytes(b, i) == 256 * BeSum(b, i)
    ensures BeSum(b, i) <= 256 * LeSum(b, i)
    decreases |b| - i
  {
    if i < |b| {
      ByteOrders(b, i + 2);
    }
  }

  lemma SwapIs(x: Word)
    ensures Swap(x) + 0xFFFF * (x / 256) == 256 * x
    ensures Swap(0xFFFF - x) == 0xFFFF - Swap(x)
    ensures x > 0 ==> Swap(x) > 0
  {
    assert (0xFFFF - x) / 256 == 255 - x / 256 && (0xFFFF - x) % 256 == 255 - x % 256;
  }

  /** Adding words in either byte order gives the same folded sum, bytes exchanged. */
  lemma FoldEitherOrder(le: nat, be: nat, k: nat)
    requires le + 0xFFFF * k == 256 * be && be <= 256 * le
    ensures Fold(le) == Swap(Fold(be))
  {
    if be > 0 {
      var f: Word := Fold(be);
      assert be == f + 65535 * ((be - 1) / 65535);
      SwapIs(f);
      FoldUnique(le, Swap(f), f / 256 + 256 * ((be - 1) / 65535) - k);
    }
  }

  lemma {:induction false} SumsAppend(p: seq<Byte>, s: seq<Byte>, i: nat)
    requires |p| % 2 == 0 && i % 2 == 0 && i <= |p|
    ensures BeSum(p + s, i) == BeSum(p, i) + BeSum(s, 0)
    decreases |p| - i
  {
    if i == |p| {
      SumsShift(p, s, 0);
    } else {
      SumsAppend(p, s, i + 2);
    }
  }

  lemma {:induction false} SumsShift(p: seq<Byte>, s: seq<Byte>, i: nat)
    ensures BeSum(p + s, |p| + i) == BeSum(s, i)
    decreases |s| - i
  {
    if i + 1 < |s| {
      SumsShift(p, s, i + 2);
    }
  }

  /** On a little-endian host the STCP checksum of any segment of a 16-bit length whose sum does not overflow is
      `cksum` of the pseudo-header followed by the segment with its checksum field zeroed. */
  lemma ChecksumsAgree(src: Address, dst: Address, segment: seq<Byte>)
    requires 20 <= |segment| <= 65535 && FitsInInt(src, dst, segment)
    ensures TcpChecksumOf(src, dst, segment) == CksumOf(PseudoHeader(src, dst, |segment|) + ZeroSum(segment))
  {
    var h, z := PseudoHeader(src, dst, |segment|), ZeroSum(segment);
    SumsAppend(h, z, 0);
    ByteOrders(h, 0);
    ByteOrders(z, 0);
    BeSumBound(h + z, 0);
    var be := BeSum(h + z, 0);
    FoldEitherOrder(TcpTotal(src, dst, segment), be, EvenBytes(h, 0) + EvenBytes(z, 0));
    WrapsAway(be, 0, be);
    SwapIs(Fold(be));
  }

  // ---- setting and verifying

  /** The IPv4 addresses of a connection, as one side's context holds them. */
  datatype Ends = Ends(local: Address, peer: Address) {
    predicate Usable() { local != [0, 0, 0, 0] && peer != [0, 0, 0, 0] }

    /** The same connection from the other side. */
    function Opposite(): Ends { Ends(peer, local) }
  }

  function WithChecksum(ends: Ends, segment: seq<Byte>): seq<Byte>
    requires |segment| >= 20
  {
    Store(segment, TH_SUM, TcpChecksumOf(ends.local, ends.peer, segment))
  }

  /** The receiver's view: the sender's address is its peer's. */
  predicate Verifies(ends: Ends, segment: seq<Byte>)
    requires |segment| >= 20
  {
    Le(segment, TH_SUM) == TcpChecksumOf(ends.peer, ends.local, segment)
  }

  method SetChecksum(ends: Ends, packet: array<Byte>)
    requires ends.Usable() && packet.Length >= 20 && FitsInInt(ends.local, ends.peer, packet[..])
    modifies packet
    ensures packet[..] == WithChecksum(ends, old(packet[..]))
  {
    var sum := TcpChecksum(ends.local, ends.peer, packet[..]);
    packet[TH_SUM], packet[TH_SUM + 1] := sum % 256, sum / 256;
  }

  method VerifyChecksum(ends: Ends, packet: array<Byte>) returns (ok: bool)
    requires ends.Usable() && packet.Length >= 20 && FitsInInt(ends.peer, ends.local, packet[..])
    ensures ok == Verifies(ends, packet[..])
  {
    var mySum := TcpChecksum(ends.peer, ends.local, packet[..]);
    ok := mySum == Le(packet[..], TH_SUM);
  }

  /** What one side sets, the other side verifies. */
  lemma SetThenVerify(ends: Ends, segment: seq<Byte>)
    requires |segment| >= 20
    ensures Verifies(ends.Opposite(), WithChecksum(ends, segment))
  {
    assert ZeroSum(WithChecksum(ends, segment)) == ZeroSum(segment);
  }

  /** One of the two is all zeros and the other all ones, which count for the same. */
  predicate OtherZero(v: Word, w: Word) { (v == 0 && w == 0xFFFF) || (v == 0xFFFF && w == 0) }

  lemma FoldsEqual(x: nat, y: nat, d: int)
    requires x > 0 && y > 0 && y == x + d && -0xFFFF <= d <= 0xFFFF
    ensures Fold(x) == Fold(y) <==> d == 0 || d == 0xFFFF || d == -0xFFFF
  {
    if d == 0xFFFF || d == -0xFFFF {
      var f: int := Fold(x);
      var k := (x - 1) / 65535;
      assert x == f + 65535 * k;
      FoldUnique(y, f, if d == 0xFFFF then k + 1 else k - 1);
    } else {
      assert x == Fold(x) + 65535 * ((x - 1) / 65535);
      assert y == Fold(y) + 65535 * ((y - 1) / 65535);
    }
  }

  lemma TotalChange(src: Address, dst: Address, segment: seq<Byte>, p: nat, v: Word)
    requires |segment| >= 20 && p % 2 == 0 && p + 1 < |segment| && p != TH_SUM
    ensures TcpTotal(src, dst, Store(segment, p, v)) == TcpTotal(src, dst, segment) + v - Le(segment, p)
  {
    var z, z' := ZeroSum(segment), ZeroSum(Store(segment, p, v));
    assert z' == Store(z, p, v);
    SumsChange(z, z', p, 0);
  }

  /** A changed 16-bit word goes unnoticed exactly when it is one zero turned into the other, all zeros
      into all ones or back; a changed checksum field never does. */
  lemma OneWordChanged(ends: Ends, segment: seq<Byte>, p: nat, v: Word)
    requires |segment| >= 20 && p % 2 == 0 && p + 1 < |segment| && Verifies(ends, segment)
    ensures var w := Le(segment, p);
            Verifies(ends, Store(segment, p, v)) <==> v == w || (p != TH_SUM && OtherZero(v, w))
  {
    var w, segment' := Le(segment, p), Store(segment, p, v);
    if p == TH_SUM {
      assert ZeroSum(segment') == ZeroSum(segment);
    } else {
      TotalChange(ends.peer, ends.local, segment, p, v);
      PseudoSum(PseudoHeader(ends.peer, ends.local, |segment|));
      FoldsEqual(TcpTotal(ends.peer, ends.local, segment), TcpTotal(ends.peer, ends.local, segment'), v - w);
      assert Le(segment', TH_SUM) == Le(segment, TH_SUM);
    }
  }

  /** A changed last byte of a segment of odd length is always noticed. */
  lemma OddByteChanged(ends: Ends, segment: seq<Byte>, v: Byte)
    requires |segment| >= 20 && |segment| % 2 == 1 && Verifies(ends, segment)
    ensures Verifies(ends, segment[|segment| - 1 := v]) <==> v == segment[|segment| - 1]
  {
    var n := |segment| - 1;
    var z, z' := ZeroSum(segment), ZeroSum(segment[n := v]);
    assert z' == z[n := v];
    LastByte(z, v, 0);
    PseudoSum(PseudoHeader(ends.peer, ends.local, |segment|));
    var total' := TcpTotal(ends.peer, ends.local, segment[n := v]);
    FoldsEqual(TcpTotal(ends.peer, ends.local, segment), total', v - segment[n]);
  }

  lemma {:induction false} LastByte(b: seq<Byte>, v: Byte, i: nat)
    requires |b| % 2 == 1 && i % 2 == 0 && i < |b|
    ensures LeSum(b[|b| - 1 := v], i) == LeSum(b, i) + v - b[|b| - 1]
    decreases |b| - i
  {
    if i + 1 < |b| {
      LastByte(b, v, i + 2);
    }
  }

  // ---- what the pseudo-header covers

  /** The source's address, the destination's, a zero byte, the protocol number of TCP and the length, in network
      order. */
  lemma PseudoLayout(src: Address, dst: Address, len: nat)
    ensures var h := PseudoHeader(src, dst, len);
            h[..4] == src && h[4..8] == dst && h[8..] == [0, 6, len / 256 % 256, len % 256]
  {
  }

  lemma PseudoWords(src: Address, dst: Address, len: nat)
    ensures LeSum(PseudoHeader(src, dst, len), 0)
         == Le(src, 0) + Le(src, 2) + Le(dst, 0) + Le(dst, 2) + 0x600 + Swap(len % 0x1_0000)
  {
    var h := PseudoHeader(src, dst, len);
    LeSum12(h);
    LengthWord(len);
    assert Le(h, 8) == 0x600 && Le(h, 10) == len / 256 % 256 + Hi(len % 256);
  }

  lemma AddressChange(addr: Address, p: nat, v: Word)
    requires p == 0 || p == 2
    ensures |Store(addr, p, v)| == 4
    ensures Le(Store(addr, p, v), 0) + Le(Store(addr, p, v), 2) == Le(addr, 0) + Le(addr, 2) + v - Le(addr, p)
  {
  }

  /** A segment that verifies is refused between any other address and the same one: a changed word of the peer's
      address goes unnoticed exactly when it is one zero turned into the other. */
  lemma PeerWordChanged(ends: Ends, segment: seq<Byte>, p: nat, v: Word)
    requires |segment| >= 20 && (p == 0 || p == 2) && Verifies(ends, segment)
    ensures var w := Le(ends.peer, p);
            Verifies(Ends(ends.local, Store(ends.peer, p, v)), segment) <==> v == w || OtherZero(v, w)
  {
    var peer' := Store(ends.peer, p, v);
    AddressChange(ends.peer, p, v);
    PseudoWords(ends.peer, ends.local, |segment|);
    PseudoWords(peer', ends.local, |segment|);
    FoldsEqual(TcpTotal(ends.peer, ends.local, segment), TcpTotal(peer', ends.local, segment), v - Le(ends.peer, p));
  }

  /** So it is with the receiver's own address: a segment sent to another is refused. */
  lemma LocalWordChanged(ends: Ends, segment: seq<Byte>, p: nat, v: Word)
    requires |segment| >= 20 && (p == 0 || p == 2) && Verifies(ends, segment)
    ensures var w := Le(ends.local, p);
            Verifies(Ends(Store(ends.local, p, v), ends.peer), segment) <==> v == w || OtherZero(v, w)
  {
    var local' := Store(ends.local, p, v);
    AddressChange(ends.local, p, v);
    PseudoWords(ends.peer, ends.local, |segment|);
    PseudoWords(ends.peer, local', |segment|);
    FoldsEqual(TcpTotal(ends.peer, ends.local, segment), TcpTotal(ends.peer, local', segment), v - Le(ends.local, p));
  }

  function Nulls(n: nat): (b: seq<Byte>)
    ensures |b| == n
  {
    seq(n, _ => 0)
  }

  lemma {:induction false} NullsAddNothing(b: seq<Byte>, n: nat, i: nat)
    requires i <= |b| + n
    ensures LeSum(b + Nulls(n), i) == if i <= |b| then LeSum(b, i) else 0
    decreases |b| + n - i
  {
    if i + 1 < |b| + n {
      NullsAddNothing(b, n, i + 2);
    }
  }

  /** The length is covered: zero bytes appended to a segment add nothing to its words, but are noticed. */
  lemma AppendedNullsNoticed(ends: Ends, segment: seq<Byte>, n: nat)
    requires 20 <= |segment| && 0 < n && |segment| + n <= 0xFFFF && Verifies(ends, segment)
    ensures !Verifies(ends, segment + Nulls(n))
  {
    var longer := segment + Nulls(n);
    var d := Swap(|longer|) - Swap(|segment|);
    NullsTotal(ends.peer, ends.local, segment, n);
    SwapDiffers(|segment|, |longer|);
    TotalPositive(ends.peer, ends.local, segment);
    TotalPositive(ends.peer, ends.local, longer);
    FoldsEqual(TcpTotal(ends.peer, ends.local, segment), TcpTotal(ends.peer, ends.local, longer), d);
    assert Le(longer, TH_SUM) == Le(segment, TH_SUM);
  }

  lemma NullsTotal(src: Address, dst: Address, segment: seq<Byte>, n: nat)
    requires 20 <= |segment| && |segment| + n <= 0xFFFF
    ensures var longer := segment + Nulls(n);
            TcpTotal(src, dst, longer) == TcpTotal(src, dst, segment) + Swap(|longer|) - Swap(|segment|)
  {
    NullsInSegment(segment, n);
    PseudoOfShort(src, dst, |segment|);
    PseudoOfShort(src, dst, |segment| + n);
  }

  lemma NullsInSegment(segment: seq<Byte>, n: nat)
    requires 20 <= |segment|
    ensures LeSum(ZeroSum(segment + Nulls(n)), 0) == LeSum(ZeroSum(segment), 0)
  {
    assert ZeroSum(segment + Nulls(n)) == ZeroSum(segment) + Nulls(n);
    NullsAddNothing(ZeroSum(segment), n, 0);
  }

  lemma PseudoOfShort(src: Address, dst: Address, len: Word)
    ensures LeSum(PseudoHeader(src, dst, len), 0)
         == Le(src, 0) + Le(src, 2) + Le(dst, 0) + Le(dst, 2) + 0x600 + Swap(len)
  {
    PseudoWords(src, dst, len);
  }

  lemma TotalPositive(src: Address, dst: Address, segment: seq<Byte>)
    requires |segment| >= 20
    ensures TcpTotal(src, dst, segment) >= 0x600
  {
    PseudoWords(src, dst, |segment|);
  }

  lemma SwapDiffers(x: Word, y: Word)
    requires 0 < x < y
    ensures Swap(x) != Swap(y) && Swap(x) > 0 && Swap(y) > 0
  {
    SwapTwice(x);
    SwapTwice(y);
  }

  // ---- examples

  /** The example of RFC 1071, section 3. */
  lemma Rfc1071Example()
    ensures Swap(CksumOf([0x00, 0x01, 0xF2, 0x03, 0xF4, 0xF5, 0xF6, 0xF7])) == 0x220D
  {
    var data := [0x00, 0x01, 0xF2, 0x03, 0xF4, 0xF5, 0xF6, 0xF7];
    Words8(data);
    WrapsAway(0x2_DDF0, 0, 0x2_DDF0);
    FoldUnique(0x2_DDF0, 0xDDF2, 2);
    SwapTwice(0x220D);
  }

  lemma Words8(b: seq<Byte>)
    requires |b| == 8
    ensures BeSum(b, 0) == Be(b, 0) + Be(b, 2) + Be(b, 4) + Be(b, 6)
  {
    assert BeSum(b, 4) == Be(b, 4) + (Be(b, 6) + BeSum(b, 8));
    assert BeSum(b, 0) == Be(b, 0) + (Be(b, 2) + BeSum(b, 4));
  }

  const SEGMENT: seq<Byte> :=
    [0x1F, 0x90, 0x00, 0x50, 0, 0, 0, 1, 0, 0, 0, 2, 0x50, 0x10, 0x0C, 0x00, 0xAA, 0xBB, 0x00, 0x07]

  /** A bare ACK from port 8080 of 10.0.0.1 to port 80 of 10.0.0.2, whatever stands in its checksum field. */
  lemma AckExample()
    ensures TcpChecksumOf([10, 0, 0, 1], [10, 0, 0, 2], SEGMENT) == 0xE86F
  {
    var z := ZeroSum(SEGMENT);
    PseudoWords([10, 0, 0, 1], [10, 0, 0, 2], 20);
    Words20(z);
    assert LeSum(z, 0) == 0xFA7B;
    FoldUnique(0x1_178F, 0x1790, 1);
  }

  lemma Words20(b: seq<Byte>)
    requires |b| == 20
    ensures LeSum(b, 0)
         == Le(b, 0) + Le(b, 2) + Le(b, 4) + Le(b, 6) + Le(b, 8)
            + Le(b, 10) + Le(b, 12) + Le(b, 14) + Le(b, 16) + Le(b, 18)
  {
    assert LeSum(b, 16) == Le(b, 16) + (Le(b, 18) + LeSum(b, 20));
    assert LeSum(b, 12) == Le(b, 12) + (Le(b, 14) + LeSum(b, 16));
    assert LeSum(b, 8) == Le(b, 8) + (Le(b, 10) + LeSum(b, 12));
    assert LeSum(b, 4) == Le(b, 4) + (Le(b, 6) + LeSum(b, 8));
    assert LeSum(b, 0) == Le(b, 0) + (Le(b, 2) + LeSum(b, 4));
  }
}
