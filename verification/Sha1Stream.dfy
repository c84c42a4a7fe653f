/** The context of Project-4/router/sha1.c as a value, what each call does to it, and why it computes SHA-1. */
module Sha1Stream {
  import opened Streams
  import opened Sha1Spec

  const LIMIT := 0x1_0000_0000_0000_0000

  /** `block` is the part of Message_Block in use, so its length is Message_Block_Index. */
  datatype Ctx = Ctx(digest: Digest, lengthLow: Count, lengthHigh: Count,
    block: seq<Octet>, computed: bool, corrupted: bool)

  const RESET := Ctx(H0, 0, 0, [], false, false)

  /** Processing the block when it is full. */
  function Flush(c: Ctx): Ctx {
    if |c.block| == 64 then c.(digest := Compress(c.digest, c.block), block := []) else c
  }

  /** The mask to 32 bits. */
  function Advance(x: Count, k: Count): Count {
    if x + k < 0x1_0000_0000 then x + k else x + k - 0x1_0000_0000
  }

  /** One turn of the loop in SHA1Input: a 64-bit count of bits in two 32-bit words. */
  function Feed(c: Ctx, b: Octet): Ctx {
    var low := Advance(c.lengthLow, 8);
    var high := if low == 0 then Advance(c.lengthHigh, 1) else c.lengthHigh;
    Flush(c.(block := c.block + [b], lengthLow := low, lengthHigh := high,
             corrupted := c.corrupted || (low == 0 && high == 0)))
  }

  /** The loop, which stops once the context is corrupted. */
  function FeedAll(c: Ctx, msg: seq<Octet>): Ctx
    decreases |msg|
  {
    if msg == [] || c.corrupted then c else FeedAll(Feed(c, msg[0]), msg[1..])
  }

  function Input(c: Ctx, msg: seq<Octet>): Ctx {
    if msg == [] then c
    else if c.computed || c.corrupted then c.(corrupted := true)
    else FeedAll(c, msg)
  }

  /** SHA1PadMessage: one block or, when the length no longer fits, two. */
  function PadWith(c: Ctx, length: seq<Octet>): Ctx
    requires |c.block| < 64 && |length| == 8
  {
    if |c.block| > 55 then
      var first := c.block + [0x80] + Zeros(63 - |c.block|);
      c.(digest := Compress(Compress(c.digest, first), Zeros(56) + length), block := [])
    else
      c.(digest := Compress(c.digest, c.block + [0x80] + Zeros(55 - |c.block|) + length), block := [])
  }

  function Pad(c: Ctx): Ctx
    requires |c.block| < 64
  {
    PadWith(c, LengthBytes(c.lengthHigh, c.lengthLow))
  }

  /** SHA1Result; the flag is its return value. */
  function ResultOf(c: Ctx): (Ctx, bool)
    requires !c.corrupted && !c.computed ==> |c.block| < 64
  {
    if c.corrupted then (c, false)
    else if c.computed then (c, true)
    else (Pad(c).(computed := true), true)
  }

  // ---- what a context stands for

  function Whole(m: seq<Octet>): nat { |m| - |m| % 64 }

  /** The context after the bytes of `m`: whole blocks hashed, the rest buffered, the bits counted. */
  ghost predicate Holds(c: Ctx, m: seq<Octet>) {
    && !c.computed && !c.corrupted
    && c.lengthHigh * 0x1_0000_0000 + c.lengthLow == 8 * |m|
    && c.block == m[Whole(m)..]
    && c.digest == HashBlocks(m[..Whole(m)])
  }

  /** Appending a byte to the message either extends the buffer or completes a block. */
  lemma AppendByte(m: seq<Octet>, b: Octet)
    ensures var m' := m + [b];
            if |m| % 64 == 63 then
              m'[Whole(m')..] == [] && m'[..Whole(m')] == m' && m' == m[..Whole(m)] + (m[Whole(m)..] + [b])
            else
              m'[Whole(m')..] == m[Whole(m)..] + [b] && m'[..Whole(m')] == m[..Whole(m)]
  {
    var m' := m + [b];
    if |m| % 64 == 63 {
      assert |m'| % 64 == 0;
    } else {
      assert |m'| % 64 == |m| % 64 + 1;
    }
  }

  lemma FeedHolds(c: Ctx, m: seq<Octet>, b: Octet)
    requires Holds(c, m)
    ensures if 8 * (|m| + 1) < LIMIT then Holds(Feed(c, b), m + [b]) else Feed(c, b).corrupted
  {
    AppendByte(m, b);
  }

  lemma {:induction false} FeedAllHolds(c: Ctx, m: seq<Octet>, s: seq<Octet>)
    requires Holds(c, m)
    ensures if 8 * |m + s| < LIMIT then Holds(FeedAll(c, s), m + s) else FeedAll(c, s).corrupted
    decreases |s|
  {
    if s == [] {
      assert m + s == m;
    } else {
      FeedHolds(c, m, s[0]);
      if 8 * (|m| + 1) < LIMIT {
        FeedAllHolds(Feed(c, s[0]), m + [s[0]], s[1..]);
        assert m + [s[0]] + s[1..] == m + s;
      }
    }
  }

  // ---- padding

  lemma PaddedShort(w: seq<Octet>, block: seq<Octet>, k: nat, length: seq<Octet>)
    requires |w| == 64 * k && |block| <= 55 && |length| == 8
    ensures PaddedWith(w + block, length) == w + (block + [0x80] + Zeros(55 - |block|) + length)
  {
  }

  lemma PaddedLong(w: seq<Octet>, block: seq<Octet>, k: nat, length: seq<Octet>)
    requires |w| == 64 * k && 55 < |block| < 64 && |length| == 8
    ensures PaddedWith(w + block, length) == w + (block + [0x80] + Zeros(63 - |block|)) + (Zeros(56) + length)
  {
    assert (55 - |w + block|) % 64 == 119 - |block|;
    assert Zeros(119 - |block|) == Zeros(63 - |block|) + Zeros(56);
  }

  lemma OneBlock(w: seq<Octet>, h: Digest, block: seq<Octet>, p: seq<Octet>, d: Digest)
    requires |w| % 64 == 0 && |block| == 64 && h == HashBlocks(w)
    requires p == w + block && d == Compress(h, block)
    ensures |p| % 64 == 0 && d == HashBlocks(p)
  {
    assert p[..|p| - 64] == w && p[|p| - 64..] == block;
  }

  lemma TwoBlocks(w: seq<Octet>, h: Digest, first: seq<Octet>, second: seq<Octet>, p: seq<Octet>, d: Digest)
    requires |w| % 64 == 0 && |first| == 64 && |second| == 64 && h == HashBlocks(w)
    requires p == w + first + second && d == Compress(Compress(h, first), second)
    ensures |p| % 64 == 0 && d == HashBlocks(p)
  {
    var h' := Compress(h, first);
    OneBlock(w, h, first, w + first, h');
    OneBlock(w + first, h', second, p, d);
  }

  lemma ShortDigest(c: Ctx, length: seq<Octet>, last: seq<Octet>)
    requires |c.block| <= 55 && |length| == 8
    requires last == c.block + [0x80] + Zeros(55 - |c.block|) + length
    ensures |last| == 64 && PadWith(c, length).digest == Compress(c.digest, last)
  {
  }

  lemma LongDigest(c: Ctx, length: seq<Octet>, first: seq<Octet>, second: seq<Octet>)
    requires 55 < |c.block| < 64 && |length| == 8
    requires first == c.block + [0x80] + Zeros(63 - |c.block|) && second == Zeros(56) + length
    ensures |first| == 64 && |second| == 64
    ensures PadWith(c, length).digest == Compress(Compress(c.digest, first), second)
  {
  }

  lemma ShortIsPadded(c: Ctx, w: seq<Octet>, k: nat, length: seq<Octet>)
    requires |w| == 64 * k && |c.block| <= 55 && |length| == 8 && c.digest == HashBlocks(w)
    ensures PadWith(c, length).digest == HashBlocks(PaddedWith(w + c.block, length))
  {
    var last := c.block + [0x80] + Zeros(55 - |c.block|) + length;
    PaddedShort(w, c.block, k, length);
    ShortDigest(c, length, last);
    OneBlock(w, c.digest, last, PaddedWith(w + c.block, length), PadWith(c, length).digest);
  }

  lemma LongIsPadded(c: Ctx, w: seq<Octet>, k: nat, length: seq<Octet>)
    requires |w| == 64 * k && 55 < |c.block| < 64 && |length| == 8 && c.digest == HashBlocks(w)
    ensures PadWith(c, length).digest == HashBlocks(PaddedWith(w + c.block, length))
  {
    var first, second := c.block + [0x80] + Zeros(63 - |c.block|), Zeros(56) + length;
    PaddedLong(w, c.block, k, length);
    LongDigest(c, length, first, second);
    TwoBlocks(w, c.digest, first, second, PaddedWith(w + c.block, length), PadWith(c, length).digest);
  }

  /** Either way of padding hashes exactly the blocks of the padded message. */
  lemma PadEither(c: Ctx, w: seq<Octet>, k: nat, length: seq<Octet>)
    requires |w| == 64 * k && |c.block| < 64 && |length| == 8 && c.digest == HashBlocks(w)
    ensures PadWith(c, length).digest == HashBlocks(PaddedWith(w + c.block, length))
  {
    if |c.block| > 55 {
      LongIsPadded(c, w, k, length);
    } else {
      ShortIsPadded(c, w, k, length);
    }
  }

  lemma LengthWords(high: Count, low: Count, bits: nat)
    requires high * 0x1_0000_0000 + low == bits
    ensures bits / 0x1_0000_0000 == high && bits % 0x1_0000_0000 == low
  {
  }

  lemma BlockOf(c: Ctx, m: seq<Octet>)
    requires Holds(c, m)
    ensures var w := m[..Whole(m)]; |c.block| < 64 && |w| == 64 * (|m| / 64) && w + c.block == m
  {
  }

  lemma PadHashes(c: Ctx, m: seq<Octet>)
    requires Holds(c, m) && 8 * |m| < LIMIT
    ensures |c.block| < 64
    ensures Pad(c).digest == Sha1(m)
  {
    LengthWords(c.lengthHigh, c.lengthLow, 8 * |m|);
    BlockOf(c, m);
    PadEither(c, m[..Whole(m)], |m| / 64, LengthBytes(c.lengthHigh, c.lengthLow));
  }

  // ---- the message in pieces

  /** SHA1Input called once for each chunk, in order, on a fresh context. */
  function InputAll(chunks: seq<seq<Octet>>): Ctx {
    if chunks == [] then RESET else Input(InputAll(chunks[..|chunks| - 1]), chunks[|chunks| - 1])
  }

  lemma {:induction false} InputAllHolds(chunks: seq<seq<Octet>>)
    ensures if 8 * |Flatten(chunks)| < LIMIT then Holds(InputAll(chunks), Flatten(chunks))
            else InputAll(chunks).corrupted
    decreases |chunks|
  {
    if chunks == [] {
    } else {
      var front, last := chunks[..|chunks| - 1], chunks[|chunks| - 1];
      InputAllHolds(front);
      FlattenLast(chunks);
      if 8 * |Flatten(front)| < LIMIT {
        FeedAllHolds(InputAll(front), Flatten(front), last);
        assert last == [] ==> Flatten(front) + last == Flatten(front);
      }
    }
  }

  /** However a message is split into calls of SHA1Input, SHA1Result succeeds exactly when the message
      is shorter than 2^64 bits, and then leaves its SHA-1 digest. */
  lemma StreamedDigest(chunks: seq<seq<Octet>>)
    ensures var m, c := Flatten(chunks), InputAll(chunks);
            && c.corrupted == (8 * |m| >= LIMIT)
            && (8 * |m| < LIMIT ==>
                  && |c.block| < 64
                  && ResultOf(c).1 && ResultOf(c).0.digest == Sha1(m))
            && (8 * |m| >= LIMIT ==> !ResultOf(c).1)
  {
    InputAllHolds(chunks);
    if 8 * |Flatten(chunks)| < LIMIT {
      PadHashes(InputAll(chunks), Flatten(chunks));
    }
  }

  /** After SHA1Result the digest is final: asking again changes nothing, and more input spoils the context for good. */
  lemma ResultIsFinal(c: Ctx, more: seq<Octet>)
    requires !c.corrupted && (!c.computed ==> |c.block| < 64)
    ensures var c' := ResultOf(c).0;
            && ResultOf(c') == (c', true)
            && (ResultOf(Input(c', more)).1 <==> more == [])
  {
  }
}
