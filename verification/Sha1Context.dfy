/** Project-4/router/sha1.c itself: the context's arrays and counters, changed in place. */
module Sha1Context {
  import opened Sha1Spec
  import opened Sha1Stream

  class Context {
    /** Message_Digest[0] to Message_Digest[4]. */
    var messageDigest: Digest
    const messageBlock: array<Octet>
    var lengthLow: Count
    var lengthHigh: Count
    var messageBlockIndex: nat
    var computed: bool
    var corrupted: bool

    /** Inside a call the block may be full. */
    ghost predicate InBounds()
      reads this
    {
      messageBlock.Length == 64 && messageBlockIndex <= 64
    }

    /** Between calls there is room for a byte. */
    ghost predicate Valid()
      reads this
    {
      InBounds() && messageBlockIndex < 64
    }

    ghost function View(): Ctx
      reads this, messageBlock
      requires InBounds()
    {
      Ctx(messageDigest, lengthLow, lengthHigh, messageBlock[..messageBlockIndex], computed, corrupted)
    }

    constructor ()
      ensures Valid() && fresh(messageBlock)
      ensures View() == RESET
    {
      messageDigest := H0;
      messageBlock := new Octet[64](_ => 0);
      lengthLow, lengthHigh, messageBlockIndex, computed, corrupted := 0, 0, 0, false, false;
      new;
      Reset();
    }

    method Reset()
      requires InBounds()
      modifies this
      ensures Valid() && View() == RESET
    {
      lengthLow := 0;
      lengthHigh := 0;
      messageBlockIndex := 0;
      messageDigest := Digest(0x67452301, 0xEFCDAB89, 0x98BADCFE, 0x10325476, 0xC3D2E1F0);
      computed := false;
      corrupted := false;
    }

    /** Store one byte in the block. */
    method Put(b: Octet)
      requires Valid()
      modifies this`messageBlockIndex, messageBlock
      ensures InBounds() && messageBlockIndex == old(messageBlockIndex) + 1
      ensures View() == old(View()).(block := old(View()).block + [b])
    {
      messageBlock[messageBlockIndex] := b;
      messageBlockIndex := messageBlockIndex + 1;
    }

    method Input(messageArray: seq<Octet>)
      requires Valid()
      modifies this, messageBlock
      ensures Valid() && View() == Sha1Stream.Input(old(View()), messageArray)
    {
      if |messageArray| == 0 {
        return;
      }
      if computed || corrupted {
        corrupted := true;
        return;
      }
      var n := 0;
      assert messageArray[0..] == messageArray;
      while n < |messageArray| && !corrupted
        invariant 0 <= n <= |messageArray| && Valid()
        invariant FeedAll(View(), messageArray[n..]) == FeedAll(old(View()), messageArray)
        decreases |messageArray| - n
      {
        TakeByte(messageArray[n]);
        assert messageArray[n..][1..] == messageArray[n + 1..];
        n := n + 1;
      }
    }

    /** One turn of the loop of SHA1Input. */
    method TakeByte(b: Octet)
      requires Valid()
      modifies this, messageBlock
      ensures Valid()
      ensures View() == Feed(old(View()), b)
    {
      Put(b);
      lengthLow := Advance(lengthLow, 8);
      if lengthLow == 0 {
        lengthHigh := Advance(lengthHigh, 1);
        if lengthHigh == 0 {
          corrupted := true;
        }
      }
      if messageBlockIndex == 64 {
        ProcessMessageBlock();
      }
    }

    /** The words W[0] to W[15] from the bytes of the block, then W[16] to W[79] from earlier words. */
    method Schedule() returns (w: array<Word>)
      requires InBounds()
      ensures fresh(w) && ScheduleOf(w[..], messageBlock[..])
    {
      w := new Word[80](_ => 0);
      for t := 0 to 16
        invariant forall s :: 0 <= s < t ==> w[s] == W(messageBlock[..], s)
      {
        w[t] := ToWord(messageBlock[t * 4], messageBlock[t * 4 + 1], messageBlock[t * 4 + 2], messageBlock[t * 4 + 3]);
      }
      ExtendSchedule(w, messageBlock[..]);
    }

    method ProcessMessageBlock()
      requires InBounds() && messageBlockIndex == 64
      modifies this`messageBlockIndex, this`messageDigest
      ensures Valid() && messageBlockIndex == 0
      ensures View() == old(View()).(digest := Compress(old(View()).digest, old(View()).block), block := [])
    {
      assert messageBlock[..64] == messageBlock[..];
      var w := Schedule();
      var r := Scramble(w[..], messageDigest, messageBlock[..]);
      var h := messageDigest;
      messageDigest := Digest(Plus(h.a, r.a), Plus(h.b, r.b), Plus(h.c, r.c), Plus(h.d, r.d), Plus(h.e, r.e));
      messageBlockIndex := 0;
    }

    /** Fill the block with zeros up to `limit`. */
    method FillZeros(limit: nat)
      requires InBounds() && messageBlockIndex <= limit <= 64
      modifies this`messageBlockIndex, messageBlock
      ensures InBounds() && messageBlockIndex == limit
      ensures View() == old(View()).(block := old(View()).block + Zeros(limit - old(messageBlockIndex)))
    {
      ghost var start, before := messageBlockIndex, View().block;
      while messageBlockIndex < limit
        invariant start <= messageBlockIndex <= limit && InBounds()
        invariant View() == old(View()).(block := before + Zeros(messageBlockIndex - start))
      {
        Put(0);
        assert Zeros(messageBlockIndex - start) == Zeros(messageBlockIndex - 1 - start) + [0];
      }
    }

    method PadMessage()
      requires Valid()
      modifies this`messageBlockIndex, this`messageDigest, messageBlock
      ensures Valid() && View() == Pad(old(View()))
    {
      if messageBlockIndex > 55 {
        FirstOfTwo();
      } else {
        Put(0x80);
        FillZeros(56);
      }
      FinishBlock();
    }

    /** Store the message length as the last eight bytes and process the block. */
    method FinishBlock()
      requires InBounds() && messageBlockIndex == 56
      modifies this`messageBlockIndex, this`messageDigest, messageBlock
      ensures Valid()
      ensures var c := old(View());
              View() == c.(digest := Compress(c.digest, c.block + LengthBytes(c.lengthHigh, c.lengthLow)), block := [])
    {
      ghost var block := View().block;
      PutWord(lengthHigh);
      PutWord(lengthLow);
      assert View().block == block + LengthBytes(lengthHigh, lengthLow);
      ProcessMessageBlock();
    }

    /** Fill the block up, process it, and start another with zeros. */
    method FirstOfTwo()
      requires InBounds() && 55 < messageBlockIndex < 64
      modifies this`messageBlockIndex, this`messageDigest, messageBlock
      ensures InBounds() && messageBlockIndex == 56
      ensures var c := old(View());
              View() == c.(digest := Compress(c.digest, c.block + [0x80] + Zeros(63 - |c.block|)), block := Zeros(56))
    {
      Put(0x80);
      FillZeros(64);
      ProcessMessageBlock();
      FillZeros(56);
      assert View().block == Zeros(56);
    }

    /** Four bytes of the message length, the most significant first. */
    method PutWord(x: Count)
      requires InBounds() && messageBlockIndex <= 60
      modifies this`messageBlockIndex, messageBlock
      ensures InBounds() && messageBlockIndex == old(messageBlockIndex) + 4
      ensures View() == old(View()).(block := old(View()).block + WordBytes(x))
    {
      Put((x / 0x100_0000) as bv8);
      Put((x / 0x1_0000 % 256) as bv8);
      Put((x / 0x100 % 256) as bv8);
      Put((x % 256) as bv8);
    }

    method Result() returns (ok: bool)
      requires Valid()
      modifies this, messageBlock
      ensures Valid()
      ensures View() == ResultOf(old(View())).0 && ok == ResultOf(old(View())).1
    {
      if corrupted {
        return false;
      }
      if !computed {
        PadMessage();
        computed := true;
      }
      return true;
    }
  }

  ghost predicate ScheduleOf(w: seq<Word>, block: seq<Octet>) {
    |block| == 64 && |w| == 80 && forall s :: 0 <= s < 80 ==> w[s] == W(block, s)
  }

  method ExtendSchedule(w: array<Word>, ghost block: seq<Octet>)
    requires |block| == 64 && w.Length == 80 && forall s :: 0 <= s < 16 ==> w[s] == W(block, s)
    modifies w
    ensures ScheduleOf(w[..], block)
  {
    for t := 16 to 80
      invariant forall s :: 0 <= s < t ==> w[s] == W(block, s)
    {
      w[t] := CircularShift(1, Mixed(w[t - 3], w[t - 8], w[t - 14], w[t - 16]));
    }
  }

  // The logical function of each loop.

  function Choose(t: nat, b: Word, c: Word, d: Word): (r: Word)
    requires 0 <= t < 20
    ensures r == F(t, b, c, d)
  {
    (b & c) | (!b & d)
  }

  function Parity(t: nat, b: Word, c: Word, d: Word): (r: Word)
    requires 20 <= t < 40
    ensures r == F(t, b, c, d)
  {
    b ^ c ^ d
  }

  function Majority(t: nat, b: Word, c: Word, d: Word): (r: Word)
    requires 40 <= t < 60
    ensures r == F(t, b, c, d)
  {
    (b & c) | (b & d) | (c & d)
  }

  function LastParity(t: nat, b: Word, c: Word, d: Word): (r: Word)
    requires 60 <= t < 80
    ensures r == F(t, b, c, d)
  {
    b ^ c ^ d
  }

  // The four loops of 20 rounds.

  method ChooseRounds(w: seq<Word>, r0: Digest, ghost h: Digest, ghost block: seq<Octet>) returns (r: Digest)
    requires ScheduleOf(w, block) && r0 == Rounds(h, block, 0)
    ensures r == Rounds(h, block, 20)
  {
    r := r0;
    for t := 0 to 20
      invariant r == Rounds(h, block, t)
    {
      var temp := Sum(CircularShift(5, r.a), Choose(t, r.b, r.c, r.d), r.e, w[t], 0x5A827999);
      r := Digest(temp, r.a, CircularShift(30, r.b), r.c, r.d);
    }
  }

  method ParityRounds(w: seq<Word>, r0: Digest, ghost h: Digest, ghost block: seq<Octet>) returns (r: Digest)
    requires ScheduleOf(w, block) && r0 == Rounds(h, block, 20)
    ensures r == Rounds(h, block, 40)
  {
    r := r0;
    for t := 20 to 40
      invariant r == Rounds(h, block, t)
    {
      var temp := Sum(CircularShift(5, r.a), Parity(t, r.b, r.c, r.d), r.e, w[t], 0x6ED9EBA1);
      r := Digest(temp, r.a, CircularShift(30, r.b), r.c, r.d);
    }
  }

  method MajorityRounds(w: seq<Word>, r0: Digest, ghost h: Digest, ghost block: seq<Octet>) returns (r: Digest)
    requires ScheduleOf(w, block) && r0 == Rounds(h, block, 40)
    ensures r == Rounds(h, block, 60)
  {
    r := r0;
    for t := 40 to 60
      invariant r == Rounds(h, block, t)
    {
      var temp := Sum(CircularShift(5, r.a), Majority(t, r.b, r.c, r.d), r.e, w[t], 0x8F1BBCDC);
      r := Digest(temp, r.a, CircularShift(30, r.b), r.c, r.d);
    }
  }

  method LastParityRounds(w: seq<Word>, r0: Digest, ghost h: Digest, ghost block: seq<Octet>) returns (r: Digest)
    requires ScheduleOf(w, block) && r0 == Rounds(h, block, 60)
    ensures r == Rounds(h, block, 80)
  {
    r := r0;
    for t := 60 to 80
      invariant r == Rounds(h, block, t)
    {
      var temp := Sum(CircularShift(5, r.a), LastParity(t, r.b, r.c, r.d), r.e, w[t], 0xCA62C1D6);
      r := Digest(temp, r.a, CircularShift(30, r.b), r.c, r.d);
    }
  }

  method Scramble(w: seq<Word>, h: Digest, ghost block: seq<Octet>) returns (r: Digest)
    requires ScheduleOf(w, block)
    ensures r == Rounds(h, block, 80)
  {
    r := ChooseRounds(w, h, h, block);
    r := ParityRounds(w, r, h, block);
    r := MajorityRounds(w, r, h, block);
    r := LastParityRounds(w, r, h, block);
  }

  /** The SHA1CircularShift macro, with its mask to 32 bits. */
  function CircularShift(bits: bv32, word: Word): (r: Word)
    requires 0 < bits < 32
    ensures r == Rotl(bits, word)
  {
    ((word << bits) & 0xFFFF_FFFF) | (word >> (32 - bits))
  }
}
