/** Project-4/ltprotocol/ltprotocol/ltprotocol.py: messages framed by a length that counts its own header. */
module LtFraming {
  import opened Wrappers
  import opened Streams

  /** The sizes of the two header fields, by their struct codes B, H, I or L, and Q. */
  type FieldSize = n: nat | n == 1 || n == 2 || n == 4 || n == 8 witness 1

  datatype Format = Format(lenSize: FieldSize, typeSize: FieldSize) {
    function Header(): nat { lenSize + typeSize }
  }

  /** A message as its type number and packed body. */
  datatype Frame = Frame(kind: nat, body: seq<Byte>)

  function Power(n: nat): nat { if n == 0 then 1 else 256 * Power(n - 1) }

  /** An unsigned big-endian number in `n` bytes. */
  function Encode(n: nat, x: nat): (r: seq<Byte>)
    requires x < Power(n)
    ensures |r| == n
  {
    if n == 0 then [] else Encode(n - 1, x / 256) + [x % 256]
  }

  function Decode(s: seq<Byte>): nat {
    if s == [] then 0 else 256 * Decode(s[..|s| - 1]) + s[|s| - 1]
  }

  lemma {:induction false} DecodeEncode(n: nat, x: nat)
    requires x < Power(n)
    ensures Decode(Encode(n, x)) == x
  {
    if n > 0 {
      var front: seq<Byte> := Encode(n - 1, x / 256);
      var last: Byte := x % 256;
      DecodeEncode(n - 1, x / 256);
      assert (front + [last])[..n - 1] == front;
    }
  }

  /** `pack_with_header`; `struct.pack` raises an error for a number too large for its field. */
  function PackWithHeader(fmt: Format, f: Frame): Result<seq<Byte>, string> {
    var size := fmt.Header() + |f.body|;
    if size >= Power(fmt.lenSize) || f.kind >= Power(fmt.typeSize) then Err("struct.error")
    else Ok(Encode(fmt.lenSize, size) + Encode(fmt.typeSize, f.kind) + f.body)
  }

  /** The numbers each struct code can hold. */
  lemma FieldLimits()
    ensures Power(1) == 0x100 && Power(2) == 0x1_0000 && Power(4) == 0x1_0000_0000
    ensures Power(8) == 0x1_0000_0000_0000_0000
  {
    assert Power(3) == 256 * Power(2);
    assert Power(5) == 256 * Power(4) && Power(6) == 256 * Power(5) && Power(7) == 256 * Power(6);
  }

  /** A big-endian number told from its first byte, the most significant. */
  function Weighted(s: seq<Byte>): nat {
    if s == [] then 0 else s[0] * Power(|s| - 1) + Weighted(s[1..])
  }

  lemma {:induction false} WeightedSnoc(s: seq<Byte>, last: Byte)
    ensures Weighted(s + [last]) == 256 * Weighted(s) + last
    decreases |s|
  {
    if s == [] {
      assert (s + [last])[1..] == [];
    } else {
      assert (s + [last])[1..] == s[1..] + [last];
      WeightedSnoc(s[1..], last);
      assert s[0] * Power(|s|) == 256 * (s[0] * Power(|s| - 1));
    }
  }

  /** Every byte of a field counts 256 times the one after it. */
  lemma {:induction false} DecodeIsWeighted(s: seq<Byte>)
    ensures Decode(s) == Weighted(s)
    decreases |s|
  {
    if s != [] {
      DecodeIsWeighted(s[..|s| - 1]);
      WeightedSnoc(s[..|s| - 1], s[|s| - 1]);
      assert s == s[..|s| - 1] + [s[|s| - 1]];
    }
  }

  /** A message of type 7 with three bytes under the default format: its length counts the header. */
  lemma FrameExample()
    ensures PackWithHeader(Format(2, 1), Frame(7, [1, 2, 3])) == Ok([0, 6, 7, 1, 2, 3])
  {
    var fmt, f := Format(2, 1), Frame(7, [1, 2, 3]);
    FieldLimits();
    SmallFields();
    assert fmt.Header() + |f.body| == 6;
    assert [0, 6] + [7] + [1, 2, 3] == [0, 6, 7, 1, 2, 3];
  }

  lemma SmallFields()
    ensures 6 < Power(2) && 7 < Power(1) && Encode(2, 6) == [0, 6] && Encode(1, 7) == [7]
  {
    FieldLimits();
    assert Encode(0, 0) == [];
    assert Encode(1, 7) == Encode(0, 0) + [7];
    assert Encode(1, 0) == Encode(0, 0) + [0];
    assert Encode(2, 6) == Encode(1, 0) + [6];
  }

  /** What a stretch of the stream holds: whole frames, then the bytes left, or an exception after
      the last frame because a length is smaller than the header it belongs to. */
  datatype Parsed = Parsed(frames: seq<Frame>, rest: seq<Byte>, failed: bool)

  function Parse(fmt: Format, s: seq<Byte>): Parsed
    decreases |s|
  {
    if |s| < fmt.lenSize then Parsed([], s, false)
    else
      var n := Decode(s[..fmt.lenSize]);
      if |s| < n then Parsed([], s, false)
      else if n < fmt.Header() then Parsed([], s[n..], true)
      else
        var p := Parse(fmt, s[n..]);
        p.(frames := [FrameOf(fmt, s[..n])] + p.frames)
  }

  function FrameOf(fmt: Format, buf: seq<Byte>): Frame
    requires |buf| >= fmt.Header()
  {
    Frame(Decode(buf[fmt.lenSize..fmt.Header()]), buf[fmt.Header()..])
  }

  // ---- the receiver

  /** A connection's state between calls of `dataReceived`; nothing more arrives once a call has failed. */
  datatype Receiver = Receiver(packet: seq<Byte>, delivered: seq<Frame>, failed: bool)

  function Receive(fmt: Format, r: Receiver, data: seq<Byte>): Receiver {
    if r.failed then r
    else
      var p := Parse(fmt, r.packet + data);
      Receiver(p.rest, r.delivered + p.frames, p.failed)
  }

  function ReceiveAll(fmt: Format, chunks: seq<seq<Byte>>): Receiver {
    if chunks == [] then Receiver([], [], false)
    else Receive(fmt, ReceiveAll(fmt, chunks[..|chunks| - 1]), chunks[|chunks| - 1])
  }

  // ---- chunks do not matter

  /** A whole frame at the front of the stream is taken off first. */
  lemma ParseHead(fmt: Format, buf: seq<Byte>, rest: seq<Byte>)
    requires |buf| >= fmt.Header() && Decode(buf[..fmt.lenSize]) == |buf|
    ensures var p := Parse(fmt, rest);
            Parse(fmt, buf + rest) == p.(frames := [FrameOf(fmt, buf)] + p.frames)
  {
    var s := buf + rest;
    assert s[..fmt.lenSize] == buf[..fmt.lenSize];
    assert s[..|buf|] == buf && s[|buf|..] == rest;
  }

  lemma FrontSplit(s: seq<Byte>, t: seq<Byte>, n: nat, k: nat)
    requires k <= n <= |s|
    ensures s[..n] + s[n..] == s && s[..n] + (s[n..] + t) == s + t && s[..n][..k] == s[..k]
  {
  }

  lemma ShortHead(fmt: Format, s: seq<Byte>, t: seq<Byte>)
    requires |s| >= fmt.lenSize && Decode(s[..fmt.lenSize]) <= |s| && Decode(s[..fmt.lenSize]) < fmt.Header()
    ensures Parse(fmt, s).failed && Parse(fmt, s + t).failed && Parse(fmt, s).frames == Parse(fmt, s + t).frames
  {
    assert (s + t)[..fmt.lenSize] == s[..fmt.lenSize];
  }

  /** More bytes do not change what was already there: the frames come first, and parsing goes on from the rest. */
  lemma {:induction false} ParseMore(fmt: Format, s: seq<Byte>, t: seq<Byte>)
    ensures var p := Parse(fmt, s);
            if p.failed then Parse(fmt, s + t).frames == p.frames && Parse(fmt, s + t).failed
            else
              var q := Parse(fmt, p.rest + t);
              Parse(fmt, s + t) == q.(frames := p.frames + q.frames)
    decreases |s|
  {
    if |s| < fmt.lenSize || |s| < Decode(s[..fmt.lenSize]) {
      assert [] + Parse(fmt, s + t).frames == Parse(fmt, s + t).frames;
    } else if Decode(s[..fmt.lenSize]) < fmt.Header() {
      ShortHead(fmt, s, t);
    } else {
      var n := Decode(s[..fmt.lenSize]);
      ParseMore(fmt, s[n..], t);
      FrontSplit(s, t, n, fmt.lenSize);
      ParseHead(fmt, s[..n], s[n..]);
      ParseHead(fmt, s[..n], s[n..] + t);
      FramesShift(FrameOf(fmt, s[..n]), Parse(fmt, s[n..]).frames, Parse(fmt, Parse(fmt, s[n..]).rest + t).frames);
    }
  }

  lemma FramesShift(f: Frame, p: seq<Frame>, q: seq<Frame>)
    ensures [f] + (p + q) == [f] + p + q
  {
  }

  /** However a stream is cut into chunks, the receiver delivers exactly the frames the whole stream holds,
      fails exactly when the stream does, and otherwise keeps exactly the bytes left over. */
  lemma {:induction false} ChunksDoNotMatter(fmt: Format, chunks: seq<seq<Byte>>)
    ensures var r, p := ReceiveAll(fmt, chunks), Parse(fmt, Flatten(chunks));
            r.delivered == p.frames && r.failed == p.failed && (!p.failed ==> r.packet == p.rest)
    decreases |chunks|
  {
    if chunks != [] {
      var front, last := chunks[..|chunks| - 1], chunks[|chunks| - 1];
      ChunksDoNotMatter(fmt, front);
      ParseMore(fmt, Flatten(front), last);
      FlattenLast(chunks);
    }
  }

  // ---- there and back

  function PackAll(fmt: Format, frames: seq<Frame>): seq<Byte>
    requires forall f :: f in frames ==> PackWithHeader(fmt, f).Ok?
  {
    if frames == [] then [] else PackWithHeader(fmt, frames[0]).value + PackAll(fmt, frames[1..])
  }

  lemma ThreeParts(len: seq<Byte>, kind: seq<Byte>, body: seq<Byte>)
    ensures var buf := len + kind + body;
            && buf[..|len|] == len && buf[|len|..|len| + |kind|] == kind && buf[|len| + |kind|..] == body
  {
  }

  lemma PackedIsFrame(fmt: Format, f: Frame)
    requires PackWithHeader(fmt, f).Ok?
    ensures var buf := PackWithHeader(fmt, f).value;
            |buf| >= fmt.Header() && Decode(buf[..fmt.lenSize]) == |buf| && FrameOf(fmt, buf) == f
  {
    DecodeEncode(fmt.lenSize, fmt.Header() + |f.body|);
    DecodeEncode(fmt.typeSize, f.kind);
    ThreeParts(Encode(fmt.lenSize, fmt.Header() + |f.body|), Encode(fmt.typeSize, f.kind), f.body);
  }

  lemma ParsePacked(fmt: Format, f: Frame, rest: seq<Byte>)
    requires PackWithHeader(fmt, f).Ok?
    ensures var p := Parse(fmt, rest);
            Parse(fmt, PackWithHeader(fmt, f).value + rest) == p.(frames := [f] + p.frames)
  {
    PackedIsFrame(fmt, f);
    ParseHead(fmt, PackWithHeader(fmt, f).value, rest);
  }

  lemma {:induction false} ParseAllPacked(fmt: Format, frames: seq<Frame>)
    requires forall f :: f in frames ==> PackWithHeader(fmt, f).Ok?
    ensures Parse(fmt, PackAll(fmt, frames)) == Parsed(frames, [], false)
    decreases |frames|
  {
    if frames != [] {
      ParseAllPacked(fmt, frames[1..]);
      ParsePacked(fmt, frames[0], PackAll(fmt, frames[1..]));
    }
  }

  /** What one side sends, in any chunks, the other delivers: exactly those messages, in order, nothing left over. */
  lemma SentIsDelivered(fmt: Format, frames: seq<Frame>, chunks: seq<seq<Byte>>)
    requires forall f :: f in frames ==> PackWithHeader(fmt, f).Ok?
    requires Flatten(chunks) == PackAll(fmt, frames)
    ensures ReceiveAll(fmt, chunks) == Receiver([], frames, false)
  {
    ChunksDoNotMatter(fmt, chunks);
    ParseAllPacked(fmt, frames);
  }

  /** And while the messages are still arriving, what has been delivered is a prefix of them. */
  lemma DeliveredIsPrefix(fmt: Format, frames: seq<Frame>, chunks: seq<seq<Byte>>, later: seq<Byte>)
    requires forall f :: f in frames ==> PackWithHeader(fmt, f).Ok?
    requires Flatten(chunks) + later == PackAll(fmt, frames)
    ensures ReceiveAll(fmt, chunks).delivered <= frames && !ReceiveAll(fmt, chunks).failed
  {
    ChunksDoNotMatter(fmt, chunks);
    ParseMore(fmt, Flatten(chunks), later);
    ParseAllPacked(fmt, frames);
  }

  /** `dataReceived` on the fields it updates. */
  class LTTwistedProtocol {
    const fmt: Format
    var packet: seq<Byte>
    var plen: nat
    var delivered: seq<Frame>

    ghost predicate Valid()
      reads this
    {
      plen == |packet|
    }

    constructor (fmt: Format)
      ensures Valid() && packet == [] && delivered == [] && this.fmt == fmt
    {
      this.fmt := fmt;
      packet, plen, delivered := [], 0, [];
    }

    method DataReceived(data: seq<Byte>) returns (failed: bool)
      requires Valid()
      modifies this
      ensures Valid()
      ensures Receiver(packet, delivered, failed) == Receive(fmt, old(Receiver(packet, delivered, false)), data)
    {
      packet := packet + data;
      plen := plen + |data|;
      ghost var goal := Parse(fmt, packet);
      ghost var before := delivered;
      assert before + goal.frames == delivered + Parse(fmt, packet).frames;
      while plen >= fmt.lenSize
        invariant Valid()
        invariant delivered + Parse(fmt, packet).frames == before + goal.frames
        invariant Parse(fmt, packet).rest == goal.rest && Parse(fmt, packet).failed == goal.failed
        decreases plen
      {
        var lenNeeded := Decode(packet[..fmt.lenSize]);
        if plen >= lenNeeded {
          var buf := packet[..lenNeeded];
          ghost var p := Parse(fmt, packet[lenNeeded..]);
          packet := packet[lenNeeded..];
          plen := plen - lenNeeded;
          if |buf| < fmt.Header() {
            return true;
          }
          assert delivered + ([FrameOf(fmt, buf)] + p.frames) == delivered + [FrameOf(fmt, buf)] + p.frames;
          delivered := delivered + [FrameOf(fmt, buf)];
        } else {
          break;
        }
      }
      return false;
    }
  }
}
