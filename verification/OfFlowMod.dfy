/** `ofp_flow_mod.pack` and `unpack`: 72 bytes of header, match and fixed fields, then the actions. */
module OfFlowMod {
  import opened Wrappers
  import opened OfBytes
  import opened OfMatch
  import opened OfMatchWire
  import opened OfActions

  // ---- the match as forty bytes

  function Part1(r: Match): (s: seq<Byte>) ensures |s| == 6 { U32(r.wildcards) + U16(r.inPort) }

  function Part2(r: Match): (s: seq<Byte>) ensures |s| == 12 { U48(r.dlSrc) + U48(r.dlDst) }

  function Part3(r: Match): (s: seq<Byte>) ensures |s| == 4 { U16(r.dlVlan) + [r.dlVlanPcp, 0] }

  function Part4(r: Match): (s: seq<Byte>) ensures |s| == 6 { U16(r.dlType) + [r.nwTos, r.nwProto, 0, 0] }

  function Part5(r: Match): (s: seq<Byte>) ensures |s| == 8 { U32(r.nwSrc) + U32(r.nwDst) }

  function Part6(r: Match): (s: seq<Byte>) ensures |s| == 4 { U16(r.tpSrc) + U16(r.tpDst) }

  function Layout(r: Match): (s: seq<Byte>)
    ensures |s| == 40
  {
    Part1(r) + (Part2(r) + (Part3(r) + (Part4(r) + (Part5(r) + Part6(r)))))
  }

  /** The values at the offsets `unpack` reads. */
  function Scan(b: seq<Byte>, i: nat): Match
    requires i + 40 <= |b|
  {
    Match(Get32(b[i..i + 4]), Get16(b[i + 4..i + 6]), Get48(b[i + 6..i + 12]), Get48(b[i + 12..i + 18]),
          Get16(b[i + 18..i + 20]), b[i + 20], Get16(b[i + 22..i + 24]), b[i + 24], b[i + 25],
          Get32(b[i + 28..i + 32]), Get32(b[i + 32..i + 36]), Get16(b[i + 36..i + 38]), Get16(b[i + 38..i + 40]))
  }

  function PackMatch(m: Match): (s: seq<Byte>)
    ensures |s| == 40
  {
    Layout(Wired(m))
  }

  function UnpackMatch(b: seq<Byte>, i: nat): Match
    requires i + 40 <= |b|
  {
    Unwired(Scan(b, i))
  }

  // ---- reading numbers back

  lemma StandsLen(b: seq<Byte>, i: nat, x: Length)
    requires Stands(b, i, ULen(x))
    ensures GetLen(b[i..i + 2]) == x
  {
    InverseLen(x);
  }

  lemma Scan1(b: seq<Byte>, i: nat, r: Match)
    requires Stands(b, i, Part1(r))
    ensures Get32(b[i..i + 4]) == r.wildcards && Get16(b[i + 4..i + 6]) == r.inPort
  {
    StandsSplit(b, i, U32(r.wildcards), U16(r.inPort));
  }

  lemma Scan2(b: seq<Byte>, i: nat, r: Match)
    requires Stands(b, i, Part2(r))
    ensures Get48(b[i..i + 6]) == r.dlSrc && Get48(b[i + 6..i + 12]) == r.dlDst
  {
    StandsSplit(b, i, U48(r.dlSrc), U48(r.dlDst));
  }

  lemma Scan3(b: seq<Byte>, i: nat, r: Match)
    requires Stands(b, i, Part3(r))
    ensures Get16(b[i..i + 2]) == r.dlVlan && b[i + 2] == r.dlVlanPcp
  {
    StandsSplit(b, i, U16(r.dlVlan), [r.dlVlanPcp, 0]);
  }

  lemma Scan4(b: seq<Byte>, i: nat, r: Match)
    requires Stands(b, i, Part4(r))
    ensures Get16(b[i..i + 2]) == r.dlType && b[i + 2] == r.nwTos && b[i + 3] == r.nwProto
  {
    StandsSplit(b, i, U16(r.dlType), [r.nwTos, r.nwProto, 0, 0]);
  }

  lemma Scan5(b: seq<Byte>, i: nat, r: Match)
    requires Stands(b, i, Part5(r))
    ensures Get32(b[i..i + 4]) == r.nwSrc && Get32(b[i + 4..i + 8]) == r.nwDst
  {
    StandsSplit(b, i, U32(r.nwSrc), U32(r.nwDst));
  }

  lemma Scan6(b: seq<Byte>, i: nat, r: Match)
    requires Stands(b, i, Part6(r))
    ensures Get16(b[i..i + 2]) == r.tpSrc && Get16(b[i + 2..i + 4]) == r.tpDst
  {
    StandsSplit(b, i, U16(r.tpSrc), U16(r.tpDst));
  }

  lemma LayoutParts(b: seq<Byte>, i: nat, r: Match)
    requires Stands(b, i, Layout(r))
    ensures Stands(b, i, Part1(r)) && Stands(b, i + 6, Part2(r)) && Stands(b, i + 18, Part3(r))
    ensures Stands(b, i + 22, Part4(r)) && Stands(b, i + 28, Part5(r)) && Stands(b, i + 36, Part6(r))
  {
    var t5 := Part5(r) + Part6(r);
    var t4 := Part4(r) + t5;
    var t3 := Part3(r) + t4;
    var t2 := Part2(r) + t3;
    StandsSplit(b, i, Part1(r), t2);
    StandsSplit(b, i + 6, Part2(r), t3);
    StandsSplit(b, i + 18, Part3(r), t4);
    StandsSplit(b, i + 22, Part4(r), t5);
    StandsSplit(b, i + 28, Part5(r), Part6(r));
  }

  lemma ScanLayout(b: seq<Byte>, i: nat, r: Match)
    requires Stands(b, i, Layout(r))
    ensures Scan(b, i) == r
  {
    LayoutParts(b, i, r);
    Scan1(b, i, r);
    Scan2(b, i + 6, r);
    Scan3(b, i + 18, r);
    Scan4(b, i + 22, r);
    Scan5(b, i + 28, r);
    Scan6(b, i + 36, r);
  }

  // ---- the flow modification

  /** `buffer_id` is -1 for no buffer, which travels as 0xffffffff. */
  datatype Buffer = NoBuffer | BufferId(id: bv32)

  datatype FlowMod = FlowMod(
    version: bv8, headerType: bv8, length: Length, xid: bv32, fields: Match,
    cookie: bv64, command: bv16, idleTimeout: bv16, hardTimeout: bv16, priority: bv16,
    buffer: Buffer, outPort: bv16, flags: bv16, actions: seq<Action>)

  /** The exceptions `pack` can raise: an unknown message type, a length that does not fit, an action whose
      own check fails. */
  datatype PackError = UnknownType | TooLong | BadAction

  const LAST_MESSAGE_TYPE: bv8 := 21
  const NO_BUFFER: bv32 := 0xFFFF_FFFF

  function BufferWord(buffer: Buffer): bv32 { if buffer.NoBuffer? then NO_BUFFER else buffer.id }

  function ReadBuffer(w: bv32): Buffer { if w == NO_BUFFER then NoBuffer else BufferId(w) }

  /** `__len__`: what `pack` stores in the length field. */
  function TotalLength(fm: FlowMod): nat { 72 + SumOfLengths(fm.actions) }

  function SumOfLengths(actions: seq<Action>): nat {
    if actions == [] then 0 else Len(actions[0]) + SumOfLengths(actions[1..])
  }

  function HeaderBytes(fm: FlowMod): (s: seq<Byte>)
    ensures |s| == 8
  {
    [fm.version, fm.headerType] + (ULen(fm.length) + U32(fm.xid))
  }

  function FixedBytes(fm: FlowMod): (s: seq<Byte>)
    ensures |s| == 24
  {
    U64(fm.cookie) + (U16(fm.command) + (U16(fm.idleTimeout) + (U16(fm.hardTimeout) + (U16(fm.priority)
    + (U32(BufferWord(fm.buffer)) + (U16(fm.outPort) + U16(fm.flags)))))))
  }

  function AllFlowModBytes(fm: FlowMod): seq<Byte> {
    HeaderBytes(fm) + (PackMatch(fm.fields) + (FixedBytes(fm) + AllBytes(fm.actions)))
  }

  function Pack(fm: FlowMod): Result<seq<Byte>, PackError> {
    if fm.headerType > LAST_MESSAGE_TYPE then Err(UnknownType)
    else if TotalLength(fm) >= 0x1_0000 then Err(TooLong)
    else if exists a :: a in fm.actions && !Packable(a) then Err(BadAction)
    else Ok(AllFlowModBytes(fm.(length := TotalLength(fm))))
  }

  /** What packing leaves in the object: its length, and the `max_len` of its output actions. */
  function AfterPack(fm: FlowMod): FlowMod
    requires TotalLength(fm) < 0x1_0000
  {
    fm.(length := TotalLength(fm), actions := AllPacked(fm.actions))
  }

  /** `unpack`: nothing read from a short buffer, an exception, or the message and what follows it. */
  datatype Unpacked = Short | Failed | Unpacked(fm: FlowMod, rest: seq<Byte>)

  function ReadFixed(b: seq<Byte>, actions: seq<Action>): FlowMod
    requires |b| >= 72
  {
    FlowMod(b[0], b[1], GetLen(b[2..4]), Get32(b[4..8]), UnpackMatch(b, 8),
            Get64(b[48..56]), Get16(b[56..58]), Get16(b[58..60]), Get16(b[60..62]), Get16(b[62..64]),
            ReadBuffer(Get32(b[64..68])), Get16(b[68..70]), Get16(b[70..72]), actions)
  }

  function Unpack(b: seq<Byte>): Unpacked {
    if |b| < 72 then Short
    else
      var length := GetLen(b[2..4]);
      var p := ParseActions(b, length - 72, 72);
      if p.Parsed? && p.offset == length && length <= |b| then Unpacked(ReadFixed(b, p.actions), b[length..])
      else Failed
  }

  // ---- there and back

  lemma HeaderStands(b: seq<Byte>, fm: FlowMod)
    requires Stands(b, 0, HeaderBytes(fm))
    ensures b[0] == fm.version && b[1] == fm.headerType && GetLen(b[2..4]) == fm.length && Get32(b[4..8]) == fm.xid
  {
    StandsSplit(b, 0, [fm.version, fm.headerType], ULen(fm.length) + U32(fm.xid));
    StandsSplit(b, 2, ULen(fm.length), U32(fm.xid));
    StandsLen(b, 2, fm.length);
  }

  lemma FixedStands1(b: seq<Byte>, fm: FlowMod, tail: seq<Byte>)
    requires |tail| == 8
    requires Stands(b, 48, U64(fm.cookie) + (U16(fm.command) + (U16(fm.idleTimeout)
             + (U16(fm.hardTimeout) + (U16(fm.priority) + tail)))))
    ensures Get64(b[48..56]) == fm.cookie && Get16(b[56..58]) == fm.command && Get16(b[58..60]) == fm.idleTimeout
    ensures Get16(b[60..62]) == fm.hardTimeout && Get16(b[62..64]) == fm.priority && Stands(b, 64, tail)
  {
    var t3 := U16(fm.priority) + tail;
    var t2 := U16(fm.hardTimeout) + t3;
    var t1 := U16(fm.idleTimeout) + t2;
    StandsSplit(b, 48, U64(fm.cookie), U16(fm.command) + t1);
    StandsSplit(b, 56, U16(fm.command), t1);
    StandsSplit(b, 58, U16(fm.idleTimeout), t2);
    StandsSplit(b, 60, U16(fm.hardTimeout), t3);
    StandsSplit(b, 62, U16(fm.priority), tail);
  }

  lemma FixedStands2(b: seq<Byte>, w: bv32, outPort: bv16, flags: bv16)
    requires Stands(b, 64, U32(w) + (U16(outPort) + U16(flags)))
    ensures Get32(b[64..68]) == w && Get16(b[68..70]) == outPort && Get16(b[70..72]) == flags
  {
    StandsSplit(b, 64, U32(w), U16(outPort) + U16(flags));
    StandsSplit(b, 68, U16(outPort), U16(flags));
  }

  /** How the bytes of a message lie in a buffer. */
  predicate Lies(b: seq<Byte>, fm: FlowMod) {
    Stands(b, 0, HeaderBytes(fm)) && Stands(b, 8, PackMatch(fm.fields)) && Stands(b, 48, FixedBytes(fm))
    && Stands(b, 72, AllBytes(fm.actions))
  }

  lemma MessageLies(fm: FlowMod, rest: seq<Byte>)
    ensures Lies(AllFlowModBytes(fm) + rest, fm)
  {
    var b := AllFlowModBytes(fm) + rest;
    var t2 := FixedBytes(fm) + AllBytes(fm.actions);
    StandsSplit(b, 0, HeaderBytes(fm), PackMatch(fm.fields) + t2);
    StandsSplit(b, 8, PackMatch(fm.fields), t2);
    StandsSplit(b, 48, FixedBytes(fm), AllBytes(fm.actions));
  }

  lemma {:induction false} LengthsAdd(actions: seq<Action>)
    requires forall a :: a in actions ==> Made(a)
    ensures |AllBytes(actions)| == SumOfLengths(actions)
    decreases |actions|
  {
    if actions != [] {
      assert Made(actions[0]);
      LengthsAdd(actions[1..]);
    }
  }

  lemma FixedBack(b: seq<Byte>, fm: FlowMod, actions: seq<Action>)
    requires |b| >= 72 && Lies(b, fm)
    ensures ReadFixed(b, actions)
      == fm.(fields := Unwired(Wired(fm.fields)), buffer := ReadBuffer(BufferWord(fm.buffer)), actions := actions)
  {
    HeaderStands(b, fm);
    ScanLayout(b, 8, Wired(fm.fields));
    FixedStands1(b, fm, U32(BufferWord(fm.buffer)) + (U16(fm.outPort) + U16(fm.flags)));
    FixedStands2(b, BufferWord(fm.buffer), fm.outPort, fm.flags);
  }

  /** What arrives with given actions: the match normalised and, as a buffer, 0xffffffff read as none. */
  function Arrived(fm: FlowMod, actions: seq<Action>): FlowMod
    requires TotalLength(fm) < 0x1_0000
  {
    fm.(length := TotalLength(fm), fields := Unwired(Wired(fm.fields)), buffer := ReadBuffer(BufferWord(fm.buffer)),
        actions := actions)
  }

  lemma MessageBack(b: seq<Byte>, fm: FlowMod)
    requires Lies(b, fm) && fm.length == 72 + |AllBytes(fm.actions)| && forall a :: a in fm.actions ==> Made(a)
    ensures fm.length <= |b|
    ensures Unpack(b)
         == match AllReturned(fm.actions) case None => Failed case Some(r) => Unpacked(ReadFixed(b, r), b[fm.length..])
  {
    HeaderStands(b, fm);
    ParseWhole(b, 72, fm.length, fm.actions);
  }

  lemma BytesCounted(fm: FlowMod, rest: seq<Byte>)
    requires forall a :: a in fm.actions ==> Made(a)
    ensures |AllFlowModBytes(fm)| == TotalLength(fm) == 72 + |AllBytes(fm.actions)|
    ensures (AllFlowModBytes(fm) + rest)[TotalLength(fm)..] == rest
  {
    LengthsAdd(fm.actions);
  }

  /** Unpacking a packed flow modification, whatever follows it in the buffer, reads exactly that message with what
      its actions come back as, or fails where one of them does. */
  lemma FlowModRoundTrip(fm: FlowMod, rest: seq<Byte>)
    requires Pack(fm).Ok? && forall a :: a in fm.actions ==> Made(a)
    ensures TotalLength(fm) < 0x1_0000
    ensures Unpack(Pack(fm).value + rest)
         == match AllReturned(fm.actions) case None => Failed case Some(r) => Unpacked(Arrived(fm, r), rest)
  {
    var sent := fm.(length := TotalLength(fm));
    var b := AllFlowModBytes(sent) + rest;
    MessageLies(sent, rest);
    BytesCounted(sent, rest);
    MessageBack(b, sent);
    if AllReturned(fm.actions).Some? {
      FixedBack(b, sent, AllReturned(fm.actions).value);
    }
  }

  /** `__eq__`. */
  predicate SameFlowMod(x: FlowMod, y: FlowMod) {
    Same(x.fields, y.fields) && x == y.(fields := x.fields)
  }

  /** The message that arrives equals the one sent exactly when its match survives, its buffer number is not the one
      that means none, and every action is plain. */
  lemma FlowModSame(fm: FlowMod, actions: seq<Action>)
    requires TotalLength(fm) < 0x1_0000 && AllReturned(fm.actions) == Some(actions)
    ensures SameFlowMod(Arrived(fm, actions), AfterPack(fm))
       <==> Settled(fm.fields) && fm.buffer != BufferId(NO_BUFFER) && forall a :: a in fm.actions ==> Plain(a)
  {
    RoundTripSame(fm.fields);
    AllPlainReturn(fm.actions);
  }
}
