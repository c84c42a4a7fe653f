/** OpenFlow matches and messages in the terms of the OpenFlow Switch Specification 1.0.0: which packets a match
    accepts, and the bytes of an example of every structure. */
module OfLaws {
  import opened Wrappers
  import opened OfBytes
  import opened OfMatch
  import opened OfMatchWire
  import opened OfActions
  import opened OfFlowMod

  // ---- section 5.2.3: which packets a match accepts

  /** The field is wildcarded by its bit, or has the value asked for. */
  predicate Agrees<T(==)>(wildcards: bv32, bit: bv32, mine: T, packets: T) { wildcards & bit != 0 || mine == packets }

  /** The bits of a network's mask are those from `free` up. */
  lemma MaskBits(free: Bits, i: bv32)
    requires i < 32
    ensures (NetMask(free) >> i) & 1 == 1 <==> free <= i
  {
    ShiftedMask(free, i);
  }

  lemma ShiftedMask(n: bv32, i: bv32)
    requires n < 32 && i < 32
    ensures var one: bv32 := 1; (!((one << n) - 1) >> i) & 1 == 1 <==> n <= i
  {
  }

  /** The packet's address lies in the network asked for; a count of 32 or more frees all bits. */
  predicate AgreeAbove(free: bv32, mine: bv32, packets: bv32) {
    if free >= 32 then true else InNetwork(packets, Prefix(mine, free))
  }

  lemma NetMeans(net: Option<Prefix>, free: bv32, mine: bv32, addr: bv32)
    requires if free >= 32 then net == None else net == Some(Prefix(mine, free))
    ensures NetFits(net, Some(Prefix(addr, 0))) <==> AgreeAbove(free, mine, addr)
  {
  }

  lemma SourceCount(w: bv32)
    ensures w & NW_SRC_ALL == NW_SRC_ALL <==> (w >> 8) & 63 >= 32
    ensures SrcBits(w) == (w >> 8) & 63
  {
  }

  lemma DestinationCount(w: bv32)
    ensures w & NW_DST_ALL == NW_DST_ALL <==> (w >> 14) & 63 >= 32
    ensures DstBits(w) == (w >> 14) & 63
  {
  }

  lemma SourceMeans(m: Match, addr: bv32)
    ensures NetFits(NwSrc(m), Some(Prefix(addr, 0))) <==> AgreeAbove((m.wildcards >> 8) & 63, m.nwSrc, addr)
  {
    SourceCount(m.wildcards);
    NetMeans(NwSrc(m), (m.wildcards >> 8) & 63, m.nwSrc, addr);
  }

  lemma DestinationMeans(m: Match, addr: bv32)
    ensures NetFits(NwDst(m), Some(Prefix(addr, 0))) <==> AgreeAbove((m.wildcards >> 14) & 63, m.nwDst, addr)
  {
    DestinationCount(m.wildcards);
    NetMeans(NwDst(m), (m.wildcards >> 14) & 63, m.nwDst, addr);
  }

  lemma OneBit(w: bv32, bit: bv32)
    requires bit & (bit - 1) == 0
    ensures w & bit == bit <==> bit == 0 || w & bit != 0
  {
  }

  lemma ShownMeans<T>(w: bv32, bit: bv32, mine: T, packets: T)
    requires bit != 0 && bit & (bit - 1) == 0
    ensures Fits(Shown(w, bit, mine), Some(packets)) <==> Agrees(w, bit, mine, packets)
  {
    OneBit(w, bit);
  }

  /** A hardware address of all zeros asks for nothing. */
  lemma EthMeans(w: bv32, bit: bv32, mine: bv48, packets: bv48)
    requires bit != 0 && bit & (bit - 1) == 0
    ensures EthFits(Shown(w, bit, mine), Some(packets)) <==> mine == 0 || Agrees(w, bit, mine, packets)
  {
    OneBit(w, bit);
  }

  lemma ExactView(p: Match)
    requires Exact(p)
    ensures View(p) == Fields(Some(p.inPort), Some(p.dlSrc), Some(p.dlDst), Some(p.dlVlan), Some(p.dlVlanPcp),
                              Some(p.dlType), Some(p.nwTos), Some(p.nwProto), Some(Prefix(p.nwSrc, 0)),
                              Some(Prefix(p.nwDst, 0)), Some(p.tpSrc), Some(p.tpDst))
  {
  }

  predicate LinkAgrees(m: Match, p: Match) {
    var w := m.wildcards;
    && Agrees(w, 0x1, m.inPort, p.inPort)
    && Agrees(w, 0x2, m.dlVlan, p.dlVlan)
    && (m.dlSrc == 0 || Agrees(w, 0x4, m.dlSrc, p.dlSrc))
    && (m.dlDst == 0 || Agrees(w, 0x8, m.dlDst, p.dlDst))
    && Agrees(w, 0x10, m.dlType, p.dlType)
    && Agrees(w, 0x10_0000, m.dlVlanPcp, p.dlVlanPcp)
  }

  predicate NetworkAgrees(m: Match, p: Match) {
    var w := m.wildcards;
    && Agrees(w, 0x20_0000, m.nwTos, p.nwTos)
    && Agrees(w, 0x20, m.nwProto, p.nwProto)
    && AgreeAbove((w >> 8) & 63, m.nwSrc, p.nwSrc)
    && AgreeAbove((w >> 14) & 63, m.nwDst, p.nwDst)
    && Agrees(w, 0x40, m.tpSrc, p.tpSrc)
    && Agrees(w, 0x80, m.tpDst, p.tpDst)
  }

  /** `Covers` for a packet with every field present, in two halves. */
  predicate LinkFits(a: Fields, p: Match) {
    && Fits(a.inPort, Some(p.inPort)) && Fits(a.dlVlan, Some(p.dlVlan))
    && EthFits(a.dlSrc, Some(p.dlSrc)) && EthFits(a.dlDst, Some(p.dlDst))
    && Fits(a.dlType, Some(p.dlType)) && Fits(a.dlVlanPcp, Some(p.dlVlanPcp))
  }

  predicate NetworkFits(a: Fields, p: Match) {
    && Fits(a.nwTos, Some(p.nwTos)) && Fits(a.nwProto, Some(p.nwProto))
    && NetFits(a.nwSrc, Some(Prefix(p.nwSrc, 0))) && NetFits(a.nwDst, Some(Prefix(p.nwDst, 0)))
    && Fits(a.tpSrc, Some(p.tpSrc)) && Fits(a.tpDst, Some(p.tpDst))
  }

  lemma CoversHalves(a: Fields, p: Match)
    requires Exact(p)
    ensures Covers(a, View(p)) <==> LinkFits(a, p) && NetworkFits(a, p)
  {
    ExactView(p);
  }

  lemma LinkMeans(m: Match, p: Match)
    ensures LinkFits(View(m), p) <==> LinkAgrees(m, p)
  {
    var w := m.wildcards;
    ShownMeans(w, 0x1, m.inPort, p.inPort);
    ShownMeans(w, 0x2, m.dlVlan, p.dlVlan);
    EthMeans(w, 0x4, m.dlSrc, p.dlSrc);
    EthMeans(w, 0x8, m.dlDst, p.dlDst);
    ShownMeans(w, 0x10, m.dlType, p.dlType);
    ShownMeans(w, 0x10_0000, m.dlVlanPcp, p.dlVlanPcp);
  }

  lemma NetworkMeans(m: Match, p: Match)
    requires PrefixesOk(m)
    ensures NetworkFits(View(m), p) <==> NetworkAgrees(m, p)
  {
    var w := m.wildcards;
    ShownMeans(w, 0x20_0000, m.nwTos, p.nwTos);
    ShownMeans(w, 0x20, m.nwProto, p.nwProto);
    SourceMeans(m, p.nwSrc);
    DestinationMeans(m, p.nwDst);
    ShownMeans(w, 0x40, m.tpSrc, p.tpSrc);
    ShownMeans(w, 0x80, m.tpDst, p.tpDst);
  }

  /** A match accepts a packet exactly when it has no stray prefix bits and every field not wildcarded agrees; a
      hardware address of all zeros asks for nothing. */
  lemma AcceptsMeans(m: Match, p: Match)
    requires Exact(p)
    ensures Accepts(m, p) <==> PrefixesOk(m) && LinkAgrees(m, p) && NetworkAgrees(m, p)
  {
    if PrefixesOk(m) {
      AcceptsIsCovers(m, p);
      CoversHalves(View(m), p);
      LinkMeans(m, p);
      NetworkMeans(m, p);
    } else {
      StrayBitsMatchNothing(m, p);
    }
  }

  /** What a match says after its journey in a flow modification: everything it said about the link, and of the rest
      what its Ethernet type, and for the ports also its IP protocol, gives a meaning. */
  lemma JourneyKeeps(m: Match)
    ensures var f := View(m);
            var ip, arp := f.dlType == Some(0x0800), f.dlType == Some(0x0806);
            var ports := ip && (f.nwProto == Some(1) || f.nwProto == Some(6) || f.nwProto == Some(17));
            View(Unwired(Wired(m)))
            == f.(nwTos := if ip then f.nwTos else None,
                  nwProto := if ip || arp then f.nwProto else None,
                  nwSrc := if ip || arp then f.nwSrc else None,
                  nwDst := if ip || arp then f.nwDst else None,
                  tpSrc := if ports then f.tpSrc else None,
                  tpDst := if ports then f.tpDst else None)
  {
    RoundTripView(m);
  }

  // ---- section 5.2.4: lists of actions that do not end well

  lemma PlainActionPasses(b: seq<Byte>, i: nat, end: int, done: seq<Action>, a: Action)
    requires Made(a) && Plain(a) && Stands(b, i, Bytes(a)) && i < end
    ensures ParseFrom(b, i, end, done) == ParseFrom(b, i + |Bytes(a)|, end, done + [Packed(a)])
  {
    ParseOne(b, i, end, done, a);
    PlainReturns(a);
  }

  /** What a parse comes to that meets a bad action at `j`: fewer than four bytes raise an error, a length beyond the
      buffer empties the whole list, and a length below eight fails the assertion. */
  predicate BadAt(b: seq<Byte>, j: nat, r: Parse) {
    if |b| < j + 4 then r == StructError
    else
      var l := GetLen(b[j + 2..j + 4]);
      (l > |b| - j ==> r == Parsed([], j)) && (l <= |b| - j && l < 8 ==> r == AssertionFailed)
  }

  lemma BadHead(b: seq<Byte>, j: nat, end: int, done: seq<Action>)
    requires j < end
    ensures BadAt(b, j, ParseFrom(b, j, end, done))
  {
  }

  /** So it is after any well-formed actions, none of which is returned. */
  lemma {:induction false} BadTail(b: seq<Byte>, i: nat, end: int, done: seq<Action>, actions: seq<Action>, j: nat)
    requires forall a :: a in actions ==> Made(a) && Plain(a)
    requires Stands(b, i, AllBytes(actions)) && j == i + |AllBytes(actions)| < end
    ensures BadAt(b, j, ParseFrom(b, i, end, done))
    decreases |actions|
  {
    if actions == [] {
      BadHead(b, i, end, done);
    } else {
      BytesStep(b, i, actions);
      BadTail(b, i + |Bytes(actions[0])|, end, done + [Packed(actions[0])], actions[1..], j);
      PlainActionPasses(b, i, end, done, actions[0]);
    }
  }

  // ---- sections 5.2.3, 5.2.4 and 5.3.3: one example of every structure, byte by byte

  const FIELDS := Match(0x200, 0x0102, 0x0A0B0C0D0E0F, 0x1A1B1C1D1E1F, 0x0203, 4, 0x0800, 0x20, 6,
                        0xC0A80004, 0x0A000002, 0x1F90, 0x50)

  lemma FieldsAreWired()
    ensures Wired(FIELDS) == FIELDS
  {
  }

  lemma MatchParts()
    ensures Part1(FIELDS) == [0x00, 0x00, 0x02, 0x00, 0x01, 0x02]
    ensures Part2(FIELDS) == [0x0A, 0x0B, 0x0C, 0x0D, 0x0E, 0x0F, 0x1A, 0x1B, 0x1C, 0x1D, 0x1E, 0x1F]
    ensures Part3(FIELDS) == [0x02, 0x03, 0x04, 0x00]
    ensures Part4(FIELDS) == [0x08, 0x00, 0x20, 0x06, 0x00, 0x00]
    ensures Part5(FIELDS) == [0xC0, 0xA8, 0x00, 0x04, 0x0A, 0x00, 0x00, 0x02]
    ensures Part6(FIELDS) == [0x1F, 0x90, 0x00, 0x50]
  {
  }

  const MATCH_BYTES: seq<Byte> :=
    [0x00, 0x00, 0x02, 0x00, 0x01, 0x02, 0x0A, 0x0B, 0x0C, 0x0D, 0x0E, 0x0F, 0x1A, 0x1B] +
    [0x1C, 0x1D, 0x1E, 0x1F, 0x02, 0x03, 0x04, 0x00, 0x08, 0x00, 0x20, 0x06] +
    [0x00, 0x00, 0xC0, 0xA8, 0x00, 0x04, 0x0A, 0x00, 0x00, 0x02, 0x1F, 0x90, 0x00, 0x50]

  lemma MatchExample()
    ensures PackMatch(FIELDS) == MATCH_BYTES
  {
    FieldsAreWired();
    MatchParts();
  }

  lemma OutputExample()
    ensures Bytes(Output(2, 0x80)) == [0x00, 0x00, 0x00, 0x08, 0x00, 0x02, 0x00, 0x00]
  {
  }

  lemma OutputToControllerExample()
    ensures Bytes(Output(OFPP_CONTROLLER, 0x80)) == [0x00, 0x00, 0x00, 0x08, 0xFF, 0xFD, 0x00, 0x80]
  {
  }

  lemma VlanVidExample()
    ensures Bytes(VlanVid(0x123)) == [0x00, 0x01, 0x00, 0x08, 0x01, 0x23, 0x00, 0x00]
  {
  }

  lemma VlanPcpExample()
    ensures Bytes(VlanPcp(5)) == [0x00, 0x02, 0x00, 0x08, 0x05, 0x00, 0x00, 0x00]
  {
  }

  lemma StripVlanExample()
    ensures Bytes(Header(3, 8)) == [0x00, 0x03, 0x00, 0x08, 0x00, 0x00, 0x00, 0x00]
  {
  }

  lemma DlAddrSrcExample()
    ensures Bytes(DlAddr(false, 0x0A0B0C0D0E0F))
         == [0x00, 0x04, 0x00, 0x10, 0x0A, 0x0B, 0x0C, 0x0D, 0x0E, 0x0F, 0x00, 0x00, 0x00, 0x00, 0x00, 0x00]
  {
  }

  lemma DlAddrDstExample()
    ensures Bytes(DlAddr(true, 0x1A1B1C1D1E1F))
         == [0x00, 0x05, 0x00, 0x10, 0x1A, 0x1B, 0x1C, 0x1D, 0x1E, 0x1F, 0x00, 0x00, 0x00, 0x00, 0x00, 0x00]
  {
  }

  lemma NwAddrSrcExample()
    ensures Bytes(NwAddr(false, 0xC0A80001)) == [0x00, 0x06, 0x00, 0x08, 0xC0, 0xA8, 0x00, 0x01]
  {
  }

  lemma NwAddrDstExample()
    ensures Bytes(NwAddr(true, 0x0A000002)) == [0x00, 0x07, 0x00, 0x08, 0x0A, 0x00, 0x00, 0x02]
  {
  }

  lemma NwTosExample()
    ensures Bytes(NwTos(0x20)) == [0x00, 0x08, 0x00, 0x08, 0x20, 0x00, 0x00, 0x00]
  {
  }

  lemma TpPortSrcExample()
    ensures Bytes(TpPort(false, 0x1F90)) == [0x00, 0x09, 0x00, 0x08, 0x1F, 0x90, 0x00, 0x00]
  {
  }

  lemma TpPortDstExample()
    ensures Bytes(TpPort(true, 0x50)) == [0x00, 0x0A, 0x00, 0x08, 0x00, 0x50, 0x00, 0x00]
  {
  }

  lemma EnqueueExample()
    ensures Bytes(Enqueue(1, 0x01020304))
         == [0x00, 0x0B, 0x00, 0x10, 0x00, 0x01, 0x00, 0x00, 0x00, 0x00, 0x00, 0x00, 0x01, 0x02, 0x03, 0x04]
  {
  }

  lemma VendorHeaderExample()
    ensures Bytes(VendorHeader(0x2320)) == [0xFF, 0xFF, 0x00, 0x08, 0x00, 0x00, 0x23, 0x20]
  {
  }

  lemma MplsLabelExample()
    ensures Bytes(MplsLabel(8, 0x1234)) == [0x00, 0x0D, 0x00, 0x08, 0x00, 0x00, 0x12, 0x34]
  {
  }

  lemma MplsTcExample()
    ensures Bytes(MplsTc(8, 5)) == [0x00, 0x0E, 0x00, 0x08, 0x05, 0x00, 0x00, 0x00]
  {
  }

  lemma MplsTtlExample()
    ensures Bytes(MplsTtl(8, 64)) == [0x00, 0x0F, 0x00, 0x08, 0x40, 0x00, 0x00, 0x00]
  {
  }

  lemma PushMplsExample()
    ensures Bytes(PushMpls(8, 0x8847)) == [0x00, 0x13, 0x00, 0x08, 0x88, 0x47, 0x00, 0x00]
  {
  }

  lemma PopMplsExample()
    ensures Bytes(PopMpls(8, 0x0800)) == [0x00, 0x14, 0x00, 0x08, 0x08, 0x00, 0x00, 0x00]
  {
  }

  const MESSAGE := FlowMod(1, 14, 80, 0x11223344, FIELDS, 0x0102030405060708, 1, 10, 30, 0x8000, BufferId(0x55667788),
                           0xFFFF, 1, [Output(2, 0x80)])

  const HEADER_BYTES: seq<Byte> := [0x01, 0x0E, 0x00, 0x50, 0x11, 0x22, 0x33, 0x44]

  const FIXED_BYTES: seq<Byte> :=
    [0x01, 0x02, 0x03, 0x04, 0x05, 0x06, 0x07, 0x08, 0x00, 0x01, 0x00, 0x0A] +
    [0x00, 0x1E, 0x80, 0x00, 0x55, 0x66, 0x77, 0x88, 0xFF, 0xFF, 0x00, 0x01]

  const ACTION_BYTES: seq<Byte> := [0x00, 0x00, 0x00, 0x08, 0x00, 0x02, 0x00, 0x00]

  lemma HeaderExample()
    ensures HeaderBytes(MESSAGE) == HEADER_BYTES
  {
  }

  lemma FixedExample()
    ensures FixedBytes(MESSAGE) == FIXED_BYTES
  {
    CookieExample();
    WordsExample();
  }

  lemma CookieExample()
    ensures U64(0x0102030405060708) == [0x01, 0x02, 0x03, 0x04, 0x05, 0x06, 0x07, 0x08]
  {
  }

  lemma WordsExample()
    ensures U16(1) == [0, 1] && U16(10) == [0, 10] && U16(30) == [0, 30] && U16(0x8000) == [0x80, 0]
    ensures U32(0x55667788) == [0x55, 0x66, 0x77, 0x88] && U16(0xFFFF) == [0xFF, 0xFF]
  {
  }

  lemma ActionsExample()
    ensures AllBytes(MESSAGE.actions) == ACTION_BYTES && TotalLength(MESSAGE) == 80
  {
    OutputExample();
    assert MESSAGE.actions[1..] == [];
    assert AllBytes(MESSAGE.actions) == Bytes(Output(2, 0x80)) + [];
  }

  lemma MessagePacks()
    ensures Pack(MESSAGE) == Ok(AllFlowModBytes(MESSAGE))
  {
    ActionsExample();
    assert MESSAGE.(length := 80) == MESSAGE;
  }

  lemma MessageExample()
    ensures Pack(MESSAGE) == Ok(HEADER_BYTES + (MATCH_BYTES + (FIXED_BYTES + ACTION_BYTES)))
  {
    MessagePacks();
    HeaderExample();
    MatchExample();
    FixedExample();
    ActionsExample();
  }

  /** A message packs exactly when its type is known, its length fits, and every pushed label has a type of MPLS. */
  lemma PacksExactlyWhen(fm: FlowMod)
    requires forall a :: a in fm.actions ==> Made(a)
    ensures Pack(fm).Ok?
       <==> && fm.headerType <= 21
            && 72 + |AllBytes(fm.actions)| < 0x1_0000
            && (forall a :: a in fm.actions && a.PushMpls? ==> a.ethertype == 0x8847 || a.ethertype == 0x8848)
  {
    BytesCounted(fm, []);
  }

  /** No buffer is written as 0xffffffff, and only that is read as none. */
  lemma BufferMeans(w: bv32)
    ensures BufferWord(NoBuffer) == 0xFFFF_FFFF && BufferWord(BufferId(w)) == w
    ensures ReadBuffer(w) == if w == 0xFFFF_FFFF then NoBuffer else BufferId(w)
  {
  }
}
