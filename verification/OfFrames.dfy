/**
 Project-4/pox/pox/openflow/libopenflow_01.py, `ofp_match.from_packet`, on the frames the parsers of
 Project-4/pox/pox/lib/packet make: the fields a frame has depend on its type and protocol. Containment of matches
 judged by such frames.
 */
module OfFrames {
  import opened Wrappers
  import opened OfMatch

  const IP_TYPE: bv16 := 0x0800
  const ARP_TYPE: bv16 := 0x0806
  const RARP_TYPE: bv16 := 0x8035
  const VLAN_TYPE: bv16 := 0x8100
  const OFP_VLAN_NONE: bv16 := 0xFFFF

  datatype Tag = Tag(id: bv16, pcp: bv8)

  /** UDP and TCP ports, or ICMP type and code. */
  datatype Ports = Ports(src: bv16, dst: bv16)

  datatype Body =
    | Ip(src: bv32, dst: bv32, proto: bv8, tos: bv8, ports: Option<Ports>)
    | Arp(opcode: bv16, src: bv32, dst: bv32)
    | Opaque

  /** `dlType` is the type inside the tag, where there is one. */
  datatype Frame = Frame(src: bv48, dst: bv48, tag: Option<Tag>, dlType: bv16, body: Body)

  predicate IsArp(dlType: bv16) { dlType == ARP_TYPE || dlType == RARP_TYPE }

  predicate HasPorts(proto: bv8) { proto == 1 || proto == 6 || proto == 17 }

  predicate BodyParsed(dlType: bv16, body: Body) {
    match body
    case Ip(_, _, proto, _, ports) =>
      && dlType == IP_TYPE
      && (ports.Some? ==> HasPorts(proto) && (proto == 1 ==> ports.value.src < 256 && ports.value.dst < 256))
    case Arp(_, _, _) => IsArp(dlType)
    case Opaque => dlType != IP_TYPE && !IsArp(dlType)
  }

  /** What the parsers make of the bytes of a frame: the class of the body goes by the type, a tag has twelve bits of
      identifier and three of priority, and a tag inside a tag is not parsed. */
  predicate Parsed(f: Frame) {
    && f.dlType != VLAN_TYPE
    && (f.tag.Some? ==> f.tag.value.id < 4096 && f.tag.value.pcp < 8)
    && BodyParsed(f.dlType, f.body)
  }

  // ---- from_packet

  /** Whether the network fields are set: not for an ARP operation above 255. */
  predicate HasNet(body: Body) { body.Ip? || (body.Arp? && body.opcode < 256) }

  function FrameWildcards(body: Body): bv32 {
    if !HasNet(body) then 0x28_20E0
    else if body.Arp? then 0x20_00C0
    else if body.ports.None? then 0xC0
    else 0
  }

  function FromPacket(f: Frame, inPort: bv16): Match {
    var vlan := if f.tag.Some? then f.tag.value else Tag(OFP_VLAN_NONE, 0);
    var net, ip := HasNet(f.body), f.body.Ip?;
    Match(FrameWildcards(f.body), inPort, f.src, f.dst, vlan.id, vlan.pcp, f.dlType,
          if ip then f.body.tos else 0,
          if ip then f.body.proto else if net then f.body.opcode as bv8 else 0,
          if net then f.body.src else 0, if net then f.body.dst else 0,
          if ip && f.body.ports.Some? then f.body.ports.value.src else 0,
          if ip && f.body.ports.Some? then f.body.ports.value.dst else 0)
  }

  /** The fields a frame has. */
  function FieldsOf(f: Frame, inPort: bv16): Fields {
    var vlan := if f.tag.Some? then f.tag.value else Tag(OFP_VLAN_NONE, 0);
    var net, ip := HasNet(f.body), f.body.Ip?;
    Fields(Some(inPort), Some(f.src), Some(f.dst), Some(vlan.id), Some(vlan.pcp), Some(f.dlType),
           if ip then Some(f.body.tos) else None,
           if ip then Some(f.body.proto) else if net then Some(f.body.opcode as bv8) else None,
           if net then Some(Prefix(f.body.src, 0)) else None, if net then Some(Prefix(f.body.dst, 0)) else None,
           if ip && f.body.ports.Some? then Some(f.body.ports.value.src) else None,
           if ip && f.body.ports.Some? then Some(f.body.ports.value.dst) else None)
  }

  lemma FromPacketView(f: Frame, inPort: bv16)
    ensures View(FromPacket(f, inPort)) == FieldsOf(f, inPort)
  {
  }

  lemma AcceptsFrame(m: Match, f: Frame, inPort: bv16)
    ensures Accepts(m, FromPacket(f, inPort)) <==> Covers(View(m), FieldsOf(f, inPort))
  {
    var p := FromPacket(f, inPort);
    FromPacketView(f, inPort);
    if Same(m, p) {
      assert PrefixesOk(p);
      SamePrefixes(m, p);
      CoversSame(m, p);
    }
  }

  // ---- what frames a match can accept

  predicate WantsPorts(b: Fields) { b.tpSrc.Some? || b.tpDst.Some? }

  /** Only IP frames have these fields. */
  predicate WantsIp(b: Fields) { b.nwTos.Some? || WantsPorts(b) }

  /** Only IP and ARP frames have these. */
  predicate WantsNet(b: Fields) { b.nwProto.Some? || b.nwSrc.Some? || b.nwDst.Some? }

  predicate TypePossible(b: Fields) {
    b.dlType.Some? ==>
      && b.dlType.value != VLAN_TYPE
      && (WantsIp(b) ==> b.dlType.value == IP_TYPE)
      && (WantsNet(b) ==> b.dlType.value == IP_TYPE || IsArp(b.dlType.value))
  }

  predicate TagPossible(b: Fields) {
    && (b.dlVlan.Some? ==> b.dlVlan.value < 4096 || b.dlVlan.value == OFP_VLAN_NONE)
    && (b.dlVlanPcp.Some? ==> b.dlVlanPcp.value < 8 && (b.dlVlan == Some(OFP_VLAN_NONE) ==> b.dlVlanPcp.value == 0))
  }

  predicate PortsPossible(b: Fields) {
    WantsPorts(b) && b.nwProto.Some? ==>
      && HasPorts(b.nwProto.value)
      && (b.nwProto.value == 1 ==>
            (b.tpSrc.Some? ==> b.tpSrc.value < 256) && (b.tpDst.Some? ==> b.tpDst.value < 256))
  }

  /** The demands of a match do not contradict the layers of a frame. */
  predicate Possible(b: Fields) { TypePossible(b) && TagPossible(b) && PortsPossible(b) }

  /** What else a frame that meets the demands is bound to have: the type of an IP frame, and priority 0 without a
      tag. */
  function Tighten(b: Fields): Fields {
    b.(dlType := if b.dlType.None? && WantsIp(b) then Some(IP_TYPE) else b.dlType,
       dlVlanPcp := if b.dlVlanPcp.None? && b.dlVlan == Some(OFP_VLAN_NONE) then Some(0) else b.dlVlanPcp)
  }

  lemma AcceptedIsPossible(b: Fields, f: Frame, inPort: bv16)
    requires Parsed(f) && Covers(b, FieldsOf(f, inPort))
    ensures Possible(b) && Covers(Tighten(b), FieldsOf(f, inPort))
  {
  }

  lemma TightenLoosens(b: Fields, x: Fields)
    requires Covers(Tighten(b), x)
    ensures Covers(b, x)
  {
  }

  // ---- a frame that meets the demands of `g` and differs from `f` wherever it may

  function OneBut<T(==)>(x: Option<T>, first: T, second: T): T { if x == Some(first) then second else first }

  function SeparatorType(f: Fields, g: Fields): bv16 {
    if g.dlType.Some? then g.dlType.value
    else if WantsNet(g) then OneBut(f.dlType, ARP_TYPE, RARP_TYPE)
    else OneBut(f.dlType, 0, 1)
  }

  function SeparatorTag(f: Fields, g: Fields): Option<Tag> {
    if g.dlVlan == Some(OFP_VLAN_NONE) then None
    else Some(Tag(Pick(g.dlVlan, OneBut(f.dlVlan, 0, 1)), Pick(g.dlVlanPcp, OneBut(f.dlVlanPcp, 0, 1))))
  }

  function SeparatorPorts(f: Fields, g: Fields): Option<Ports> {
    if !WantsPorts(g) then None
    else Some(Ports(Pick(g.tpSrc, OneBut(f.tpSrc, 0, 1)), Pick(g.tpDst, OneBut(f.tpDst, 0, 1))))
  }

  function SeparatorBody(f: Fields, g: Fields, dlType: bv16, src: bv32, dst: bv32): Body {
    if dlType == IP_TYPE then
      var other := if WantsPorts(g) then OneBut(f.nwProto, 6, 17) else Other8(f.nwProto);
      Ip(src, dst, Pick(g.nwProto, other), Pick(g.nwTos, Other8(f.nwTos)), SeparatorPorts(f, g))
    else if IsArp(dlType) then Arp(Pick(g.nwProto, Other8(f.nwProto)) as bv16, src, dst)
    else Opaque
  }

  function SeparatorWith(f: Fields, g: Fields, src: bv32, dst: bv32): Frame {
    var dlType := SeparatorType(f, g);
    Frame(PickEth(g.dlSrc, Other48(f.dlSrc)), PickEth(g.dlDst, Other48(f.dlDst)),
          SeparatorTag(f, g), dlType, SeparatorBody(f, g, dlType, src, dst))
  }

  function SeparatorFrame(f: Fields, g: Fields): Frame {
    SeparatorWith(f, g, PickAddr(f.nwSrc, g.nwSrc), PickAddr(f.nwDst, g.nwDst))
  }

  function SeparatorFields(f: Fields, g: Fields, src: bv32, dst: bv32): Fields {
    FieldsOf(SeparatorWith(f, g, src, dst), Pick(g.inPort, Other16(f.inPort)))
  }

  lemma SeparatorParsed(f: Fields, b: Fields, src: bv32, dst: bv32)
    requires Possible(b)
    ensures Parsed(SeparatorWith(f, Tighten(b), src, dst))
  {
  }

  predicate FieldPrefixesOk(g: Fields) {
    && (g.nwSrc.Some? ==> InNetwork(g.nwSrc.value.addr, g.nwSrc.value))
    && (g.nwDst.Some? ==> InNetwork(g.nwDst.value.addr, g.nwDst.value))
  }

  // `Covers` in three parts.

  predicate LinkCovers(a: Fields, b: Fields) {
    && Fits(a.inPort, b.inPort) && EthFits(a.dlSrc, b.dlSrc) && EthFits(a.dlDst, b.dlDst)
    && Fits(a.dlVlan, b.dlVlan) && Fits(a.dlVlanPcp, b.dlVlanPcp) && Fits(a.dlType, b.dlType)
  }

  predicate AddrCovers(a: Fields, b: Fields) { NetFits(a.nwSrc, b.nwSrc) && NetFits(a.nwDst, b.nwDst) }

  predicate UpperCovers(a: Fields, b: Fields) {
    && Fits(a.nwTos, b.nwTos) && Fits(a.nwProto, b.nwProto) && Fits(a.tpSrc, b.tpSrc) && Fits(a.tpDst, b.tpDst)
  }

  lemma CoversIs(a: Fields, b: Fields)
    ensures Covers(a, b) <==> LinkCovers(a, b) && AddrCovers(a, b) && UpperCovers(a, b)
  {
  }

  lemma SeparatorLink(f: Fields, b: Fields, src: bv32, dst: bv32)
    requires Possible(b)
    ensures var g := Tighten(b); var x := SeparatorFields(f, g, src, dst);
            LinkCovers(g, x) && (LinkCovers(f, x) ==> LinkCovers(f, g))
  {
  }

  lemma SeparatorUpper(f: Fields, b: Fields, src: bv32, dst: bv32)
    requires Possible(b)
    ensures var g := Tighten(b); var x := SeparatorFields(f, g, src, dst);
            UpperCovers(g, x) && (UpperCovers(f, x) ==> UpperCovers(f, g))
  {
  }

  /** The addresses are in the frame if its type has any, and only then can `b` ask for them. */
  lemma SeparatorAddrs(f: Fields, b: Fields, src: bv32, dst: bv32)
    requires Possible(b)
    ensures var x := SeparatorFields(f, Tighten(b), src, dst);
            || (x.nwSrc == Some(Prefix(src, 0)) && x.nwDst == Some(Prefix(dst, 0)))
            || (x.nwSrc.None? && x.nwDst.None? && b.nwSrc.None? && b.nwDst.None?)
  {
  }

  lemma AddrPicked(mine: Option<Prefix>, fixed: Option<Prefix>)
    requires fixed.Some? ==> InNetwork(fixed.value.addr, fixed.value)
    ensures NetFits(fixed, Some(Prefix(PickAddr(mine, fixed), 0)))
    ensures NetFits(mine, Some(Prefix(PickAddr(mine, fixed), 0))) ==> NetFits(mine, fixed)
  {
    AddrDiffers(mine, fixed);
    if fixed.Some? {
      PickStaysIn(mine, fixed.value);
    }
  }

  lemma SeparatorSeparates(f: Fields, b: Fields)
    requires Possible(b) && FieldPrefixesOk(b)
    ensures var g := Tighten(b); var x := FieldsOf(SeparatorFrame(f, g), Pick(g.inPort, Other16(f.inPort)));
            Parsed(SeparatorFrame(f, g)) && Covers(g, x) && (Covers(f, x) ==> Covers(f, g))
  {
    var g := Tighten(b);
    var src, dst := PickAddr(f.nwSrc, g.nwSrc), PickAddr(f.nwDst, g.nwDst);
    var x := SeparatorFields(f, g, src, dst);
    SeparatorParsed(f, b, src, dst);
    SeparatorLink(f, b, src, dst);
    SeparatorUpper(f, b, src, dst);
    SeparatorAddrs(f, b, src, dst);
    AddrPicked(f.nwSrc, g.nwSrc);
    AddrPicked(f.nwDst, g.nwDst);
    CoversIs(g, x);
    CoversIs(f, x);
    CoversIs(f, g);
  }

  // ---- containment over frames

  /** Every frame `b` accepts, at any port, `a` accepts. */
  ghost predicate ContainsFrames(a: Match, b: Match) {
    forall f, inPort :: Parsed(f) && Accepts(b, FromPacket(f, inPort)) ==> Accepts(a, FromPacket(f, inPort))
  }

  /** A match without stray prefix bits accepts some frame exactly when its demands are possible. */
  lemma AcceptsSomeFrame(b: Match)
    requires PrefixesOk(b)
    ensures (exists f, inPort :: Parsed(f) && Accepts(b, FromPacket(f, inPort))) <==> Possible(View(b))
  {
    if Possible(View(b)) {
      var g := Tighten(View(b));
      var f, inPort := SeparatorFrame(g, g), Pick(g.inPort, Other16(g.inPort));
      SeparatorSeparates(g, View(b));
      TightenLoosens(View(b), FieldsOf(f, inPort));
      AcceptsFrame(b, f, inPort);
    } else {
      forall f, inPort | Parsed(f) ensures !Accepts(b, FromPacket(f, inPort)) {
        AcceptsFrame(b, f, inPort);
        if Covers(View(b), FieldsOf(f, inPort)) {
          AcceptedIsPossible(View(b), f, inPort);
        }
      }
    }
  }

  lemma FrameContained(a: Match, b: Match, frame: Frame, inPort: bv16)
    requires Covers(View(a), Tighten(View(b))) && Parsed(frame) && Accepts(b, FromPacket(frame, inPort))
    ensures Accepts(a, FromPacket(frame, inPort))
  {
    AcceptsFrame(b, frame, inPort);
    AcceptedIsPossible(View(b), frame, inPort);
    CoversTrans(View(a), Tighten(View(b)), FieldsOf(frame, inPort));
    AcceptsFrame(a, frame, inPort);
  }

  /** Containment over frames is covering what the second match is bound to have. */
  lemma ContainsFramesIff(a: Match, b: Match)
    requires PrefixesOk(b) && Possible(View(b))
    ensures ContainsFrames(a, b) <==> Covers(View(a), Tighten(View(b)))
  {
    var f, g := View(a), Tighten(View(b));
    if Covers(f, g) {
      forall frame, inPort | Parsed(frame) && Accepts(b, FromPacket(frame, inPort))
        ensures Accepts(a, FromPacket(frame, inPort))
      {
        FrameContained(a, b, frame, inPort);
      }
    } else {
      var frame, inPort := SeparatorFrame(f, g), Pick(g.inPort, Other16(f.inPort));
      SeparatorSeparates(f, View(b));
      TightenLoosens(View(b), FieldsOf(frame, inPort));
      AcceptsFrame(b, frame, inPort);
      AcceptsFrame(a, frame, inPort);
    }
  }

  /** Where `a` demands a type or a priority, `b` demands one too. */
  predicate DemandsShared(a: Fields, b: Fields) {
    (a.dlType.Some? ==> b.dlType.Some?) && (a.dlVlanPcp.Some? ==> b.dlVlanPcp.Some?)
  }

  lemma CoversTightened(a: Fields, b: Fields)
    ensures Covers(a, b) <==> Covers(a, Tighten(b)) && DemandsShared(a, b)
  {
  }

  /**
   `matches_with_wildcards` judged by the frames a switch can see: if some frame meets `b`'s demands, it holds exactly
   when every frame `b` accepts is accepted by `a`, with the exceptions of `OfMatch.ContainmentIsExact` and one more:
   a type or priority `b` does not demand is not inferred from the fields it does demand.
   */
  lemma FrameContainmentIsExact(a: Match, b: Match)
    requires PrefixesOk(b) && Possible(View(b))
    ensures Matches(a, b, true)
       <==> && ContainsFrames(a, b)
            && SpareBitsContained(a.wildcards, b.wildcards)
            && !ZeroOverNone(View(a).dlSrc, View(b).dlSrc)
            && !ZeroOverNone(View(a).dlDst, View(b).dlDst)
            && DemandsShared(View(a), View(b))
  {
    ContainsFramesIff(a, b);
    CoversTightened(View(a), View(b));
    if Matches(a, b, true) {
      MatchesGivesRest(a, b);
      MatchesCovers(a, b);
    } else if Covers(View(a), View(b))
      && SpareBitsContained(a.wildcards, b.wildcards)
      && !ZeroOverNone(View(a).dlSrc, View(b).dlSrc) && !ZeroOverNone(View(a).dlDst, View(b).dlDst)
    {
      CoversContainsBits(a, b);
    }
  }

  lemma MatchesCovers(a: Match, b: Match)
    requires PrefixesOk(b) && Matches(a, b, true)
    ensures Covers(View(a), View(b))
  {
    if Same(a, b) {
      SamePrefixes(a, b);
      CoversSame(a, b);
    }
  }
}
