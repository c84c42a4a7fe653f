/**
 `ofp_match.pack` and `unpack` as a flow modification uses them: forty bytes, fields the protocol does not
 have written as 0 and wildcarded again on the way back.
 */
module OfMatchWire {
  import opened Wrappers
  import opened OfMatch

  const TP_BITS: bv32 := TP_SRC | TP_DST
  const NW_ADDR_BITS: bv32 := NW_SRC_MASK | NW_DST_MASK

  /** What the Ethernet type and IP protocol say a packet carries: which fields are not ignored. */
  datatype Layer = Transport | Internet | Resolution | Unknown

  function LayerOf(dlType: Option<bv16>, nwProto: Option<bv8>): Layer {
    if dlType == Some(0x0800) then
      if nwProto == Some(1) || nwProto == Some(6) || nwProto == Some(17) then Transport else Internet
    else if dlType == Some(0x0806) then Resolution
    else Unknown
  }

  /** The wildcard bits of the ignored fields: cleared on the wire, set in the object. */
  function Ignored(layer: Layer): bv32 {
    match layer
    case Transport => 0
    case Internet => TP_BITS
    case Resolution => NW_TOS | TP_BITS
    case Unknown => NW_TOS | NW_PROTO | NW_ADDR_BITS | TP_BITS
  }

  function CapSrc(w: bv32): bv32 {
    if SrcBits(w) > 32 then (w & !NW_SRC_MASK) | NW_SRC_ALL else w
  }

  function CapDst(w: bv32): bv32 {
    if DstBits(w) > 32 then (w & !NW_DST_MASK) | NW_DST_ALL else w
  }

  /** `_normalize_wildcards`: a count of free address bits above 32 is made 32. */
  function Normalize(w: bv32): bv32 { CapDst(CapSrc(w)) }

  function OrZero8(v: Option<bv8>): bv8 { if v.Some? then v.value else 0 }

  function OrZero16(v: Option<bv16>): bv16 { if v.Some? then v.value else 0 }

  function OrZero48(v: Option<bv48>): bv48 { if v.Some? then v.value else 0 }

  function AddrOrZero(v: Option<Prefix>): bv32 { if v.Some? then v.value.addr else 0 }

  /** The values `pack` writes, from the attributes it reads; all but the wildcards. */
  function Values(f: Fields): Match {
    var layer := LayerOf(f.dlType, f.nwProto);
    Match(0,
      OrZero16(f.inPort), OrZero48(f.dlSrc), OrZero48(f.dlDst), OrZero16(f.dlVlan),
      OrZero8(f.dlVlanPcp), OrZero16(f.dlType),
      if layer.Transport? || layer.Internet? then OrZero8(f.nwTos) else 0,
      if layer.Unknown? then 0 else OrZero8(f.nwProto),
      if layer.Unknown? then 0 else AddrOrZero(f.nwSrc),
      if layer.Unknown? then 0 else AddrOrZero(f.nwDst),
      if layer.Transport? then OrZero16(f.tpSrc) else 0,
      if layer.Transport? then OrZero16(f.tpDst) else 0)
  }

  function Wired(m: Match): Match {
    var f := View(m);
    Values(f).(wildcards := m.wildcards & !Ignored(LayerOf(f.dlType, f.nwProto)))
  }

  /** What `unpack` makes of the values read. */
  function Unwired(m: Match): Match {
    m.(wildcards := Normalize(m.wildcards | Ignored(LayerOf(Some(m.dlType), Some(m.nwProto)))))
  }

  /** The match after the journey, as one reads it: the ignored fields are wildcarded and nothing else changes. */
  function Relevant(f: Fields): Fields {
    var layer := LayerOf(f.dlType, f.nwProto);
    f.(nwTos := if layer.Transport? || layer.Internet? then f.nwTos else None,
       nwProto := if layer.Unknown? then None else f.nwProto,
       nwSrc := if layer.Unknown? then None else f.nwSrc,
       nwDst := if layer.Unknown? then None else f.nwDst,
       tpSrc := if layer.Transport? then f.tpSrc else None,
       tpDst := if layer.Transport? then f.tpDst else None)
  }

  // ---- the wildcard bits

  predicate Wild(w: bv32, bit: bv32) { w & bit == bit }

  /** Which fields the bits wildcard, and how many address bits are free. */
  datatype Flags = Flags(link: LinkFlags, protocol: ProtocolFlags, src: Option<Bits>, dst: Option<Bits>)
  datatype LinkFlags = LinkFlags(inPort: bool, dlSrc: bool, dlDst: bool, dlVlan: bool, dlVlanPcp: bool, dlType: bool)
  datatype ProtocolFlags = ProtocolFlags(nwTos: bool, nwProto: bool, tpSrc: bool, tpDst: bool)

  function LinkOf(w: bv32): LinkFlags {
    LinkFlags(Wild(w, IN_PORT), Wild(w, DL_SRC), Wild(w, DL_DST), Wild(w, DL_VLAN),
              Wild(w, DL_VLAN_PCP), Wild(w, DL_TYPE))
  }

  function ProtocolOf(w: bv32): ProtocolFlags {
    ProtocolFlags(Wild(w, NW_TOS), Wild(w, NW_PROTO), Wild(w, TP_SRC), Wild(w, TP_DST))
  }

  function SrcOf(w: bv32): Option<Bits> { if Wild(w, NW_SRC_ALL) then None else Some(SrcBits(w)) }

  function DstOf(w: bv32): Option<Bits> { if Wild(w, NW_DST_ALL) then None else Some(DstBits(w)) }

  function FlagsOf(w: bv32): Flags { Flags(LinkOf(w), ProtocolOf(w), SrcOf(w), DstOf(w)) }

  /** The flags with the ignored fields wildcarded. */
  function Hide(f: Flags, layer: Layer): Flags {
    var p := f.protocol;
    Flags(f.link,
      ProtocolFlags(p.nwTos || layer.Resolution? || layer.Unknown?, p.nwProto || layer.Unknown?,
                    p.tpSrc || !layer.Transport?, p.tpDst || !layer.Transport?),
      if layer.Unknown? then None else f.src,
      if layer.Unknown? then None else f.dst)
  }

  lemma LinkAfterCaps(w: bv32)
    ensures LinkOf(CapSrc(w)) == LinkOf(w) && LinkOf(CapDst(w)) == LinkOf(w)
  {
  }

  lemma LinkAfterOr(w: bv32, layer: Layer)
    ensures LinkOf(w | Ignored(layer)) == LinkOf(w)
  {
  }

  lemma TosAfterOr(w: bv32, layer: Layer)
    ensures Wild(w | Ignored(layer), NW_TOS) == (Wild(w, NW_TOS) || layer.Resolution? || layer.Unknown?)
  {
  }

  lemma ProtoAfterOr(w: bv32, layer: Layer)
    ensures Wild(w | Ignored(layer), NW_PROTO) == (Wild(w, NW_PROTO) || layer.Unknown?)
  {
  }

  lemma PortsAfterOr(w: bv32, layer: Layer)
    ensures Wild(w | Ignored(layer), TP_SRC) == (Wild(w, TP_SRC) || !layer.Transport?)
    ensures Wild(w | Ignored(layer), TP_DST) == (Wild(w, TP_DST) || !layer.Transport?)
  {
  }

  lemma ProtocolAfterCaps(w: bv32)
    ensures ProtocolOf(CapSrc(w)) == ProtocolOf(w) && ProtocolOf(CapDst(w)) == ProtocolOf(w)
  {
  }

  lemma SrcAfterOr(w: bv32, layer: Layer)
    ensures SrcOf(w | Ignored(layer)) == if layer.Unknown? then None else SrcOf(w)
  {
  }

  lemma SrcAfterCaps(w: bv32)
    ensures SrcOf(CapSrc(w)) == SrcOf(w) && SrcOf(CapDst(w)) == SrcOf(w)
  {
  }

  lemma DstAfterOr(w: bv32, layer: Layer)
    ensures DstOf(w | Ignored(layer)) == if layer.Unknown? then None else DstOf(w)
  {
  }

  lemma DstAfterCaps(w: bv32)
    ensures DstOf(CapSrc(w)) == DstOf(w) && DstOf(CapDst(w)) == DstOf(w)
  {
  }

  lemma FlagsAfterCaps(w: bv32)
    ensures FlagsOf(CapSrc(w)) == FlagsOf(w) && FlagsOf(CapDst(w)) == FlagsOf(w)
  {
    LinkAfterCaps(w);
    ProtocolAfterCaps(w);
    SrcAfterCaps(w);
    DstAfterCaps(w);
  }

  lemma FlagsAre(v: bv32, w: bv32, layer: Layer)
    requires LinkOf(v) == LinkOf(w)
    requires Wild(v, NW_TOS) == (Wild(w, NW_TOS) || layer.Resolution? || layer.Unknown?)
    requires Wild(v, NW_PROTO) == (Wild(w, NW_PROTO) || layer.Unknown?)
    requires Wild(v, TP_SRC) == (Wild(w, TP_SRC) || !layer.Transport?)
    requires Wild(v, TP_DST) == (Wild(w, TP_DST) || !layer.Transport?)
    requires SrcOf(v) == if layer.Unknown? then None else SrcOf(w)
    requires DstOf(v) == if layer.Unknown? then None else DstOf(w)
    ensures FlagsOf(v) == Hide(FlagsOf(w), layer)
  {
  }

  lemma FlagsAfterOr(w: bv32, layer: Layer)
    ensures FlagsOf(w | Ignored(layer)) == Hide(FlagsOf(w), layer)
  {
    LinkAfterOr(w, layer);
    TosAfterOr(w, layer);
    ProtoAfterOr(w, layer);
    PortsAfterOr(w, layer);
    SrcAfterOr(w, layer);
    DstAfterOr(w, layer);
    FlagsAre(w | Ignored(layer), w, layer);
  }

  lemma NormalizedFlags(w: bv32)
    ensures FlagsOf(Normalize(w)) == FlagsOf(w)
  {
    FlagsAfterCaps(w);
    FlagsAfterCaps(CapSrc(w));
  }

  lemma FlagsAfter(w: bv32, layer: Layer)
    ensures FlagsOf(Normalize(w | Ignored(layer))) == Hide(FlagsOf(w), layer)
  {
    NormalizedFlags(w | Ignored(layer));
    FlagsAfterOr(w, layer);
  }

  // ---- the match

  function Unless<T>(wild: bool, v: T): Option<T> { if wild then None else Some(v) }

  /** The fields of a match under given flags. */
  function Read(f: Flags, m: Match): Fields {
    var l, p := f.link, f.protocol;
    Fields(Unless(l.inPort, m.inPort), Unless(l.dlSrc, m.dlSrc), Unless(l.dlDst, m.dlDst), Unless(l.dlVlan, m.dlVlan),
           Unless(l.dlVlanPcp, m.dlVlanPcp), Unless(l.dlType, m.dlType), Unless(p.nwTos, m.nwTos),
           Unless(p.nwProto, m.nwProto),
           if f.src.None? then None else Some(Prefix(m.nwSrc, f.src.value)),
           if f.dst.None? then None else Some(Prefix(m.nwDst, f.dst.value)),
           Unless(p.tpSrc, m.tpSrc), Unless(p.tpDst, m.tpDst))
  }

  lemma ViewIsRead(m: Match)
    ensures View(m) == Read(FlagsOf(m.wildcards), m)
  {
  }

  lemma ReadHidden(fl: Flags, m: Match, r: Match)
    requires var f := Read(fl, m); r == Values(f).(wildcards := r.wildcards)
    ensures var f := Read(fl, m); Read(Hide(fl, LayerOf(f.dlType, f.nwProto)), r) == Relevant(f)
  {
  }

  lemma LayerSurvives(f: Fields)
    ensures var r := Values(f); LayerOf(Some(r.dlType), Some(r.nwProto)) == LayerOf(f.dlType, f.nwProto)
  {
  }

  lemma ClearThenSet(w: bv32, i: bv32)
    ensures (w & !i) | i == w | i
  {
  }

  /** Packing and unpacking a match leaves exactly the fields its protocol has. */
  lemma RoundTripView(m: Match)
    ensures View(Unwired(Wired(m))) == Relevant(View(m))
  {
    var f := View(m);
    var layer, r := LayerOf(f.dlType, f.nwProto), Unwired(Wired(m));
    WildcardsAfter(m);
    FlagsAfter(m.wildcards, layer);
    ViewIsRead(m);
    ViewIsRead(r);
    ReadHidden(FlagsOf(m.wildcards), m, r);
  }

  lemma WildcardsAfter(m: Match)
    ensures Unwired(Wired(m)).wildcards == Normalize(m.wildcards | Ignored(LayerOf(View(m).dlType, View(m).nwProto)))
  {
    LayerSurvives(View(m));
    ClearThenSet(m.wildcards, Ignored(LayerOf(View(m).dlType, View(m).nwProto)));
  }

  /** The matches that survive the journey: counts of at most 32, and the ignored fields wildcarded. */
  predicate Settled(m: Match) {
    SrcBits(m.wildcards) <= 32 && DstBits(m.wildcards) <= 32 && Relevant(View(m)) == View(m)
  }

  lemma CountsAfter(w: bv32)
    ensures SrcBits(Normalize(w)) <= 32 && DstBits(Normalize(w)) <= 32
  {
    SrcCapped(w);
    DstCapped(CapSrc(w));
  }

  lemma SrcCapped(w: bv32)
    ensures SrcBits(CapSrc(w)) <= 32 && SrcBits(CapDst(CapSrc(w))) == SrcBits(CapSrc(w))
  {
  }

  lemma DstCapped(w: bv32)
    ensures DstBits(CapDst(w)) <= 32
  {
  }

  lemma HiddenAlready(fl: Flags, m: Match)
    requires var f := Read(fl, m); Relevant(f) == f
    ensures var f := Read(fl, m); Hide(fl, LayerOf(f.dlType, f.nwProto)) == fl
  {
  }

  lemma OthersSettled(w: bv32, layer: Layer)
    requires SrcBits(w) <= 32 && DstBits(w) <= 32 && !layer.Unknown?
    requires layer.Resolution? ==> Wild(w, NW_TOS)
    requires !layer.Transport? ==> Wild(w, TP_SRC) && Wild(w, TP_DST)
    ensures Normalize(w | Ignored(layer)) == w
  {
    AlreadySet(w, layer);
    AlreadyCapped(w);
  }

  lemma AlreadySet(w: bv32, layer: Layer)
    requires !layer.Unknown? && (layer.Resolution? ==> Wild(w, NW_TOS))
    requires !layer.Transport? ==> Wild(w, TP_SRC) && Wild(w, TP_DST)
    ensures w | Ignored(layer) == w
  {
  }

  lemma AlreadyCapped(w: bv32)
    requires SrcBits(w) <= 32 && DstBits(w) <= 32
    ensures Normalize(w) == w
  {
  }

  lemma UnknownSettled(w: bv32)
    requires SrcBits(w) <= 32 && DstBits(w) <= 32
    requires Wild(w, NW_TOS) && Wild(w, NW_PROTO) && Wild(w, NW_SRC_ALL) && Wild(w, NW_DST_ALL)
    requires Wild(w, TP_SRC) && Wild(w, TP_DST)
    ensures Normalize(w | Ignored(Unknown)) == w
  {
  }

  /** A match equals what packing and unpacking makes of it exactly when its ignored fields are wildcarded
      and its counts of free address bits are at most 32. */
  lemma RoundTripSame(m: Match)
    ensures Same(Unwired(Wired(m)), m) <==> Settled(m)
  {
    RoundTripView(m);
    WildcardsAfter(m);
    var layer := LayerOf(View(m).dlType, View(m).nwProto);
    CountsAfter(m.wildcards | Ignored(layer));
    if Settled(m) {
      SettledWildcards(m);
    }
  }

  lemma HiddenBits(w: bv32, layer: Layer)
    requires Hide(FlagsOf(w), layer) == FlagsOf(w)
    ensures layer.Unknown? ==> Wild(w, NW_TOS) && Wild(w, NW_PROTO) && Wild(w, NW_SRC_ALL) && Wild(w, NW_DST_ALL)
    ensures layer.Resolution? ==> Wild(w, NW_TOS)
    ensures !layer.Transport? ==> Wild(w, TP_SRC) && Wild(w, TP_DST)
  {
  }

  lemma HiddenSettled(w: bv32, layer: Layer)
    requires SrcBits(w) <= 32 && DstBits(w) <= 32 && Hide(FlagsOf(w), layer) == FlagsOf(w)
    ensures Normalize(w | Ignored(layer)) == w
  {
    HiddenBits(w, layer);
    if layer.Unknown? {
      UnknownSettled(w);
    } else {
      OthersSettled(w, layer);
    }
  }

  lemma SettledHides(m: Match)
    requires Relevant(View(m)) == View(m)
    ensures Hide(FlagsOf(m.wildcards), LayerOf(View(m).dlType, View(m).nwProto)) == FlagsOf(m.wildcards)
  {
    ViewIsRead(m);
    HiddenAlready(FlagsOf(m.wildcards), m);
  }

  lemma SettledWildcards(m: Match)
    requires Settled(m)
    ensures Unwired(Wired(m)).wildcards == m.wildcards
  {
    var layer := LayerOf(View(m).dlType, View(m).nwProto);
    SettledHides(m);
    HiddenSettled(m.wildcards, layer);
    WildcardsAfter(m);
  }

  lemma RelevantTwice(f: Fields)
    ensures Relevant(Relevant(f)) == Relevant(f) && Values(Relevant(f)) == Values(f)
  {
  }

  /** For any match, packing and unpacking is a normalisation: doing it again changes nothing. */
  lemma RoundTripTwice(m: Match)
    ensures var m' := Unwired(Wired(m)); Settled(m') && Unwired(Wired(m')) == m'
  {
    var m' := Unwired(Wired(m));
    RoundTripView(m);
    RelevantTwice(View(m));
    CountsAfter(m.wildcards | Ignored(LayerOf(View(m).dlType, View(m).nwProto)));
    WildcardsAfter(m);
    SettledWildcards(m');
  }
}
