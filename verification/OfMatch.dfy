/**
 Project-4/pox/pox/openflow/libopenflow_01.py, `ofp_match`: which fields a match shows, when one match
 contains another, and the prefix test of Project-4/pox/pox/lib/addresses.py it rests on.
 */
module OfMatch {
  import opened Wrappers

  // Bits of `wildcards`; the two address fields have a six-bit count of free low bits each.
  const IN_PORT: bv32 := 0x1
  const DL_VLAN: bv32 := 0x2
  const DL_SRC: bv32 := 0x4
  const DL_DST: bv32 := 0x8
  const DL_TYPE: bv32 := 0x10
  const NW_PROTO: bv32 := 0x20
  const TP_SRC: bv32 := 0x40
  const TP_DST: bv32 := 0x80
  const NW_SRC_MASK: bv32 := 0x3F00
  const NW_SRC_ALL: bv32 := 0x2000
  const NW_DST_MASK: bv32 := 0xF_C000
  const NW_DST_ALL: bv32 := 0x8_0000
  const DL_VLAN_PCP: bv32 := 0x10_0000
  const NW_TOS: bv32 := 0x20_0000
  const ALL: bv32 := 0x3F_FFFF

  /** The fields as stored; `wildcards` says which of them count. */
  datatype Match = Match(
    wildcards: bv32,
    inPort: bv16, dlSrc: bv48, dlDst: bv48, dlVlan: bv16, dlVlanPcp: bv8, dlType: bv16,
    nwTos: bv8, nwProto: bv8, nwSrc: bv32, nwDst: bv32, tpSrc: bv16, tpDst: bv16)

  type Bits = w: bv32 | w < 32 witness 0

  /** A network: an address and the number of low bits that do not count. */
  datatype Prefix = Prefix(addr: bv32, wild: Bits)

  /** What reading the attributes of a match gives: None where the field is wildcarded. */
  datatype Fields = Fields(
    inPort: Option<bv16>, dlSrc: Option<bv48>, dlDst: Option<bv48>, dlVlan: Option<bv16>,
    dlVlanPcp: Option<bv8>, dlType: Option<bv16>, nwTos: Option<bv8>, nwProto: Option<bv8>,
    nwSrc: Option<Prefix>, nwDst: Option<Prefix>, tpSrc: Option<bv16>, tpDst: Option<bv16>)

  function Shown<T>(wildcards: bv32, bit: bv32, v: T): Option<T> {
    if wildcards & bit == bit then None else Some(v)
  }

  function SrcBits(wildcards: bv32): bv32 { (wildcards & NW_SRC_MASK) >> 8 }

  function DstBits(wildcards: bv32): bv32 { (wildcards & NW_DST_MASK) >> 14 }

  /** `get_nw_src`; with the top bit of the count set the whole address is wildcarded. */
  function NwSrc(m: Match): Option<Prefix> {
    if m.wildcards & NW_SRC_ALL == NW_SRC_ALL then None else Some(Prefix(m.nwSrc, SrcBits(m.wildcards)))
  }

  function NwDst(m: Match): Option<Prefix> {
    if m.wildcards & NW_DST_ALL == NW_DST_ALL then None else Some(Prefix(m.nwDst, DstBits(m.wildcards)))
  }

  function View(m: Match): Fields {
    var w := m.wildcards;
    Fields(Shown(w, IN_PORT, m.inPort), Shown(w, DL_SRC, m.dlSrc), Shown(w, DL_DST, m.dlDst),
           Shown(w, DL_VLAN, m.dlVlan), Shown(w, DL_VLAN_PCP, m.dlVlanPcp), Shown(w, DL_TYPE, m.dlType),
           Shown(w, NW_TOS, m.nwTos), Shown(w, NW_PROTO, m.nwProto), NwSrc(m), NwDst(m),
           Shown(w, TP_SRC, m.tpSrc), Shown(w, TP_DST, m.tpDst))
  }

  /** `__eq__`. */
  predicate Same(a: Match, b: Match) {
    a.wildcards == b.wildcards && View(a) == View(b)
  }

  // ---- matches_with_wildcards

  predicate Fits<T(==)>(mine: Option<T>, others: Option<T>) {
    mine.None? || mine == others
  }

  /** Comparing an EthAddr with None builds EthAddr(None), which is all zeros: so an all-zero address
      counts as None on either side. */
  predicate EthFits(mine: Option<bv48>, others: Option<bv48>) {
    mine.None? || mine.value == 0 || mine.value == (if others.Some? then others.value else 0)
  }

  /** The bits that count when the low `wild` are free. */
  function NetMask(wild: Bits): bv32 {
    var one: bv32 := 1;
    !((one << wild) - 1)
  }

  /** `IPAddr.inNetwork`. */
  predicate InNetwork(addr: bv32, net: Prefix) {
    addr & NetMask(net.wild) == net.addr
  }

  /** The longer prefix is the one with fewer free bits; a wildcarded address has length 0. */
  predicate NetFits(mine: Option<Prefix>, others: Option<Prefix>) {
    mine.None? || (others.Some? && mine.value.wild >= others.value.wild && InNetwork(others.value.addr, mine.value))
  }

  predicate Covers(a: Fields, b: Fields) {
    && Fits(a.inPort, b.inPort) && Fits(a.dlVlan, b.dlVlan)
    && EthFits(a.dlSrc, b.dlSrc) && EthFits(a.dlDst, b.dlDst)
    && Fits(a.dlType, b.dlType) && Fits(a.nwProto, b.nwProto)
    && Fits(a.tpSrc, b.tpSrc) && Fits(a.tpDst, b.tpDst)
    && Fits(a.dlVlanPcp, b.dlVlanPcp) && Fits(a.nwTos, b.nwTos)
    && NetFits(a.nwSrc, b.nwSrc) && NetFits(a.nwDst, b.nwDst)
  }

  /** Every wildcard bit of `b` outside the two counts is also one of `a`. */
  predicate BitsContained(a: bv32, b: bv32) {
    var keep := !(NW_SRC_MASK | NW_DST_MASK);
    (a & keep) | (b & keep) == a & keep
  }

  predicate Matches(a: Match, b: Match, considerOther: bool) {
    Same(a, b) || ((considerOther ==> BitsContained(a.wildcards, b.wildcards)) && Covers(View(a), View(b)))
  }

  /** The test of a flow entry against a packet's match. */
  predicate Accepts(m: Match, packet: Match) { Matches(m, packet, false) }

  // ---- soundness

  lemma NetTrans(a: Prefix, b: Prefix, addr: bv32)
    requires a.wild >= b.wild && InNetwork(b.addr, a) && InNetwork(addr, b)
    ensures InNetwork(addr, a)
  {
  }

  lemma NetFitsTrans(a: Option<Prefix>, b: Option<Prefix>, c: Option<Prefix>)
    requires NetFits(a, b) && NetFits(b, c)
    ensures NetFits(a, c)
  {
    if a.Some? {
      NetTrans(a.value, b.value, c.value.addr);
    }
  }

  lemma CoversTrans(a: Fields, b: Fields, c: Fields)
    requires Covers(a, b) && Covers(b, c)
    ensures Covers(a, c)
  {
    NetFitsTrans(a.nwSrc, b.nwSrc, c.nwSrc);
    NetFitsTrans(a.nwDst, b.nwDst, c.nwDst);
  }

  /** If one match contains another, it accepts every packet the other accepts: through every field,
      both prefixes and the shortcut for equal matches. */
  lemma ContainmentIsSound(a: Match, b: Match, packet: Match)
    requires Matches(a, b, true) && Accepts(b, packet)
    ensures Accepts(a, packet)
  {
    if !Same(a, b) && !Same(b, packet) {
      CoversTrans(View(a), View(b), View(packet));
    }
  }

  // ---- transitivity

  lemma ContainmentIsTransitive(a: Match, b: Match, c: Match)
    requires Matches(a, b, true) && Matches(b, c, true)
    ensures Matches(a, c, true)
  {
    if !Same(a, b) && !Same(b, c) {
      CoversTrans(View(a), View(b), View(c));
    }
  }

  // ---- exactness

  /** No address bits set that a shown prefix does not count. */
  predicate PrefixesOk(m: Match) {
    && (NwSrc(m).Some? ==> InNetwork(m.nwSrc, NwSrc(m).value))
    && (NwDst(m).Some? ==> InNetwork(m.nwDst, NwDst(m).value))
  }

  /** The bits of `wildcards` no field uses. */
  predicate SpareBitsContained(a: bv32, b: bv32) {
    b & !ALL & !a == 0
  }

  /** An all-zero address where the other match has none. */
  predicate ZeroOverNone(mine: Option<bv48>, others: Option<bv48>) {
    mine == Some(0) && others.None?
  }

  /** The headers of a packet with every field present. */
  predicate Exact(p: Match) { p.wildcards == 0 }

  lemma CoversItself(m: Match)
    requires PrefixesOk(m)
    ensures Covers(View(m), View(m))
  {
  }

  lemma CoversSame(a: Match, b: Match)
    requires PrefixesOk(a) && Same(a, b)
    ensures Covers(View(a), View(b))
  {
    CoversItself(a);
  }

  /** An exact match's prefixes have no stray bits. */
  lemma ExactPrefixes(p: Match)
    requires Exact(p)
    ensures PrefixesOk(p)
  {
  }

  lemma SamePrefixes(a: Match, b: Match)
    requires Same(a, b)
    ensures PrefixesOk(a) == PrefixesOk(b)
  {
  }

  lemma AcceptsIsCovers(m: Match, p: Match)
    requires Exact(p)
    ensures Accepts(m, p) <==> Covers(View(m), View(p))
  {
    if Same(m, p) {
      ExactPrefixes(p);
      SamePrefixes(m, p);
      CoversSame(m, p);
    }
  }

  // A packet that `b` accepts and, wherever `a` does not cover `b`, one that `a` rejects.

  function Pick<T>(fixed: Option<T>, other: T): T {
    if fixed.Some? then fixed.value else other
  }

  function Other8(mine: Option<bv8>): bv8 { if mine.Some? then mine.value + 1 else 0 }

  function Other16(mine: Option<bv16>): bv16 { if mine.Some? then mine.value + 1 else 0 }

  function Other48(mine: Option<bv48>): bv48 { if mine.Some? then mine.value + 1 else 0 }

  function TopFreeBit(wild: Bits): bv32
    requires wild > 0
  {
    var one: bv32 := 1;
    one << (wild - 1)
  }

  /** `q` with its highest free bit the opposite of that bit in `p`. */
  function Flip(q: bv32, wild: Bits, p: bv32): bv32
    requires wild > 0
  {
    q | (!p & TopFreeBit(wild))
  }

  function PickAddr(mine: Option<Prefix>, fixed: Option<Prefix>): bv32 {
    if fixed.None? then
      if mine.Some? then !mine.value.addr else 0
    else if mine.Some? && mine.value.wild < fixed.value.wild then
      Flip(fixed.value.addr, fixed.value.wild, mine.value.addr)
    else fixed.value.addr
  }

  /** An all-zero address of the second match demands nothing, so it need not be kept. */
  function PickEth(fixed: Option<bv48>, other: bv48): bv48 {
    if fixed.Some? && fixed.value != 0 then fixed.value else other
  }

  function Separator(a: Fields, b: Fields): Match {
    Match(0, Pick(b.inPort, Other16(a.inPort)), PickEth(b.dlSrc, Other48(a.dlSrc)), PickEth(b.dlDst, Other48(a.dlDst)),
          Pick(b.dlVlan, Other16(a.dlVlan)), Pick(b.dlVlanPcp, Other8(a.dlVlanPcp)), Pick(b.dlType, Other16(a.dlType)),
          Pick(b.nwTos, Other8(a.nwTos)), Pick(b.nwProto, Other8(a.nwProto)),
          PickAddr(a.nwSrc, b.nwSrc), PickAddr(a.nwDst, b.nwDst),
          Pick(b.tpSrc, Other16(a.tpSrc)), Pick(b.tpDst, Other16(a.tpDst)))
  }

  lemma FlipStaysIn(a: Prefix, b: Prefix)
    requires a.wild < b.wild && InNetwork(b.addr, b)
    ensures InNetwork(Flip(b.addr, b.wild, a.addr), b)
  {
  }

  lemma PickStaysIn(a: Option<Prefix>, b: Prefix)
    requires InNetwork(b.addr, b)
    ensures InNetwork(PickAddr(a, Some(b)), b)
  {
    if a.Some? && a.value.wild < b.wild {
      FlipStaysIn(a.value, b);
    }
  }

  /** Where every field fits, the wildcard bits do too, but for the spare ones and an all-zero address over none. */
  lemma CoversContainsBits(a: Match, b: Match)
    requires Covers(View(a), View(b)) && SpareBitsContained(a.wildcards, b.wildcards)
    requires !ZeroOverNone(View(a).dlSrc, View(b).dlSrc) && !ZeroOverNone(View(a).dlDst, View(b).dlDst)
    ensures BitsContained(a.wildcards, b.wildcards)
  {
  }

  lemma MatchesGivesRest(a: Match, b: Match)
    requires Matches(a, b, true)
    ensures SpareBitsContained(a.wildcards, b.wildcards)
    ensures !ZeroOverNone(View(a).dlSrc, View(b).dlSrc) && !ZeroOverNone(View(a).dlDst, View(b).dlDst)
  {
  }

  /**
   `matches_with_wildcards` is containment: if `b`'s prefixes have no stray bits, it holds exactly when every packet
   `b` accepts is accepted by `a`, with two exceptions: wildcard bits no field uses are compared as well, and an
   all-zero hardware address, which accepts everything, is not recognised as containing a wildcarded one.
   */
  lemma ContainmentIsExact(a: Match, b: Match)
    requires PrefixesOk(b)
    ensures Matches(a, b, true)
       <==> && (forall p :: Exact(p) && Accepts(b, p) ==> Accepts(a, p))
            && SpareBitsContained(a.wildcards, b.wildcards)
            && !ZeroOverNone(View(a).dlSrc, View(b).dlSrc)
            && !ZeroOverNone(View(a).dlDst, View(b).dlDst)
  {
    if Matches(a, b, true) {
      MatchesGivesRest(a, b);
      forall p | Exact(p) && Accepts(b, p) ensures Accepts(a, p) {
        ContainmentIsSound(a, b, p);
      }
    } else if Covers(View(a), View(b)) {
      if SpareBitsContained(a.wildcards, b.wildcards)
        && !ZeroOverNone(View(a).dlSrc, View(b).dlSrc) && !ZeroOverNone(View(a).dlDst, View(b).dlDst)
      {
        CoversContainsBits(a, b);
      }
    } else {
      var p := Separator(View(a), View(b));
      SeparatorAccepted(a, b);
      SeparatorRejected(a, b);
      assert Exact(p) && Accepts(b, p) && !Accepts(a, p);
    }
  }

  lemma SeparatorAccepted(a: Match, b: Match)
    requires PrefixesOk(b)
    ensures Accepts(b, Separator(View(a), View(b)))
  {
    var p := Separator(View(a), View(b));
    if NwSrc(b).Some? {
      PickStaysIn(NwSrc(a), NwSrc(b).value);
    }
    if NwDst(b).Some? {
      PickStaysIn(NwDst(a), NwDst(b).value);
    }
    assert Covers(View(b), View(p));
  }

  lemma AddrDiffers(a: Option<Prefix>, b: Option<Prefix>)
    requires b.Some? ==> InNetwork(b.value.addr, b.value)
    ensures NetFits(a, Some(Prefix(PickAddr(a, b), 0))) ==> NetFits(a, b)
  {
  }

  lemma SeparatorRejected(a: Match, b: Match)
    requires PrefixesOk(b) && !Covers(View(a), View(b))
    ensures !Accepts(a, Separator(View(a), View(b)))
  {
    var f, g := View(a), View(b);
    AcceptsIsCovers(a, Separator(f, g));
    SeparatorFits(f, g);
  }

  lemma SeparatorFits(f: Fields, g: Fields)
    requires g.nwSrc.Some? ==> InNetwork(g.nwSrc.value.addr, g.nwSrc.value)
    requires g.nwDst.Some? ==> InNetwork(g.nwDst.value.addr, g.nwDst.value)
    ensures Covers(f, View(Separator(f, g))) ==> Covers(f, g)
  {
    AddrDiffers(f.nwSrc, g.nwSrc);
    AddrDiffers(f.nwDst, g.nwDst);
  }

  // ---- demands that are not honoured

  lemma ZeroSourceAccepts(m: Match)
    requires PrefixesOk(m) && View(m).dlSrc == Some(0)
    ensures Covers(View(m), View(m.(wildcards := 0, dlSrc := 1)))
  {
  }

  lemma SourceHonoured(m: Match, p: Match)
    requires View(m).dlSrc.Some? && m.dlSrc != 0 && Exact(p) && Accepts(m, p)
    ensures p.dlSrc == m.dlSrc
  {
    AcceptsIsCovers(m, p);
  }

  /** Demanding a source address works exactly when it is not all zeros; a match with stray prefix bits accepts no
      packet at all. */
  lemma ZeroSourceIsNoDemand(m: Match)
    requires View(m).dlSrc.Some?
    ensures (forall p :: Exact(p) && Accepts(m, p) ==> p.dlSrc == m.dlSrc) <==> m.dlSrc != 0 || !PrefixesOk(m)
  {
    if m.dlSrc != 0 {
      forall p | Exact(p) && Accepts(m, p) ensures p.dlSrc == m.dlSrc {
        SourceHonoured(m, p);
      }
    } else if PrefixesOk(m) {
      var p := m.(wildcards := 0, dlSrc := 1);
      ZeroSourceAccepts(m);
      assert Exact(p) && Accepts(m, p) && p.dlSrc != m.dlSrc;
    } else {
      forall p | Exact(p) ensures !Accepts(m, p) {
        StrayBitsMatchNothing(m, p);
      }
    }
  }

  lemma ZeroDestinationAccepts(m: Match)
    requires PrefixesOk(m) && View(m).dlDst == Some(0)
    ensures Covers(View(m), View(m.(wildcards := 0, dlDst := 1)))
  {
  }

  lemma DestinationHonoured(m: Match, p: Match)
    requires View(m).dlDst.Some? && m.dlDst != 0 && Exact(p) && Accepts(m, p)
    ensures p.dlDst == m.dlDst
  {
    AcceptsIsCovers(m, p);
  }

  lemma ZeroDestinationIsNoDemand(m: Match)
    requires View(m).dlDst.Some?
    ensures (forall p :: Exact(p) && Accepts(m, p) ==> p.dlDst == m.dlDst) <==> m.dlDst != 0 || !PrefixesOk(m)
  {
    if m.dlDst != 0 {
      forall p | Exact(p) && Accepts(m, p) ensures p.dlDst == m.dlDst {
        DestinationHonoured(m, p);
      }
    } else if PrefixesOk(m) {
      var p := m.(wildcards := 0, dlDst := 1);
      ZeroDestinationAccepts(m);
      assert Exact(p) && Accepts(m, p) && p.dlDst != m.dlDst;
    } else {
      forall p | Exact(p) ensures !Accepts(m, p) {
        StrayBitsMatchNothing(m, p);
      }
    }
  }

  /** `ofp_match()`: all fields wildcarded, the two counts brought down to 32. */
  const ANYTHING := Match(0x38_20FF, 0, 0, 0, 0, 0, 0, 0, 0, 0, 0, 0, 0)

  /** `ofp_match(dl_src = EthAddr(0))` accepts every packet, yet is not recognised as containing `ofp_match()`. */
  lemma ZeroSourceAcceptsAll(p: Match)
    ensures var m := ANYTHING.(wildcards := 0x38_20FB);
            View(m).dlSrc == Some(0) && Accepts(m, p) && !Matches(m, ANYTHING, true)
  {
  }

  /** A prefix with bits set below its length matches nothing but a match equal to it. */
  lemma StrayBitsMatchNothing(m: Match, packet: Match)
    requires !PrefixesOk(m)
    ensures Accepts(m, packet) <==> Same(m, packet)
    ensures Exact(packet) ==> !Accepts(m, packet)
  {
  }
}
