/** The action classes of Project-4/pox/pox/openflow/libopenflow_01.py on the wire, and `_unpack_actions`. */
module OfActions {
  import opened Wrappers
  import opened OfBytes

  const OFPP_CONTROLLER: bv16 := 65533

  /** Where `length` is a field, the class reports it as its own length; the other classes report 8 or 16. */
  datatype Action =
    | Output(port: bv16, maxLen: bv16)
    | VlanVid(vid: bv16)
    | VlanPcp(pcp: bv8)
    | DlAddr(dst: bool, dlAddr: bv48)
    | NwAddr(dst: bool, nwAddr: bv32)
    | NwTos(tos: bv8)
    | TpPort(dst: bool, tpPort: bv16)
    | Enqueue(port: bv16, queueId: bv32)
    | MplsLabel(length: Length, mplsLabel: bv32)
    | MplsTc(length: Length, tc: bv8)
    | MplsTtl(length: Length, ttl: bv8)
    | PushMpls(length: Length, ethertype: bv16)
    | PopMpls(length: Length, ethertype: bv16)
    | Header(kind: bv16, length: Length)
    | VendorHeader(vendor: bv32)

  const OFPAT_VENDOR: bv16 := 0xFFFF

  /** The type field of each class; `Header` is the generic one, and stands for DEC_MPLS_TTL and RESUBMIT too. */
  function TypeOf(a: Action): bv16 {
    match a
    case Output(_, _) => 0
    case VlanVid(_) => 1
    case VlanPcp(_) => 2
    case DlAddr(dst, _) => if dst then 5 else 4
    case NwAddr(dst, _) => if dst then 7 else 6
    case NwTos(_) => 8
    case TpPort(dst, _) => if dst then 10 else 9
    case Enqueue(_, _) => 11
    case MplsLabel(_, _) => 13
    case MplsTc(_, _) => 14
    case MplsTtl(_, _) => 15
    case PushMpls(_, _) => 19
    case PopMpls(_, _) => 20
    case Header(kind, _) => kind
    case VendorHeader(_) => OFPAT_VENDOR
  }

  /** `__len__`. */
  function Len(a: Action): Length {
    if a.DlAddr? || a.Enqueue? then 16
    else if a.MplsLabel? || a.MplsTc? || a.MplsTtl? || a.PushMpls? || a.PopMpls? || a.Header? then a.length
    else 8
  }

  /** Types that some class other than the generic header decodes. */
  predicate HasOwnClass(kind: bv16) {
    kind <= 2 || 4 <= kind <= 11 || 13 <= kind <= 15 || kind == 19 || kind == 20
  }

  /** An action as its constructor makes it. */
  predicate Made(a: Action) { Len(a) == 8 || a.DlAddr? || a.Enqueue? }

  /** Neither a vendor action, whose type has no entry in the table of classes, nor a generic header with a type
      that some class decodes. */
  predicate Plain(a: Action) { !a.VendorHeader? && (a.Header? ==> !HasOwnClass(a.kind)) }

  /** `_assert`: only pushing an MPLS header checks anything. */
  predicate Packable(a: Action) { a.PushMpls? ==> a.ethertype == 0x8847 || a.ethertype == 0x8848 }

  /** `pack` of an output action first clears `max_len` unless the port is the controller. */
  function Packed(a: Action): Action {
    if a.Output? && a.port != OFPP_CONTROLLER then a.(maxLen := 0) else a
  }

  /** What follows the type and length. */
  function Body(a: Action): (r: seq<Byte>)
    ensures |r| == if a.DlAddr? || a.Enqueue? then 12 else 4
  {
    match a
    case Output(port, maxLen) => U16(port) + U16(maxLen)
    case VlanVid(vid) => U16(vid) + [0, 0]
    case VlanPcp(pcp) => [pcp, 0, 0, 0]
    case DlAddr(_, addr) => U48(addr) + [0, 0, 0, 0, 0, 0]
    case NwAddr(_, addr) => U32(addr)
    case NwTos(tos) => [tos, 0, 0, 0]
    case TpPort(_, port) => U16(port) + [0, 0]
    case Enqueue(port, queueId) => U16(port) + ([0, 0, 0, 0, 0, 0] + U32(queueId))
    case MplsLabel(_, value) => U32(value)
    case MplsTc(_, tc) => [tc, 0, 0, 0]
    case MplsTtl(_, ttl) => [ttl, 0, 0, 0]
    case PushMpls(_, ethertype) => U16(ethertype) + [0, 0]
    case PopMpls(_, ethertype) => U16(ethertype) + [0, 0]
    case Header(_, _) => [0, 0, 0, 0]
    case VendorHeader(vendor) => U32(vendor)
  }

  function Bytes(a: Action): (r: seq<Byte>)
    ensures |r| == if a.DlAddr? || a.Enqueue? then 16 else 8
  {
    U16(TypeOf(a)) + (ULen(Len(a)) + Body(Packed(a)))
  }

  /** `unpack` on the `l` bytes of one action; None where the assertion on the length fails. A slice
      shorter than the class needs leaves the default length of 8 or 16, which is not `l`. */
  function Decode(kind: bv16, s: seq<Byte>): (r: Option<Action>)
    requires |s| < 0x1_0000
    ensures r.Some? ==> |s| >= 8
  {
    var l := |s|;
    if l < 8 then None
    else if kind == 0 then if l == 8 then Some(Output(Get16(s[4..6]), Get16(s[6..8]))) else None
    else if kind == 1 then if l == 8 then Some(VlanVid(Get16(s[4..6]))) else None
    else if kind == 2 then if l == 8 then Some(VlanPcp(s[4])) else None
    else if kind == 4 || kind == 5 then if l == 16 then Some(DlAddr(kind == 5, Get48(s[4..10]))) else None
    else if kind == 6 || kind == 7 then if l == 8 then Some(NwAddr(kind == 7, Get32(s[4..8]))) else None
    else if kind == 8 then if l == 8 then Some(NwTos(s[4])) else None
    else if kind == 9 || kind == 10 then if l == 8 then Some(TpPort(kind == 10, Get16(s[4..6]))) else None
    else if kind == 11 then if l == 16 then Some(Enqueue(Get16(s[4..6]), Get32(s[12..16]))) else None
    else if kind == 13 then Some(MplsLabel(l, Get32(s[4..8])))
    else if kind == 14 then Some(MplsTc(l, s[4]))
    else if kind == 15 then Some(MplsTtl(l, s[4]))
    else if kind == 19 then Some(PushMpls(l, Get16(s[4..6])))
    else if kind == 20 then Some(PopMpls(l, Get16(s[4..6])))
    else Some(Header(kind, l))
  }

  // ---- one action there and back

  lemma HeadOf(a: Action)
    ensures var s := Bytes(a);
            s[0..2] == U16(TypeOf(a)) && s[2..4] == ULen(Len(a)) && s[4..] == Body(Packed(a))
  {
  }

  lemma HalfWordRoundTrip(a: Action)
    requires Made(a) && (a.VlanVid? || a.TpPort? || a.PushMpls? || a.PopMpls?)
    ensures Decode(TypeOf(a), Bytes(a)) == Some(a)
  {
    var x := if a.VlanVid? then a.vid else if a.TpPort? then a.tpPort else a.ethertype;
    HeadOf(a);
    assert Bytes(a)[4..6] == Bytes(a)[4..][..2] == U16(x);
    Inverse16(x);
  }

  lemma WordRoundTrip(a: Action)
    requires Made(a) && (a.NwAddr? || a.MplsLabel?)
    ensures Decode(TypeOf(a), Bytes(a)) == Some(a)
  {
    var x := if a.NwAddr? then a.nwAddr else a.mplsLabel;
    HeadOf(a);
    assert Bytes(a)[4..8] == Bytes(a)[4..] == U32(x);
    Inverse32(x);
  }

  lemma ByteRoundTrip(a: Action)
    requires Made(a) && (a.VlanPcp? || a.NwTos? || a.MplsTc? || a.MplsTtl?)
    ensures Decode(TypeOf(a), Bytes(a)) == Some(a)
  {
    HeadOf(a);
    assert Bytes(a)[4] == Body(a)[0];
  }

  lemma OutputRoundTrip(a: Action)
    requires a.Output?
    ensures Decode(TypeOf(a), Bytes(a)) == Some(Packed(a))
  {
    var s, p := Bytes(a), Packed(a);
    HeadOf(a);
    assert s[4..6] == s[4..][..2] == U16(p.port) && s[6..8] == s[4..][2..] == U16(p.maxLen);
    Inverse16(p.port);
    Inverse16(p.maxLen);
  }

  lemma EnqueueRoundTrip(a: Action)
    requires a.Enqueue?
    ensures Decode(TypeOf(a), Bytes(a)) == Some(a)
  {
    var s := Bytes(a);
    HeadOf(a);
    assert s[4..6] == s[4..][..2] == U16(a.port) && s[12..16] == s[4..][8..] == U32(a.queueId);
    Inverse16(a.port);
    Inverse32(a.queueId);
  }

  lemma DlAddrRoundTrip(a: Action)
    requires a.DlAddr?
    ensures Decode(TypeOf(a), Bytes(a)) == Some(a)
  {
    HeadOf(a);
    assert Bytes(a)[4..10] == Bytes(a)[4..][..6] == U48(a.dlAddr);
    Inverse48(a.dlAddr);
  }

  /** The eight-byte action of a type with every field zero; none for the types whose class takes sixteen bytes. */
  function Zeroed(kind: bv16): Option<Action>
    requires HasOwnClass(kind)
  {
    if kind == 0 then Some(Output(0, 0))
    else if kind == 1 then Some(VlanVid(0))
    else if kind == 2 then Some(VlanPcp(0))
    else if kind == 6 || kind == 7 then Some(NwAddr(kind == 7, 0))
    else if kind == 8 then Some(NwTos(0))
    else if kind == 9 || kind == 10 then Some(TpPort(kind == 10, 0))
    else if kind == 13 then Some(MplsLabel(8, 0))
    else if kind == 14 then Some(MplsTc(8, 0))
    else if kind == 15 then Some(MplsTtl(8, 0))
    else if kind == 19 then Some(PushMpls(8, 0))
    else if kind == 20 then Some(PopMpls(8, 0))
    else None
  }

  /** What unpacking makes of a packed action, or None where it stops at its assertion. */
  function Returned(a: Action): Option<Action> {
    if a.VendorHeader? then Some(Header(OFPAT_VENDOR, 8))
    else if a.Header? && HasOwnClass(a.kind) then Zeroed(a.kind)
    else Some(Packed(a))
  }

  lemma ZeroBytes(s: seq<Byte>)
    requires |s| == 8 && s[4..] == [0, 0, 0, 0]
    ensures Get16(s[4..6]) == 0 && Get16(s[6..8]) == 0 && s[4] == 0 && Get32(s[4..8]) == 0
  {
    assert s[4..6] == s[4..][..2] && s[6..8] == s[4..][2..] && s[4] == s[4..][0] && s[4..8] == s[4..];
  }

  lemma HeaderReturns(a: Action)
    requires Made(a) && (a.Header? || a.VendorHeader?)
    ensures Decode(TypeOf(a), Bytes(a)) == Returned(a)
  {
    HeadOf(a);
    if a.Header? {
      ZeroBytes(Bytes(a));
    }
  }

  /** Every action its constructor makes, on its way there and back. */
  lemma ActionRoundTrip(a: Action)
    requires Made(a)
    ensures Decode(TypeOf(a), Bytes(a)) == Returned(a)
  {
    if a.Output? {
      OutputRoundTrip(a);
    } else if a.Enqueue? {
      EnqueueRoundTrip(a);
    } else if a.DlAddr? {
      DlAddrRoundTrip(a);
    } else if a.NwAddr? || a.MplsLabel? {
      WordRoundTrip(a);
    } else if a.VlanPcp? || a.NwTos? || a.MplsTc? || a.MplsTtl? {
      ByteRoundTrip(a);
    } else if a.Header? || a.VendorHeader? {
      HeaderReturns(a);
    } else {
      HalfWordRoundTrip(a);
    }
  }

  // ---- lists of actions

  function AllBytes(actions: seq<Action>): (r: seq<Byte>)
    ensures |r| >= 8 * |actions|
  {
    if actions == [] then [] else Bytes(actions[0]) + AllBytes(actions[1..])
  }

  function AllPacked(actions: seq<Action>): (r: seq<Action>)
    ensures |r| == |actions|
  {
    if actions == [] then [] else [Packed(actions[0])] + AllPacked(actions[1..])
  }

  /** What unpacking makes of a list, or None where one of its actions stops it. */
  function AllReturned(actions: seq<Action>): Option<seq<Action>> {
    if actions == [] then Some([])
    else
      var first, rest := Returned(actions[0]), AllReturned(actions[1..]);
      if first.None? || rest.None? then None else Some([first.value] + rest.value)
  }

  /** The list and next offset, or the exception. */
  datatype Parse = Parsed(actions: seq<Action>, offset: nat) | StructError | AssertionFailed

  /** The loop of `_unpack_actions`, from `offset` to `end` with `done` already read. An action that runs
      past the buffer empties the list. */
  function ParseFrom(b: seq<Byte>, offset: nat, end: int, done: seq<Action>): Parse
    decreases end - offset
  {
    if offset >= end then Parsed(done, offset)
    else if |b| < offset + 4 then StructError
    else
      var l := GetLen(b[offset + 2..offset + 4]);
      if |b| - offset < l then Parsed([], offset)
      else
        var a := Decode(Get16(b[offset..offset + 2]), b[offset..offset + l]);
        if a.None? then AssertionFailed else ParseFrom(b, offset + l, end, done + [a.value])
  }

  function ParseActions(b: seq<Byte>, length: int, offset: nat): Parse {
    if |b| - offset < length then Parsed([], offset) else ParseFrom(b, offset, offset + length, [])
  }

  method UnpackActions(b: seq<Byte>, length: int, offset: nat) returns (r: Parse)
    ensures r == ParseActions(b, length, offset)
  {
    if |b| - offset < length {
      return Parsed([], offset);
    }
    var actions, at, end := [], offset, offset + length;
    while at < end
      invariant ParseFrom(b, at, end, actions) == ParseFrom(b, offset, end, [])
    {
      if |b| < at + 4 {
        return StructError;
      }
      var l := GetLen(b[at + 2..at + 4]);
      if |b| - at < l {
        return Parsed([], at);
      }
      var a := Decode(Get16(b[at..at + 2]), b[at..at + l]);
      if a.None? {
        return AssertionFailed;
      }
      actions := actions + [a.value];
      at := at + l;
    }
    return Parsed(actions, at);
  }

  lemma HeadStands(b: seq<Byte>, i: nat, s: seq<Byte>, kind: seq<Byte>, len: seq<Byte>)
    requires Stands(b, i, s) && |s| >= 4 && s[0..2] == kind && s[2..4] == len
    ensures b[i..i + 2] == kind && b[i + 2..i + 4] == len
  {
    SliceOfSlice(b, i, |s|, 0, 2);
    SliceOfSlice(b, i, |s|, 2, 4);
  }

  lemma ParseOne(b: seq<Byte>, i: nat, end: int, done: seq<Action>, a: Action)
    requires Made(a) && Stands(b, i, Bytes(a)) && i < end
    ensures ParseFrom(b, i, end, done)
         == match Returned(a) case None => AssertionFailed case Some(r) => ParseFrom(b, i + |Bytes(a)|, end, done + [r])
  {
    HeadOf(a);
    HeadStands(b, i, Bytes(a), U16(TypeOf(a)), ULen(Len(a)));
    Inverse16(TypeOf(a));
    InverseLen(Len(a));
    ActionRoundTrip(a);
  }

  lemma BytesStep(b: seq<Byte>, i: nat, actions: seq<Action>)
    requires actions != [] && Stands(b, i, AllBytes(actions))
    ensures Stands(b, i, Bytes(actions[0])) && Stands(b, i + |Bytes(actions[0])|, AllBytes(actions[1..]))
    ensures |AllBytes(actions)| == |Bytes(actions[0])| + |AllBytes(actions[1..])|
  {
    StandsSplit(b, i, Bytes(actions[0]), AllBytes(actions[1..]));
  }

  /** The parse of a list that comes back as `r`, after `done`. */
  function Ending(r: Option<seq<Action>>, done: seq<Action>, end: nat): Parse {
    if r.None? then AssertionFailed else Parsed(done + r.value, end)
  }

  lemma EndingStep(actions: seq<Action>, done: seq<Action>, end: nat)
    requires actions != []
    ensures var first := Returned(actions[0]);
            Ending(AllReturned(actions), done, end)
            == if first.None? then AssertionFailed else Ending(AllReturned(actions[1..]), done + [first.value], end)
  {
    var first, rest := Returned(actions[0]), AllReturned(actions[1..]);
    if first.Some? && rest.Some? {
      assert done + [first.value] + rest.value == done + ([first.value] + rest.value);
    }
  }

  /** The bytes of a list of actions parse to what unpacking makes of each, or fail with the first it stops at. */
  lemma {:induction false} ParseAll(b: seq<Byte>, i: nat, end: nat, done: seq<Action>, actions: seq<Action>)
    requires forall a :: a in actions ==> Made(a)
    requires Stands(b, i, AllBytes(actions)) && end == i + |AllBytes(actions)|
    ensures ParseFrom(b, i, end, done) == Ending(AllReturned(actions), done, end)
    decreases |actions|
  {
    if actions == [] {
      assert done + [] == done;
    } else {
      var first := Returned(actions[0]);
      BytesStep(b, i, actions);
      ParseOne(b, i, end, done, actions[0]);
      if first.Some? {
        ParseAll(b, i + |Bytes(actions[0])|, end, done + [first.value], actions[1..]);
      }
      EndingStep(actions, done, end);
    }
  }

  lemma ParseWhole(b: seq<Byte>, i: nat, end: nat, actions: seq<Action>)
    requires forall a :: a in actions ==> Made(a)
    requires Stands(b, i, AllBytes(actions)) && end == i + |AllBytes(actions)|
    ensures var r := AllReturned(actions);
            ParseActions(b, end - i, i) == if r.None? then AssertionFailed else Parsed(r.value, end)
  {
    ParseAll(b, i, end, [], actions);
    var r := AllReturned(actions);
    assert r.Some? ==> [] + r.value == r.value;
  }

  /** An action comes back as packing left it exactly when it is plain. */
  lemma PlainReturns(a: Action)
    ensures Returned(a) == Some(Packed(a)) <==> Plain(a)
  {
  }

  lemma ConsEqual(x: Action, s: seq<Action>, y: Action, t: seq<Action>)
    ensures [x] + s == [y] + t <==> x == y && s == t
  {
    if [x] + s == [y] + t {
      assert ([x] + s)[0] == x && ([x] + s)[1..] == s && ([y] + t)[0] == y && ([y] + t)[1..] == t;
    }
  }

  /** A list comes back as packing left it exactly when every action in it is plain. */
  lemma {:induction false} AllPlainReturn(actions: seq<Action>)
    ensures AllReturned(actions) == Some(AllPacked(actions)) <==> forall a :: a in actions ==> Plain(a)
    decreases |actions|
  {
    if actions != [] {
      var first, rest := Returned(actions[0]), AllReturned(actions[1..]);
      PlainReturns(actions[0]);
      AllPlainReturn(actions[1..]);
      if rest.Some? && first.Some? {
        ConsEqual(first.value, rest.value, Packed(actions[0]), AllPacked(actions[1..]));
      }
      assert forall a :: a in actions <==> a == actions[0] || a in actions[1..];
    }
  }
}
