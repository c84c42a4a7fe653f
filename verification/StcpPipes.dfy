/** What a stretch of packets in flight amounts to: bytes, acknowledgements, segment ends, a FIN. */
module StcpPipes {
  import opened Streams
  import opened StcpEndpoint

  predicate IsAck(p: Packet) { p.flags == TH_ACK }
  predicate IsFin(p: Packet) { p.flags == TH_FIN }
  predicate IsData(p: Packet) { !IsAck(p) && !IsFin(p) }

  /** ACK and FIN packets are bare headers; a data segment carries 1 to 536 bytes. */
  predicate WellFormed(p: Packet) {
    if IsData(p) then p.flags == TH_DATA && 1 <= |p.data| <= STCP_MSS else p.data == []
  }

  ghost predicate PipeOk(ps: seq<Packet>) {
    forall i :: 0 <= i < |ps| ==> WellFormed(ps[i])
  }

  function Bytes(ps: seq<Packet>): seq<Byte> {
    if ps == [] then [] else (if IsData(ps[0]) then ps[0].data else []) + Bytes(ps[1..])
  }

  function AckVals(ps: seq<Packet>): seq<U32> {
    if ps == [] then [] else (if IsAck(ps[0]) then [ps[0].ackNo] else []) + AckVals(ps[1..])
  }

  /** The acknowledgement a data segment will draw. */
  function SegEnd(p: Packet): U32 { Add(p.seqNo, |p.data|) }

  function SegEnds(ps: seq<Packet>): seq<U32> {
    if ps == [] then [] else (if IsData(ps[0]) then [SegEnd(ps[0])] else []) + SegEnds(ps[1..])
  }

  predicate HasFin(ps: seq<Packet>) {
    ps != [] && (IsFin(ps[0]) || HasFin(ps[1..]))
  }

  predicate HasData(ps: seq<Packet>) {
    ps != [] && (IsData(ps[0]) || HasData(ps[1..]))
  }

  /** At most one FIN, and no data segment behind it. */
  predicate FinLast(ps: seq<Packet>) {
    ps == [] || (FinLast(ps[1..]) && (IsFin(ps[0]) ==> !HasData(ps[1..]) && !HasFin(ps[1..])))
  }

  predicate AckBeforeFin(ps: seq<Packet>) {
    ps != [] && !IsFin(ps[0]) && (IsAck(ps[0]) || AckBeforeFin(ps[1..]))
  }

  lemma {:induction false} SnocBytes(ps: seq<Packet>, p: Packet)
    ensures Bytes(ps + [p]) == Bytes(ps) + Bytes([p])
  {
    if ps == [] {
      assert ps + [p] == [p];
    } else {
      assert (ps + [p])[1..] == ps[1..] + [p];
      SnocBytes(ps[1..], p);
    }
  }

  lemma {:induction false} SnocAcks(ps: seq<Packet>, p: Packet)
    ensures AckVals(ps + [p]) == AckVals(ps) + AckVals([p])
  {
    if ps == [] {
      assert ps + [p] == [p];
    } else {
      assert (ps + [p])[1..] == ps[1..] + [p];
      SnocAcks(ps[1..], p);
      var first := if IsAck(ps[0]) then [ps[0].ackNo] else [];
      assert first + (AckVals(ps[1..]) + AckVals([p])) == first + AckVals(ps[1..]) + AckVals([p]);
    }
  }

  lemma {:induction false} SnocEnds(ps: seq<Packet>, p: Packet)
    ensures SegEnds(ps + [p]) == SegEnds(ps) + SegEnds([p])
  {
    if ps == [] {
      assert ps + [p] == [p];
    } else {
      assert (ps + [p])[1..] == ps[1..] + [p];
      SnocEnds(ps[1..], p);
    }
  }

  lemma SnocContents(ps: seq<Packet>, p: Packet)
    ensures Bytes(ps + [p]) == Bytes(ps) + Bytes([p])
    ensures AckVals(ps + [p]) == AckVals(ps) + AckVals([p])
    ensures SegEnds(ps + [p]) == SegEnds(ps) + SegEnds([p])
  {
    SnocBytes(ps, p);
    SnocAcks(ps, p);
    SnocEnds(ps, p);
  }

  lemma {:induction false} SnocHas(ps: seq<Packet>, p: Packet)
    ensures HasFin(ps + [p]) <==> HasFin(ps) || IsFin(p)
    ensures HasData(ps + [p]) <==> HasData(ps) || IsData(p)
  {
    if ps == [] {
      assert (ps + [p])[1..] == [];
    } else {
      assert (ps + [p])[1..] == ps[1..] + [p];
      SnocHas(ps[1..], p);
    }
  }

  lemma {:induction false} SnocOrder(ps: seq<Packet>, p: Packet)
    ensures FinLast(ps + [p]) <==> FinLast(ps) && (HasFin(ps) ==> IsAck(p))
    ensures AckBeforeFin(ps + [p]) <==> AckBeforeFin(ps) || (IsAck(p) && !HasFin(ps))
  {
    if ps == [] {
      assert (ps + [p])[1..] == [];
    } else {
      assert (ps + [p])[1..] == ps[1..] + [p];
      SnocHas(ps[1..], p);
      SnocOrder(ps[1..], p);
    }
  }

  lemma Snoc(ps: seq<Packet>, p: Packet)
    ensures Bytes(ps + [p]) == Bytes(ps) + Bytes([p])
    ensures AckVals(ps + [p]) == AckVals(ps) + AckVals([p])
    ensures SegEnds(ps + [p]) == SegEnds(ps) + SegEnds([p])
    ensures HasFin(ps + [p]) <==> HasFin(ps) || IsFin(p)
    ensures HasData(ps + [p]) <==> HasData(ps) || IsData(p)
    ensures FinLast(ps + [p]) <==> FinLast(ps) && (HasFin(ps) ==> IsAck(p))
    ensures AckBeforeFin(ps + [p]) <==> AckBeforeFin(ps) || (IsAck(p) && !HasFin(ps))
  {
    SnocContents(ps, p);
    SnocHas(ps, p);
    SnocOrder(ps, p);
  }

  lemma {:induction false} NoDataNoBytes(ps: seq<Packet>)
    requires !HasData(ps)
    ensures Bytes(ps) == [] && SegEnds(ps) == []
  {
    if ps != [] {
      NoDataNoBytes(ps[1..]);
    }
  }

  // ---- the chain of acknowledgements still to come

  /**
   Starting from `lo`, the acknowledgements `vals` move forward step by step and end at `hi`, `n`
   bytes further on. With `slack` 0 every step is at least one byte and the last one reaches `hi`;
   with `slack` 1 a step may be empty and the end may fall one short.
   */
  ghost predicate Chain(slack: nat, lo: U32, vals: seq<U32>, hi: U32, n: nat)
    decreases |vals|
  {
    if vals == [] then
      n <= slack && n < 0x1_0000_0000 && hi == Add(lo, n)
    else
      var g := Off(vals[0], lo);
      1 <= g + slack && g <= n && Chain(slack, vals[0], vals[1..], hi, n - g)
  }

  lemma {:induction false} ChainSpan(slack: nat, lo: U32, vals: seq<U32>, hi: U32, n: nat)
    requires Chain(slack, lo, vals, hi, n) && n < 0x1_0000_0000
    ensures hi == Add(lo, n)
    decreases |vals|
  {
    if vals != [] {
      ChainSpan(slack, vals[0], vals[1..], hi, n - Off(vals[0], lo));
    }
  }

  /** Sending `k` more bytes adds one acknowledgement at the far end. */
  lemma {:induction false} ChainSend(slack: nat, lo: U32, vals: seq<U32>, hi: U32, n: nat, k: nat)
    requires Chain(slack, lo, vals, hi, n)
    requires 1 <= k && n + k < 0x1_0000_0000
    ensures Chain(slack, lo, vals + [Add(hi, k)], Add(hi, k), n + k)
    decreases |vals|
  {
    var more := vals + [Add(hi, k)];
    if vals == [] {
      assert more[1..] == [];
      assert Off(more[0], lo) == n + k;
    } else {
      assert more[1..] == vals[1..] + [Add(hi, k)];
      ChainSend(slack, vals[0], vals[1..], hi, n - Off(vals[0], lo), k);
    }
  }

  lemma {:induction false} ChainLoosen(lo: U32, vals: seq<U32>, hi: U32, n: nat)
    requires Chain(0, lo, vals, hi, n) && n + 1 < 0x1_0000_0000
    ensures Chain(1, lo, vals, Add(hi, 1), n + 1)
    decreases |vals|
  {
    if vals != [] {
      ChainLoosen(vals[0], vals[1..], hi, n - Off(vals[0], lo));
    }
  }

  /** The peer's FIN moves both ends of the numbering on by one, which costs a chain in flight its exactness. */
  lemma ChainFin(lo: U32, vals: seq<U32>, hi: U32, n: nat)
    requires Chain(0, lo, vals, hi, n) && n < 0x1_0000_0000
    ensures Chain(if n == 0 then 0 else 1, Add(lo, 1), vals, Add(hi, 1), n)
  {
    if vals == [] {
      assert n == 0 && hi == lo;
    } else {
      var g := Off(vals[0], lo);
      ChainLoosen(vals[0], vals[1..], hi, n - g);
      assert n != 0;
    }
  }
}
