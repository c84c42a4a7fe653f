/** Each branch of the program keeps the invariant of the pair, and in turn the balance of its windows. */
module StcpSteps {
  import opened Streams
  import opened StcpQueue
  import opened StcpEndpoint
  import opened StcpPipes
  import opened StcpInvariant

  /** The direction towards x is kept when x's reader side and what y's pipe holds are. */
  lemma KeepIn(x: Endpoint, x': Endpoint, y: Endpoint, yx: seq<Packet>, yx': seq<Packet>, wy: seq<Byte>, gx: seq<Byte>)
    requires Dir(y, x, yx, wy, gx)
    requires x'.appSend == x.appSend && x'.eof == x.eof && x'.GotFin() == x.GotFin()
    requires (x'.phase.CloseWait? || x'.phase.LastAck?) == (x.phase.CloseWait? || x.phase.LastAck?)
    requires PipeOk(yx') && FinLast(yx') && Bytes(yx') == Bytes(yx)
    requires HasFin(yx') == HasFin(yx) && HasData(yx') == HasData(yx)
    ensures Dir(y, x', yx', wy, gx)
  {
  }

  // ---- receiving data

  function AfterData(p: Pair): Pair
    requires p.yx != []
  {
    var r := OnData(p.x, p.yx[0]);
    p.(x := r.state, xy := p.xy + r.out, yx := p.yx[1..])
  }

  lemma DataReader(x: Endpoint, p: Packet)
    requires ReaderOk(x) && LocalOk(x) && x.Unblocked() && !x.GotFin() && p.data != []
    ensures ReaderOk(OnData(x, p).state) && LocalOk(OnData(x, p).state)
    ensures Flatten(OnData(x, p).state.appSend) == Flatten(x.appSend) + p.data
  {
    FlattenSnoc(x.appSend, p.data);
  }

  lemma DataOut(x: Endpoint, y: Endpoint, xy: seq<Packet>, p: Packet, wx: seq<Byte>, gy: seq<Byte>)
    requires Dir(x, y, xy, wx, gy)
    requires x.Unblocked() && !x.GotFin() && IsData(p)
    ensures Dir(OnData(x, p).state, y, xy + OnData(x, p).out, wx, gy)
  {
    var x', ack := OnData(x, p).state, OnData(x, p).out[0];
    Snoc(xy, ack);
    assert Bytes([ack]) == [];
    assert FinOk(x', y, xy + [ack]);
    assert StreamOk(x', y, xy + [ack], wx, gy);
    assert LocalOk(x');
  }

  lemma StreamMoves(a: seq<Byte>, b: seq<Byte>, c: seq<Byte>, d: seq<Byte>, e: seq<Byte>)
    ensures a + b + (c + d) + e == a + (b + c) + d + e
  {
  }

  lemma DataIn(x: Endpoint, y: Endpoint, yx: seq<Packet>, wy: seq<Byte>, gx: seq<Byte>)
    requires Dir(y, x, yx, wy, gx)
    requires x.Unblocked() && LocalOk(x) && !x.GotFin() && yx != [] && IsData(yx[0])
    ensures Dir(y, OnData(x, yx[0]).state, yx[1..], wy, gx)
  {
    var p := yx[0];
    var x' := OnData(x, p).state;
    assert WellFormed(p);
    DataReader(x, p);
    assert Bytes(yx) == p.data + Bytes(yx[1..]);
    StreamMoves(gx, Flatten(x.appSend), p.data, Bytes(yx[1..]), Flatten(y.appRecv));
    assert FinOk(y, x', yx[1..]);
  }

  lemma PairData(p: Pair)
    requires PairOk(p) && p.x.Unblocked() && !p.x.done && p.yx != [] && IsData(p.yx[0])
    ensures PairOk(AfterData(p))
  {
    assert HasData(p.yx) && !p.x.GotFin();
    SnocOrder(p.xy, OnData(p.x, p.yx[0]).out[0]);
    DataOut(p.x, p.y, p.xy, p.yx[0], p.wx, p.gy);
    DataIn(p.x, p.y, p.yx, p.wy, p.gx);
    AwaitsData(p);
    InitiatorDone(p);
  }

  /** When the side that starts the close is done, the other is in LAST_ACK and only ACKs are still on their way
      to it. */
  lemma InitiatorDone(p: Pair)
    requires PairOk(p)
    ensures !p.xInit && p.y.done ==> p.x.phase.LastAck? && !HasData(p.yx) && !HasFin(p.yx)
  {
  }

  lemma AwaitsData(p: Pair)
    requires Awaits(p.x, p.xy, p.yx) && Awaits(p.y, p.yx, p.xy) && p.yx != [] && IsData(p.yx[0])
    ensures var p' := AfterData(p); Awaits(p'.x, p'.xy, p'.yx) && Awaits(p'.y, p'.yx, p'.xy)
  {
    var ack := OnData(p.x, p.yx[0]).out[0];
    Snoc(p.xy, ack);
    assert AckVals([ack]) == [ack.ackNo];
  }

  /** Nothing outstanding means no acknowledgement pending, exactly. */
  lemma NothingPending(x: Endpoint, xy: seq<Packet>, yx: seq<Packet>)
    requires x.Unblocked() && !x.FinSent() && !x.crossed && WindowOk(x, xy, yx)
    requires x.left == x.isn
    ensures x.sendWind == WINDOW && Pending(xy, yx) == []
  {
    ChainSpan(0, x.isn, Pending(xy, yx), x.left, WINDOW - x.sendWind);
  }

  lemma DataWindow(x: Endpoint, xy: seq<Packet>, yx: seq<Packet>)
    requires x.Unblocked() && (x.FinSent() || x.left == x.isn) && !x.crossed
    requires WindowOk(x, xy, yx) && yx != [] && IsData(yx[0])
    ensures WindowOk(OnData(x, yx[0]).state, xy + OnData(x, yx[0]).out, yx[1..])
  {
    var out := OnData(x, yx[0]).out;
    if !x.FinSent() {
      NothingPending(x, xy, yx);
      Snoc(xy, out[0]);
      assert SegEnds([out[0]]) == [];
      assert AckVals(yx) == [] && SegEnds(xy) == [];
      assert Pending(xy + out, yx[1..]) == [];
    }
  }

  /** Taking a data segment off one pipe and putting its ACK on the other leaves the sender's pending
      acknowledgements as they were. */
  lemma PendingAfterData(xy: seq<Packet>, yx: seq<Packet>, ack: Packet)
    requires yx != [] && IsData(yx[0]) && IsAck(ack) && ack.ackNo == SegEnd(yx[0])
    ensures Pending(yx[1..], xy + [ack]) == Pending(yx, xy)
  {
    Snoc(xy, ack);
    assert AckVals([ack]) == [ack.ackNo];
    assert SegEnds(yx) == [SegEnd(yx[0])] + SegEnds(yx[1..]);
  }

  lemma BalanceData(p: Pair)
    requires PairOk(p) && Balanced(p) && p.x.Unblocked() && p.yx != [] && IsData(p.yx[0])
    requires p.x.FinSent() || p.x.left == p.x.isn
    ensures Balanced(AfterData(p))
  {
    assert HasData(p.yx) && !p.x.GotFin();
    DataWindow(p.x, p.xy, p.yx);
    PendingAfterData(p.xy, p.yx, OnData(p.x, p.yx[0]).out[0]);
  }

  // ---- receiving an acknowledgement

  function AfterAck(p: Pair): Pair
    requires p.yx != []
  {
    p.(x := OnAck(p.x, p.yx[0]), yx := p.yx[1..])
  }

  lemma AckTail(yx: seq<Packet>)
    requires yx != [] && IsAck(yx[0]) && PipeOk(yx) && FinLast(yx)
    ensures PipeOk(yx[1..]) && FinLast(yx[1..])
    ensures Bytes(yx[1..]) == Bytes(yx) && SegEnds(yx[1..]) == SegEnds(yx)
    ensures HasFin(yx[1..]) == HasFin(yx) && HasData(yx[1..]) == HasData(yx)
  {
  }

  lemma PairAck(p: Pair)
    requires PairOk(p) && p.x.Unblocked() && !p.x.done && p.yx != [] && IsAck(p.yx[0])
    ensures PairOk(AfterAck(p))
  {
    var x' := OnAck(p.x, p.yx[0]);
    AckTail(p.yx);
    assert LocalOk(x') && x'.FinSent() == p.x.FinSent();
    KeepIn(p.x, x', p.y, p.yx, p.yx[1..], p.wy, p.gx);
    AwaitsAck(p);
    InitiatorDone(p);
  }

  lemma AwaitsAck(p: Pair)
    requires Awaits(p.x, p.xy, p.yx) && Awaits(p.y, p.yx, p.xy) && p.yx != [] && IsAck(p.yx[0])
    ensures var p' := AfterAck(p); Awaits(p'.x, p'.xy, p'.yx) && Awaits(p'.y, p'.yx, p'.xy)
  {
  }

  lemma OffAdd(sw: I32, v: U32, lo: U32)
    requires 0 <= sw && sw + Off(v, lo) <= WINDOW
    ensures Shift(sw, v, lo) == sw + Off(v, lo)
  {
  }

  lemma ChainHead(slack: nat, lo: U32, vals: seq<U32>, hi: U32, n: nat)
    requires Chain(slack, lo, vals, hi, n) && vals != []
    ensures 1 <= Off(vals[0], lo) + slack && Off(vals[0], lo) <= n
    ensures Chain(slack, vals[0], vals[1..], hi, n - Off(vals[0], lo))
  {
  }

  lemma PendingHead(xy: seq<Packet>, yx: seq<Packet>)
    requires yx != [] && IsAck(yx[0])
    ensures Pending(xy, yx) == [yx[0].ackNo] + Pending(xy, yx[1..])
  {
  }

  lemma AckChain(x: Endpoint, xy: seq<Packet>, yx: seq<Packet>, v: U32)
    requires 0 <= x.sendWind <= WINDOW
    requires Chain(Slack(x), x.isn, Pending(xy, yx), x.left, WINDOW - x.sendWind)
    requires yx != [] && IsAck(yx[0]) && v == yx[0].ackNo
    ensures var sw := Shift(x.sendWind, v, x.isn);
            && x.sendWind + 1 <= sw + Slack(x) && sw <= WINDOW
            && Chain(Slack(x), v, Pending(xy, yx[1..]), x.left, WINDOW - sw)
  {
    PendingHead(xy, yx);
    assert Pending(xy, yx)[1..] == Pending(xy, yx[1..]);
    ChainHead(Slack(x), x.isn, Pending(xy, yx), x.left, WINDOW - x.sendWind);
    OffAdd(x.sendWind, v, x.isn);
  }

  lemma AckWindow(x: Endpoint, xy: seq<Packet>, yx: seq<Packet>)
    requires WindowOk(x, xy, yx) && yx != [] && IsAck(yx[0])
    requires x.Unblocked() && !x.FinSent()
    ensures WindowOk(OnAck(x, yx[0]), xy, yx[1..])
  {
    AckChain(x, xy, yx, yx[0].ackNo);
  }

  lemma BalanceAck(p: Pair)
    requires PairOk(p) && Balanced(p) && p.x.Unblocked() && p.yx != [] && IsAck(p.yx[0])
    ensures Balanced(AfterAck(p))
  {
    AckTail(p.yx);
    if p.x.FinSent() {
      assert OnAck(p.x, p.yx[0]).FinSent();
    } else {
      AckWindow(p.x, p.xy, p.yx);
    }
  }

  // ---- receiving a FIN

  function AfterFin(p: Pair, junk: U32): Pair
    requires p.yx != []
  {
    var r := OnFin(p.x, junk);
    p.(x := r.state, xy := p.xy + r.out, yx := p.yx[1..])
  }

  lemma FinReader(x: Endpoint, junk: U32)
    requires ReaderOk(x) && !x.GotFin() && (x.phase.Established? || x.phase.FinSentAckReceived?)
    ensures ReaderOk(OnFin(x, junk).state)
    ensures Flatten(OnFin(x, junk).state.appSend) == Flatten(x.appSend)
  {
    FlattenSnoc(x.appSend, []);
    var q := x.appSend + [[]];
    assert q[|x.appSend|] == [];
  }

  /** With one initiator, a FIN finds its receiver in the one state that answers it. */
  lemma FinFound(p: Pair)
    requires PairOk(p) && p.x.Unblocked() && !p.x.done && p.yx != [] && IsFin(p.yx[0])
    ensures if p.xInit then p.x.phase.FinSentAckReceived? else p.x.phase.Established?
    ensures p.xInit ==> p.y.phase.LastAck?
    ensures p.y.FinSent() && !p.x.GotFin()
  {
    assert HasFin(p.yx) && p.y.FinSent() && !p.x.GotFin();
    if p.xInit {
      assert p.y.GotFin() && p.x.FinSent();
    }
  }

  lemma FinOut(x: Endpoint, y: Endpoint, xy: seq<Packet>, wx: seq<Byte>, gy: seq<Byte>, junk: U32)
    requires Dir(x, y, xy, wx, gy)
    requires !x.GotFin() && !x.done && (x.phase.Established? || x.phase.FinSentAckReceived?)
    ensures Dir(OnFin(x, junk).state, y, xy + OnFin(x, junk).out, wx, gy)
  {
    var x', ack := OnFin(x, junk).state, OnFin(x, junk).out[0];
    assert OnFin(x, junk).out == [ack];
    Snoc(xy, ack);
    assert Bytes([ack]) == [];
    assert FinOk(x', y, xy + [ack]);
    assert StreamOk(x', y, xy + [ack], wx, gy);
    assert LocalOk(x');
  }

  lemma FinIn(x: Endpoint, y: Endpoint, yx: seq<Packet>, wy: seq<Byte>, gx: seq<Byte>, junk: U32)
    requires Dir(y, x, yx, wy, gx)
    requires !x.GotFin() && (x.phase.Established? || x.phase.FinSentAckReceived?) && yx != [] && IsFin(yx[0])
    ensures Dir(y, OnFin(x, junk).state, yx[1..], wy, gx)
  {
    var x' := OnFin(x, junk).state;
    assert Bytes(yx) == Bytes(yx[1..]);
    if x.phase.Established? {
      FinReader(x, junk);
    } else {
      assert x'.appSend == x.appSend;
    }
    assert HasFin(yx) && y.FinSent();
    assert ReaderOk(x');
    assert FinOk(y, x', yx[1..]);
    assert StreamOk(y, x', yx[1..], wy, gx);
  }

  lemma PairFin(p: Pair, junk: U32)
    requires PairOk(p) && p.x.Unblocked() && !p.x.done && p.yx != [] && IsFin(p.yx[0])
    ensures PairOk(AfterFin(p, junk))
  {
    FinFound(p);
    SnocOrder(p.xy, OnFin(p.x, junk).out[0]);
    assert !p.x.FinSent() ==> !HasFin(p.xy);
    FinOut(p.x, p.y, p.xy, p.wx, p.gy, junk);
    FinIn(p.x, p.y, p.yx, p.wy, p.gx, junk);
    AwaitsFin(p, junk);
    InitiatorDone(p);
    if p.xInit {
      Snoc(p.xy, OnFin(p.x, junk).out[0]);
      assert AckVals([OnFin(p.x, junk).out[0]]) != [];
    }
  }

  lemma AwaitsFin(p: Pair, junk: U32)
    requires Awaits(p.x, p.xy, p.yx) && Awaits(p.y, p.yx, p.xy) && p.yx != [] && IsFin(p.yx[0])
    requires p.x.phase.Established? || p.x.phase.FinSentAckReceived?
    ensures var p' := AfterFin(p, junk); Awaits(p'.x, p'.xy, p'.yx) && Awaits(p'.y, p'.yx, p'.xy)
  {
    Snoc(p.xy, OnFin(p.x, junk).out[0]);
  }

  lemma PendingAfterFin(xy: seq<Packet>, yx: seq<Packet>, ack: Packet)
    requires yx != [] && IsFin(yx[0]) && IsAck(ack)
    ensures Pending(xy + [ack], yx[1..]) == Pending(xy, yx)
  {
    SnocContents(xy, ack);
    assert SegEnds([ack]) == [];
  }

  lemma FinChain(isn: U32, left: U32, vals: seq<U32>, n: nat)
    requires n <= WINDOW && Chain(0, isn, vals, left, n)
    ensures Chain(if left != isn then 1 else 0, Add(isn, 1), vals, Add(left, 1), n)
  {
    ChainFin(isn, vals, left, n);
    ChainSpan(0, isn, vals, left, n);
  }

  lemma FinWindow(x: Endpoint, xy: seq<Packet>, yx: seq<Packet>, junk: U32)
    requires x.phase.Established? && !x.crossed && WindowOk(x, xy, yx) && yx != [] && IsFin(yx[0])
    ensures WindowOk(OnFin(x, junk).state, xy + OnFin(x, junk).out, yx[1..])
  {
    FinChain(x.isn, x.left, Pending(xy, yx), WINDOW - x.sendWind);
    PendingAfterFin(xy, yx, OnFin(x, junk).out[0]);
  }

  lemma BalanceFin(p: Pair, junk: U32)
    requires PairOk(p) && Balanced(p) && p.x.Unblocked() && !p.x.done && p.yx != [] && IsFin(p.yx[0])
    ensures Balanced(AfterFin(p, junk))
  {
    FinFound(p);
    if p.x.phase.Established? {
      FinWindow(p.x, p.xy, p.yx, junk);
    }
  }

  // ---- sending data

  function AfterApp(p: Pair, junk: U32): Pair
    requires p.x.appRecv != [] && 0 <= p.x.sendWind
  {
    var r := OnApp(p.x, junk);
    p.(x := r.state, xy := p.xy + r.out)
  }

  lemma Reassociate(a: seq<Byte>, b: seq<Byte>, c: seq<Byte>, d: seq<Byte>)
    ensures a + b + (c + d) == a + (b + c) + d
  {
  }

  lemma SendStream(x: Endpoint, y: Endpoint, xy: seq<Packet>, wx: seq<Byte>, gy: seq<Byte>, junk: U32)
    requires x.appRecv != [] && 0 <= x.sendWind && StreamOk(x, y, xy, wx, gy)
    ensures StreamOk(OnApp(x, junk).state, y, xy + OnApp(x, junk).out, wx, gy)
  {
    var room := Min(x.sendWind, STCP_MSS);
    var load := Taken(x.appRecv, room);
    var out := OnApp(x, junk).out;
    DequeueSplits(x.appRecv, room);
    assert Bytes(xy + out) == Bytes(xy) + load by {
      if load == [] {
        assert xy + out == xy;
      } else {
        Snoc(xy, out[0]);
        assert out == [out[0]] && Bytes([out[0]]) == load;
      }
    }
    Reassociate(gy + Flatten(y.appSend), Bytes(xy), load, Flatten(Remaining(x.appRecv, room)));
  }

  /** What the window branch leaves alone, and the shape of what it sends. */
  lemma SendShape(x: Endpoint, junk: U32)
    requires x.appRecv != [] && 0 <= x.sendWind && LocalOk(x) && x.Unblocked() && !x.FinSent()
    ensures var x', out := OnApp(x, junk).state, OnApp(x, junk).out;
            && LocalOk(x') && x'.phase == x.phase && x'.done == x.done
            && x'.appSend == x.appSend && x'.eof == x.eof
            && x'.isn == x.isn && x'.crossed == x.crossed
            && (out == [] ==> x'.left == x.left && x'.sendWind == x.sendWind && x'.eventChosen == x.eventChosen)
            && (out != [] ==> |out| == 1 && IsData(out[0]) && WellFormed(out[0]))
  {
    DequeueSplits(x.appRecv, Min(x.sendWind, STCP_MSS));
  }

  lemma SendPipe(x: Endpoint, xy: seq<Packet>, junk: U32)
    requires x.appRecv != [] && 0 <= x.sendWind && PipeOk(xy) && FinLast(xy) && !HasFin(xy)
    ensures var xy' := xy + OnApp(x, junk).out;
            PipeOk(xy') && FinLast(xy') && !HasFin(xy') && AckVals(xy') == AckVals(xy)
  {
    var out := OnApp(x, junk).out;
    DequeueSplits(x.appRecv, Min(x.sendWind, STCP_MSS));
    if out == [] {
      assert xy + out == xy;
    } else {
      Snoc(xy, out[0]);
      assert out == [out[0]] && AckVals(out) == [];
    }
  }

  lemma SendOut(x: Endpoint, y: Endpoint, xy: seq<Packet>, wx: seq<Byte>, gy: seq<Byte>, junk: U32)
    requires Dir(x, y, xy, wx, gy)
    requires x.Unblocked() && !x.FinSent() && x.appRecv != [] && 0 <= x.sendWind
    ensures Dir(OnApp(x, junk).state, y, xy + OnApp(x, junk).out, wx, gy)
  {
    SendShape(x, junk);
    SendStream(x, y, xy, wx, gy, junk);
    SendPipe(x, xy, junk);
    assert FinOk(OnApp(x, junk).state, y, xy + OnApp(x, junk).out);
  }

  lemma PairApp(p: Pair, junk: U32)
    requires PairOk(p) && p.x.Unblocked() && !p.x.done && p.x.appRecv != [] && 0 <= p.x.sendWind
    ensures PairOk(AfterApp(p, junk))
  {
    var out := OnApp(p.x, junk).out;
    assert !p.x.FinSent();
    SendOut(p.x, p.y, p.xy, p.wx, p.gy, junk);
    SendShape(p.x, junk);
    SendPipe(p.x, p.xy, junk);
    KeepIn(p.x, OnApp(p.x, junk).state, p.y, p.yx, p.yx, p.wy, p.gx);
    assert TeardownOk(p.y, p.x, p.xy) ==> !p.y.phase.FinWait? || !p.x.GotFin() || AckBeforeFin(p.xy);
    if out != [] {
      Snoc(p.xy, out[0]);
      assert AckVals([out[0]]) == [];
    } else {
      assert p.xy + out == p.xy;
    }
  }

  lemma SendWindow(x: Endpoint, xy: seq<Packet>, yx: seq<Packet>, junk: U32)
    requires x.Unblocked() && !x.FinSent() && WindowOk(x, xy, yx)
    requires x.appRecv != [] && OnApp(x, junk).out != []
    ensures WindowOk(OnApp(x, junk).state, xy + OnApp(x, junk).out, yx)
  {
    var room := Min(x.sendWind, STCP_MSS);
    DequeueSplits(x.appRecv, room);
    var seg := OnApp(x, junk).out[0];
    var n := |seg.data|;
    ChainSend(Slack(x), x.isn, Pending(xy, yx), x.left, WINDOW - x.sendWind, n);
    Snoc(xy, seg);
    assert AckVals(yx) + (SegEnds(xy) + [SegEnd(seg)]) == Pending(xy, yx) + [SegEnd(seg)];
    assert SegEnds([seg]) == [SegEnd(seg)];
  }

  lemma BalanceApp(p: Pair, junk: U32)
    requires PairOk(p) && Balanced(p) && p.x.Unblocked() && !p.x.done && p.x.appRecv != []
    ensures 0 <= p.x.sendWind
    ensures Balanced(AfterApp(p, junk))
  {
    assert !p.x.FinSent();
    SendShape(p.x, junk);
    SendPipe(p.x, p.xy, junk);
    if OnApp(p.x, junk).out == [] {
      assert p.xy + [] == p.xy;
    } else {
      SendWindow(p.x, p.xy, p.yx, junk);
    }
  }

  // ---- closing

  function AfterClose(p: Pair, junk: U32): Pair {
    var r := OnClose(p.x, junk);
    p.(x := r.state, xy := p.xy + r.out)
  }

  lemma CloseOut(x: Endpoint, y: Endpoint, xy: seq<Packet>, wx: seq<Byte>, gy: seq<Byte>, junk: U32)
    requires Dir(x, y, xy, wx, gy)
    requires x.Unblocked() && !x.FinSent() && x.closed && !x.closeRequested && x.appRecv == []
    ensures Dir(OnClose(x, junk).state, y, xy + OnClose(x, junk).out, wx, gy)
  {
    var x', fin := OnClose(x, junk).state, OnClose(x, junk).out[0];
    Snoc(xy, fin);
    assert Bytes([fin]) == [];
    assert FinOk(x', y, xy + [fin]);
    assert StreamOk(x', y, xy + [fin], wx, gy);
    assert LocalOk(x');
  }

  lemma PairClose(p: Pair, junk: U32)
    requires PairOk(p) && p.x.Unblocked() && !p.x.FinSent()
    requires p.x.closed && !p.x.closeRequested && p.x.appRecv == []
    requires p.xInit || p.x.phase.CloseWait?
    ensures PairOk(AfterClose(p, junk))
  {
    var x', fin := OnClose(p.x, junk).state, OnClose(p.x, junk).out[0];
    Snoc(p.xy, fin);
    assert AckVals([fin]) == [];
    assert !p.x.done;
    CloseOut(p.x, p.y, p.xy, p.wx, p.gy, junk);
    KeepIn(p.x, x', p.y, p.yx, p.yx, p.wy, p.gx);
    assert !p.xInit ==> !HasFin(p.xy);
  }

  lemma BalanceClose(p: Pair, junk: U32)
    requires Balanced(p)
    ensures Balanced(AfterClose(p, junk))
  {
    var fin := OnClose(p.x, junk).out[0];
    Snoc(p.xy, fin);
    assert AckVals([fin]) == [];
    assert Pending(p.yx, p.xy + [fin]) == Pending(p.yx, p.xy);
    assert OnClose(p.x, junk).state.FinSent();
    assert AfterClose(p, junk).xy == p.xy + [fin];
  }

  // ---- any packet

  function AfterPacket(p: Pair, junk: U32): Pair
    requires p.yx != []
  {
    var r := OnPacket(p.x, p.yx[0], junk);
    p.(x := r.state, xy := p.xy + r.out, yx := p.yx[1..])
  }

  lemma PacketIs(p: Pair, junk: U32)
    requires p.yx != []
    ensures AfterPacket(p, junk)
      == if IsAck(p.yx[0]) then AfterAck(p) else if IsFin(p.yx[0]) then AfterFin(p, junk) else AfterData(p)
  {
    assert p.xy + [] == p.xy;
  }

  lemma PairPacket(p: Pair, junk: U32)
    requires PairOk(p) && p.x.Unblocked() && !p.x.done && p.yx != []
    ensures PairOk(AfterPacket(p, junk))
  {
    PacketIs(p, junk);
    if IsAck(p.yx[0]) {
      PairAck(p);
    } else if IsFin(p.yx[0]) {
      PairFin(p, junk);
    } else {
      PairData(p);
    }
  }

  lemma BalancePacket(p: Pair, junk: U32)
    requires PairOk(p) && Balanced(p) && p.x.Unblocked() && !p.x.done && p.yx != []
    requires IsData(p.yx[0]) ==> p.x.FinSent() || p.x.left == p.x.isn
    ensures Balanced(AfterPacket(p, junk))
  {
    PacketIs(p, junk);
    if IsAck(p.yx[0]) {
      BalanceAck(p);
    } else if IsFin(p.yx[0]) {
      BalanceFin(p, junk);
    } else {
      BalanceData(p);
    }
  }

  // ---- the application's calls and the end of the thread

  lemma PairWrite(p: Pair, buf: seq<Byte>)
    requires PairOk(p) && p.x.Unblocked() && !p.x.closed
    ensures PairOk(p.(x := OnWrite(p.x, buf), wx := p.wx + buf))
  {
    var x' := OnWrite(p.x, buf);
    FlattenSnoc(p.x.appRecv, buf);
    assert StreamOk(x', p.y, p.xy, p.wx + buf, p.gy);
    assert Dir(x', p.y, p.xy, p.wx + buf, p.gy);
    KeepIn(p.x, x', p.y, p.yx, p.yx, p.wy, p.gx);
  }

  lemma {:induction false} MarkersFlat(q: seq<seq<Byte>>)
    requires forall i :: 0 <= i < |q| ==> q[i] == []
    ensures Flatten(q) == []
  {
    if q != [] {
      MarkersFlat(q[1..]);
    }
  }

  lemma ReadReader(x: Endpoint, n: nat)
    requires ReaderOk(x) && (x.eof || x.appSend != []) && n > 0
    ensures ReaderOk(OnRead(x, n).state)
    ensures OnRead(x, n).got + Flatten(OnRead(x, n).state.appSend) == Flatten(x.appSend)
    ensures OnRead(x, n).got == [] <==> OnRead(x, n).state.eof
  {
    var q := x.appSend;
    if !x.eof {
      DequeueSplits(q, n);
      var r := Remaining(q, n);
      assert |q[0]| > n ==> r[0] != [] && (forall i :: 1 <= i < |r| ==> r[i] == q[i]);
      assert |q[0]| <= n ==> forall i :: 0 <= i < |r| ==> r[i] == q[i + 1];
    }
  }

  function AfterRead(p: Pair, n: nat): Pair
    requires p.x.eof || p.x.appSend != []
  {
    p.(x := OnRead(p.x, n).state, gx := p.gx + OnRead(p.x, n).got)
  }

  lemma PairRead(p: Pair, n: nat)
    requires PairOk(p) && p.x.Unblocked() && (p.x.eof || p.x.appSend != []) && n > 0
    ensures PairOk(AfterRead(p, n))
  {
    var x', got := OnRead(p.x, n).state, OnRead(p.x, n).got;
    ReadReader(p.x, n);
    ReadOut(p.x, p.y, p.xy, p.wx, p.gy, n);
    ReadIn(p.x, x', p.y, p.yx, p.wy, p.gx, got);
  }

  lemma ReadOut(x: Endpoint, y: Endpoint, xy: seq<Packet>, wx: seq<Byte>, gy: seq<Byte>, n: nat)
    requires Dir(x, y, xy, wx, gy) && x.Unblocked() && (x.eof || x.appSend != [])
    ensures Dir(OnRead(x, n).state, y, xy, wx, gy)
  {
  }

  lemma ReadIn(x: Endpoint, x': Endpoint, y: Endpoint, yx: seq<Packet>, wy: seq<Byte>, gx: seq<Byte>, got: seq<Byte>)
    requires Dir(y, x, yx, wy, gx) && ReaderOk(x')
    requires x'.GotFin() == x.GotFin()
    requires got + Flatten(x'.appSend) == Flatten(x.appSend)
    ensures Dir(y, x', yx, wy, gx + got)
  {
    assert gx + got + Flatten(x'.appSend) == gx + (got + Flatten(x'.appSend));
    assert StreamOk(y, x', yx, wy, gx + got);
  }

  lemma PairMyClose(p: Pair)
    requires PairOk(p) && p.x.Unblocked() && !p.x.closed
    ensures PairOk(p.(x := OnMyClose(p.x)))
  {
  }

  /** The marker the thread leaves behind comes after all data and holds no bytes. */
  lemma ExitReader(x: Endpoint)
    requires ReaderOk(x) && LocalOk(x) && x.done
    ensures ReaderOk(OnExit(x)) && Flatten(OnExit(x).appSend) == Flatten(x.appSend)
  {
    FlattenSnoc(x.appSend, []);
    assert x.GotFin();
  }

  lemma ExitOut(x: Endpoint, y: Endpoint, xy: seq<Packet>, wx: seq<Byte>, gy: seq<Byte>)
    requires Dir(x, y, xy, wx, gy) && x.done
    ensures Dir(OnExit(x), y, xy, wx, gy)
  {
  }

  lemma ExitIn(x: Endpoint, y: Endpoint, yx: seq<Packet>, wy: seq<Byte>, gx: seq<Byte>)
    requires Dir(y, x, yx, wy, gx) && LocalOk(x) && x.done
    ensures Dir(y, OnExit(x), yx, wy, gx)
  {
    ExitReader(x);
    assert StreamOk(y, OnExit(x), yx, wy, gx);
  }

  lemma PairExit(p: Pair)
    requires PairOk(p) && p.x.done
    ensures PairOk(p.(x := OnExit(p.x)))
  {
    ExitOut(p.x, p.y, p.xy, p.wx, p.gy);
    ExitIn(p.x, p.y, p.yx, p.wy, p.gx);
  }
}
