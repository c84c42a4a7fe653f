/**
 Why the transport does not stop early: what it has to do shrinks with every packet delivered and every trip round the
 loop that does anything, and when nothing is left to do every byte written is with the reader or waits for a window.
 */
module StcpProgress {
  import opened Streams
  import opened StcpQueue
  import opened StcpEndpoint
  import opened StcpPipes
  import opened StcpSystem
  import opened StcpInvariant
  import opened StcpRuns

  // ---- how much there is to do

  /** A packet other than an ACK may draw one. */
  function Weight(p: Packet): nat { if IsAck(p) then 2 else 4 }

  function InChannel(ps: seq<Packet>): nat {
    if ps == [] then 0 else Weight(ps[0]) + InChannel(ps[1..])
  }

  function InQueue(ps: seq<Packet>): nat {
    if ps == [] then 0 else Weight(ps[0]) - 1 + InQueue(ps[1..])
  }

  function ToOpen(phase: Phase): nat { if phase.Start? then 4 else if phase.SynSent? then 2 else 0 }

  function SideWork(e: Endpoint): nat {
    InQueue(e.netRecv) + 5 * |Flatten(e.appRecv)| + |e.appRecv| + (if e.closeRequested then 5 else 0) + ToOpen(e.phase)
  }

  function Work(s: Sys): nat { SideWork(s.a) + SideWork(s.b) + InChannel(s.ab) + InChannel(s.ba) }

  lemma {:induction false} ChannelAppend(p: seq<Packet>, q: seq<Packet>)
    ensures InChannel(p + q) == InChannel(p) + InChannel(q)
  {
    if p == [] {
      assert p + q == q;
    } else {
      assert (p + q)[1..] == p[1..] + q;
      ChannelAppend(p[1..], q);
    }
  }

  lemma {:induction false} QueueSnoc(ps: seq<Packet>, p: Packet)
    ensures InQueue(ps + [p]) == InQueue(ps) + Weight(p) - 1
  {
    if ps == [] {
      assert ps + [p] == [p];
    } else {
      assert (ps + [p])[1..] == ps[1..] + [p];
      QueueSnoc(ps[1..], p);
    }
  }

  // ---- a trip round the loop

  /** The application branch would run and find no room: nothing is sent and nothing taken. */
  predicate Spins(e: Endpoint) {
    && e.netRecv == [] && e.eventChosen.AnyEvent? && e.appRecv != []
    && (e.sendWind < 0 || (e.sendWind == 0 && e.appRecv[0] != []))
  }

  lemma PacketWork(e: Endpoint, p: Packet, junk: U32)
    ensures var r := OnPacket(e, p, junk);
            SideWork(r.state) == SideWork(e) - ToOpen(e.phase) + ToOpen(r.state.phase)
    ensures ToOpen(OnPacket(e, p, junk).state.phase) <= ToOpen(e.phase)
    ensures InChannel(OnPacket(e, p, junk).out) <= Weight(p) - 2
  {
    var r := OnPacket(e, p, junk);
    PacketSeat(e, p, junk);
    if p.flags == TH_ACK {
      assert r == Outcome(OnAck(e, p), []);
    } else if p.flags == TH_FIN {
      assert r == OnFin(e, junk);
    } else {
      assert r == OnData(e, p);
    }
  }

  lemma NetworkWork(e: Endpoint, junk: U32)
    requires e.netRecv != []
    ensures var r := OnNetwork(e, junk); SideWork(r.state) + InChannel(r.out) < SideWork(e)
  {
    PacketWork(e.(netRecv := e.netRecv[1..]), e.netRecv[0], junk);
  }

  lemma AppWork(e: Endpoint, junk: U32)
    requires e.appRecv != [] && 0 <= e.sendWind
    ensures var r := OnApp(e, junk);
            if e.sendWind == 0 && e.appRecv[0] != [] then r == Outcome(e, [])
            else SideWork(r.state) + InChannel(r.out) < SideWork(e)
  {
    var room := Min(e.sendWind, STCP_MSS);
    var load := Taken(e.appRecv, room);
    DequeueSplits(e.appRecv, room);
    assert |load| + |Flatten(Remaining(e.appRecv, room))| == |Flatten(e.appRecv)|;
    if load == [] && room == 0 && e.appRecv[0] != [] {
      assert Remaining(e.appRecv, 0) == e.appRecv;
    }
  }

  /** Waiting drops a close request that is granted. */
  lemma WaitWork(e: Endpoint)
    ensures SideWork(AfterWait(e)) + (if WaitEvents(e).close then 5 else 0) == SideWork(e)
    ensures WaitEvents(e).app || !e.closeRequested ==> AfterWait(e) == e
  {
  }

  lemma AfterNetworkWork(e: Endpoint, i: U32)
    ensures var r, e0 := AfterNetworkStep(e, i), AfterWait(e);
            && r.state.appRecv == e.appRecv
            && (if e.netRecv == [] then r == Outcome(e0, [])
                else SideWork(r.state) + InChannel(r.out) < SideWork(e0))
  {
    var e0 := AfterWait(e);
    if e.netRecv != [] {
      NetworkWork(e0, i);
      PacketSeat(e0.(netRecv := e0.netRecv[1..]), e0.netRecv[0], i);
    }
  }

  lemma LoopParts(e: Endpoint, i: U32, j: U32, k: U32)
    requires AfterNetworkStep(e, i).state.appRecv == e.appRecv
    ensures var r1 := AfterNetworkStep(e, i);
            LoopStep(e, i, j, k)
            == if WaitEvents(e).app && 0 <= r1.state.sendWind then
                 Outcome(OnApp(r1.state, j).state, r1.out + OnApp(r1.state, j).out)
               else if WaitEvents(e).close then
                 Outcome(OnClose(r1.state, k).state, r1.out + OnClose(r1.state, k).out)
               else r1
  {
  }

  lemma CloseWork(e: Endpoint, k: U32)
    requires e.Unblocked()
    ensures SideWork(OnClose(e, k).state) == SideWork(e) && InChannel(OnClose(e, k).out) == 4
  {
    assert OnClose(e, k).out[1..] == [];
  }

  /** A trip round the loop either does some of the work or leaves everything as it was, and that only if it spins. */
  lemma LoopWork(e: Endpoint, i: U32, j: U32, k: U32)
    requires e.Unblocked() && WaitEvents(e).Any()
    ensures var r := LoopStep(e, i, j, k);
            if Spins(e) then r == Outcome(e, []) else SideWork(r.state) + InChannel(r.out) < SideWork(e)
  {
    var r1 := AfterNetworkStep(e, i);
    WaitWork(e);
    AfterNetworkWork(e, i);
    LoopParts(e, i, j, k);
    if WaitEvents(e).app && 0 <= r1.state.sendWind {
      AppWork(r1.state, j);
      ChannelAppend(r1.out, OnApp(r1.state, j).out);
    } else if WaitEvents(e).close {
      StaysUnblocked(e, i);
      CloseWork(r1.state, k);
      ChannelAppend(r1.out, OnClose(r1.state, k).out);
    }
  }

  lemma StaysUnblocked(e: Endpoint, i: U32)
    requires e.Unblocked()
    ensures AfterNetworkStep(e, i).state.Unblocked()
  {
    var e0 := AfterWait(e);
    if e.netRecv != [] {
      PacketSeat(e0.(netRecv := e0.netRecv[1..]), e0.netRecv[0], i);
    }
  }

  // ---- any step of the transport

  /** Deliveries, handshake receptions and trips round the loop; the rest are the applications' calls and the exit. */
  predicate IsTransport(act: Action) { act.Deliver? || act.Handshake? || act.Loop? }

  lemma OneInChannel(p: Packet)
    ensures InChannel([p]) == Weight(p)
  {
    assert [p][1..] == [];
  }

  lemma HandshakeWork(e: Endpoint)
    requires e.netRecv != [] && !e.Unblocked() && (e.active <==> e.phase.SynSent?)
    ensures SideWork(OnHandshake(e).state) + InChannel(OnHandshake(e).out) < SideWork(e)
  {
    if !e.phase.SynRcvd? {
      OneInChannel(OnHandshake(e).out[0]);
      assert OnHandshake(e).out == [OnHandshake(e).out[0]];
    }
    assert SideWork(OnHandshake(e).state) + ToOpen(e.phase)
        <= SideWork(e.(netRecv := e.netRecv[1..])) + ToOpen(OnHandshake(e).state.phase);
  }

  lemma DeliverWork(s: Sys)
    requires s.ba != []
    ensures Work(Do(s, Deliver)) < Work(s)
  {
    QueueSnoc(s.a.netRecv, s.ba[0]);
  }

  lemma ApplyWork(s: Sys, r: Outcome)
    ensures Work(Apply(s, r)) == Work(s) - SideWork(s.a) + SideWork(r.state) + InChannel(r.out)
  {
    ChannelAppend(s.ab, r.out);
  }

  lemma TransportWork(s: Sys, act: Action)
    requires Enabled(s, act) && IsTransport(act)
    ensures if act.Loop? && Spins(s.a) then Do(s, act) == s else Work(Do(s, act)) < Work(s)
  {
    match act
    case Deliver => DeliverWork(s);
    case Handshake =>
      HandshakeWork(s.a);
      ApplyWork(s, OnHandshake(s.a));
    case Loop(i, j, k) =>
      LoopWork(s.a, i, j, k);
      ApplyWork(s, LoopStep(s.a, i, j, k));
      assert s.ab + [] == s.ab;
  }

  lemma FlipWork(s: Sys)
    ensures Work(Flip(s)) == Work(s) && Flip(Flip(s)) == s
  {
  }

  ghost predicate TransportStep(s: Sys, s': Sys) {
    exists step :: CanStep(s, step) && IsTransport(step.action) && s' == Next(s, step)
  }

  lemma StepWork(s: Sys, s': Sys)
    requires TransportStep(s, s') && s' != s
    ensures Work(s') < Work(s)
  {
    var step :| CanStep(s, step) && IsTransport(step.action) && s' == Next(s, step);
    if step.onA {
      TransportWork(s, step.action);
    } else {
      FlipWork(s);
      TransportWork(Flip(s), step.action);
      FlipWork(Do(Flip(s), step.action));
    }
  }

  ghost predicate MovesAt(states: seq<Sys>, j: nat)
    requires 0 < j < |states|
  {
    TransportStep(states[j - 1], states[j]) && states[j] != states[j - 1]
  }

  /** From any state the transport can take only so many steps that change anything before an application calls
      again. */
  lemma {:induction false} TransportSettles(states: seq<Sys>)
    requires states != [] && forall j :: 0 < j < |states| ==> MovesAt(states, j)
    ensures Work(states[|states| - 1]) + |states| <= Work(states[0]) + 1
    decreases |states|
  {
    var n := |states| - 1;
    if n > 0 {
      var front := states[..n];
      forall j | 0 < j < |front| ensures MovesAt(front, j) {
        assert MovesAt(states, j);
      }
      TransportSettles(front);
      assert MovesAt(states, n);
      StepWork(states[n - 1], states[n]);
    }
  }

  // ---- at rest

  /** By its own blocking rules side A can receive a packet, continue its handshake, or do something in its loop. */
  predicate CanMove(s: Sys) {
    || s.ba != []
    || (!s.a.Unblocked() && s.a.netRecv != [] && (s.a.active <==> s.a.phase.SynSent?))
    || (s.a.Unblocked() && !s.a.done && WaitEvents(s.a).Any() && !Spins(s.a))
  }

  predicate Resting(s: Sys) { !CanMove(s) && !CanMove(Flip(s)) }

  /** A side that can move has a step that does some of the work, unless it is to close while the other side starts
      the close. */
  lemma MovesAreSteps(s: Sys)
    requires CanMove(s) && OneInitiator(s, 0)
    ensures exists act :: Enabled(s, act) && IsTransport(act) && Work(Do(s, act)) < Work(s)
  {
    var act := if s.ba != [] then Deliver else if !s.a.Unblocked() then Handshake else Loop(0, 0, 0);
    TransportWork(s, act);
    assert Enabled(s, act) && IsTransport(act) && Work(Do(s, act)) < Work(s);
  }

  /** Everything A wrote has been read by B or is queued for it. */
  predicate Delivered(s: Sys) { s.gotB + Flatten(s.b.appSend) == s.wroteA }

  lemma RestingPipes(s: Sys)
    requires Inv(s) && Resting(s)
    ensures !HasData(PipeToB(s))
    ensures s.a.Unblocked() && !s.a.done ==> PipeToA(s) == []
  {
    assert ToB(s) == s.b.netRecv + [] == s.b.netRecv;
    assert ToA(s) == s.a.netRecv + [] == s.a.netRecv;
    assert HasData(PipeToB(s)) ==> !s.b.GotFin();
  }

  /**
   At rest everything a side has written is delivered, except what it still holds because it has no window; its loop
   is then spinning.
   */
  lemma RestDelivers(run: seq<Sys>, k: nat)
    requires IsRun(run) && k < |run| && Resting(run[k])
    ensures var s := run[k];
            && (Delivered(s) <==> Flatten(s.a.appRecv) == [])
            && (!Delivered(s) ==> Spins(s.a))
  {
    var s := run[k];
    InvRun(run, k);
    RestingPipes(s);
    NoDataNoBytes(PipeToB(s));
    StreamAtRest(s.gotB, Flatten(s.b.appSend), Flatten(s.a.appRecv));
    if Flatten(s.a.appRecv) != [] {
      assert s.a.Unblocked() && !s.a.FinSent() && !s.a.done;
    }
  }

  lemma StreamAtRest(got: seq<Byte>, queued: seq<Byte>, held: seq<Byte>)
    ensures got + queued == got + queued + [] + held <==> held == []
  {
    assert |got + queued + [] + held| == |got + queued| + |held|;
  }

  /** In a run in turn a window is open again, but for one byte if a FIN crossed, once nothing of its traffic is
      left. */
  lemma QuietWindowIsOpen(run: seq<Sys>, k: nat)
    requires IsTurnRun(run) && k < |run| && run[k].a.Unblocked() && !run[k].a.FinSent()
    requires !HasData(PipeToB(run[k])) && AckVals(PipeToA(run[k])) == []
    ensures run[k].a.sendWind == WINDOW || (run[k].a.crossed && run[k].a.sendWind == WINDOW - 1)
  {
    TurnRun(run, k);
    NoDataNoBytes(PipeToB(run[k]));
    assert Pending(PipeToB(run[k]), PipeToA(run[k])) == [];
  }

  /** So at rest everything written in a run in turn is delivered. */
  lemma TurnRestDelivers(run: seq<Sys>, k: nat)
    requires IsTurnRun(run) && k < |run| && Resting(run[k])
    ensures Delivered(run[k])
  {
    var s := run[k];
    TurnRunIsRun(run);
    InvRun(run, k);
    RestDelivers(run, k);
    RestingPipes(s);
    if s.a.Unblocked() && !s.a.FinSent() {
      QuietWindowIsOpen(run, k);
    }
  }

  /** A shut window is never a dead end, in turn or not: while the application is masked a segment of this side, or the
      ACK for one, is on its way. */
  lemma MaskedHasTraffic(run: seq<Sys>, k: nat)
    requires IsRun(run) && k < |run|
    requires run[k].a.Unblocked() && !run[k].a.FinSent() && run[k].a.eventChosen.NetworkOnly?
    ensures HasData(PipeToB(run[k])) || AckVals(PipeToA(run[k])) != []
  {
    InvRun(run, k);
  }
}
