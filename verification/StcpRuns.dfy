/** The invariants over whole runs: every step of either side keeps them. */
module StcpRuns {
  import opened StcpEndpoint
  import opened StcpPipes
  import opened StcpSystem
  import opened StcpInvariant
  import opened StcpSteps

  lemma StripGrows(phase: Phase, ps: seq<Packet>, out: seq<Packet>)
    requires !phase.Start? && !phase.SynSent? && (phase.SynRcvd? ==> ps != [])
    ensures Strip(phase, ps + out) == Strip(phase, ps) + out
  {
  }

  lemma NoAcksGrow(ps: seq<Packet>, out: seq<Packet>)
    requires AckVals(ps) == [] && AckVals(out) == [] && |out| <= 1
    ensures AckVals(ps + out) == []
  {
    if out == [] {
      assert ps + out == ps;
    } else {
      assert out == [out[0]];
      SnocContents(ps, out[0]);
    }
  }

  /** Once x is past its handshake, y either is too or has only the closing ACK of it still to come. */
  ghost predicate PeerReady(y: Endpoint, toY: seq<Packet>) {
    || y.Unblocked()
    || (y.phase.SynRcvd? && toY != [] && toY[0].flags == TH_ACK && toY[0].ackNo == y.isn && AckVals(toY[1..]) == [])
  }

  lemma ShakeGivesReady(s: Sys)
    requires Shake(s) && s.a.Unblocked()
    ensures PeerReady(s.b, ToB(s))
    ensures !s.b.Unblocked() ==> s.a.active && !s.b.active && ToA(s) == []
    ensures s.a.active != s.b.active
  {
  }

  lemma ReadyGivesShake(s: Sys)
    requires s.a.Unblocked() && PeerReady(s.b, ToB(s)) && s.a.active != s.b.active
    requires !s.b.Unblocked() ==> s.a.active && ToA(s) == []
    ensures Shake(s)
  {
  }

  lemma ReadyGrows(y: Endpoint, toY: seq<Packet>, out: seq<Packet>)
    requires PeerReady(y, toY)
    requires y.Unblocked() || (AckVals(out) == [] && |out| <= 1)
    ensures PeerReady(y, toY + out)
  {
    if !y.Unblocked() {
      assert (toY + out)[1..] == toY[1..] + out;
      NoAcksGrow(toY[1..], out);
    }
  }

  lemma ShakeGrows(s: Sys, s': Sys, out: seq<Packet>)
    requires Shake(s) && s.a.Unblocked() && s'.a.Unblocked()
    requires s'.a.active == s.a.active && s'.b == s.b && ToB(s') == ToB(s) + out
    requires s.b.Unblocked() || (ToA(s') == ToA(s) && AckVals(out) == [] && |out| <= 1)
    ensures Shake(s')
  {
    ShakeGivesReady(s);
    ReadyGrows(s.b, ToB(s), out);
    ReadyGivesShake(s');
  }

  lemma Concat3(a: seq<Packet>, b: seq<Packet>, c: seq<Packet>)
    ensures a + (b + c) == a + b + c
  {
  }

  lemma PeerPipeGrows(y: Endpoint, toY: seq<Packet>, toY': seq<Packet>, out: seq<Packet>)
    requires PeerReady(y, toY) && toY' == toY + out
    ensures Strip(y.phase, toY') == Strip(y.phase, toY) + out
  {
    StripGrows(y.phase, toY, out);
  }

  /** Side A, past its handshake, puts `out` on the channel; what the pair sees is `out` at the end of the pipe. */
  lemma PipeGrows(s: Sys, s': Sys, out: seq<Packet>)
    requires Shake(s) && s.a.Unblocked() && s'.a.Unblocked()
    requires s'.a.active == s.a.active && s'.b == s.b && s'.ab == s.ab + out
    requires s.b.Unblocked() || (ToA(s') == ToA(s) && AckVals(out) == [] && |out| <= 1)
    ensures PipeToB(s') == PipeToB(s) + out
    ensures Shake(s')
  {
    Concat3(s.b.netRecv, s.ab, out);
    ShakeGivesReady(s);
    PeerPipeGrows(s.b, ToB(s), ToB(s'), out);
    ShakeGrows(s, s', out);
  }

  /** What handling a packet never touches. */
  predicate SameSeat(x: Endpoint, x': Endpoint) {
    && (x.Unblocked() ==> x'.Unblocked()) && x'.active == x.active && x'.netRecv == x.netRecv
    && x'.appRecv == x.appRecv && x'.closed == x.closed && x'.closeRequested == x.closeRequested
    && x'.FinSent() == x.FinSent()
  }

  lemma PacketSeat(x: Endpoint, p: Packet, junk: U32)
    ensures SameSeat(x, OnPacket(x, p, junk).state)
  {
    if p.flags == TH_ACK {
      assert OnPacket(x, p, junk).state == OnAck(x, p);
    } else if p.flags == TH_FIN {
      assert OnPacket(x, p, junk) == OnFin(x, junk);
    } else {
      assert OnPacket(x, p, junk) == OnData(x, p);
    }
  }

  // ---- the network branch

  /** The pair with side A's network queue replaced: the pair's own view of the pipes does not move. */
  lemma NetRecvUnseen(p: Pair, q: seq<Packet>)
    ensures PairOk(p) ==> PairOk(p.(x := p.x.(netRecv := q)))
    ensures Balanced(p) ==> Balanced(p.(x := p.x.(netRecv := q)))
  {
  }

  /** What the pair sees once the packet at the head of side A's network queue is off it. */
  function Taking(s: Sys): Pair
    requires s.a.netRecv != []
  {
    View(s).(x := s.a.(netRecv := s.a.netRecv[1..]))
  }

  lemma ViewNetwork(s: Sys, junk: U32)
    requires Shake(s) && s.a.Unblocked() && s.a.netRecv != []
    ensures var s' := Apply(s, OnNetwork(s.a, junk));
            Shake(s') && PipeToA(s) == s.a.netRecv + s.ba && View(s') == AfterPacket(Taking(s), junk)
  {
    var s' := Apply(s, OnNetwork(s.a, junk));
    var rest := s.a.netRecv[1..];
    PacketSeat(s.a.(netRecv := rest), s.a.netRecv[0], junk);
    assert PipeToA(s)[1..] == rest + s.ba;
    ShakeGivesReady(s);
    PipeGrows(s, s', OnNetwork(s.a, junk).out);
    assert PipeToA(s') == rest + s.ba;
  }

  lemma InvNetwork(s: Sys, junk: U32)
    requires Inv(s) && s.a.Unblocked() && !s.a.done && s.a.netRecv != []
    ensures Inv(Apply(s, OnNetwork(s.a, junk)))
  {
    ViewNetwork(s, junk);
    NetRecvUnseen(View(s), s.a.netRecv[1..]);
    PairPacket(Taking(s), junk);
  }

  lemma TurnNetwork(s: Sys, junk: U32)
    requires TurnInv(s) && s.a.Unblocked() && !s.a.done && s.a.netRecv != [] && DataInTurn(s.a)
    ensures TurnInv(Apply(s, OnNetwork(s.a, junk)))
  {
    InvNetwork(s, junk);
    ViewNetwork(s, junk);
    NetRecvUnseen(View(s), s.a.netRecv[1..]);
    BalancePacket(Taking(s), junk);
  }

  // ---- the application and close branches

  lemma ViewApp(s: Sys, junk: U32)
    requires Shake(s) && s.a.Unblocked() && s.a.appRecv != [] && 0 <= s.a.sendWind
    ensures Shake(Apply(s, OnApp(s.a, junk))) && View(Apply(s, OnApp(s.a, junk))) == AfterApp(View(s), junk)
  {
    PipeGrows(s, Apply(s, OnApp(s.a, junk)), OnApp(s.a, junk).out);
  }

  lemma InvApp(s: Sys, junk: U32)
    requires Inv(s) && s.a.Unblocked() && !s.a.done && s.a.appRecv != [] && 0 <= s.a.sendWind
    ensures Inv(Apply(s, OnApp(s.a, junk)))
  {
    ViewApp(s, junk);
    PairApp(View(s), junk);
  }

  lemma TurnApp(s: Sys, junk: U32)
    requires TurnInv(s) && s.a.Unblocked() && !s.a.done && s.a.appRecv != []
    ensures 0 <= s.a.sendWind
    ensures TurnInv(Apply(s, OnApp(s.a, junk)))
  {
    BalanceApp(View(s), junk);
    InvApp(s, junk);
    ViewApp(s, junk);
  }

  lemma ViewClose(s: Sys, junk: U32)
    requires Shake(s) && s.a.Unblocked()
    ensures Shake(Apply(s, OnClose(s.a, junk))) && View(Apply(s, OnClose(s.a, junk))) == AfterClose(View(s), junk)
  {
    assert AckVals(OnClose(s.a, junk).out) == [];
    PipeGrows(s, Apply(s, OnClose(s.a, junk)), OnClose(s.a, junk).out);
  }

  lemma InvClose(s: Sys, junk: U32)
    requires Inv(s) && s.a.Unblocked() && !s.a.FinSent()
    requires s.a.closed && !s.a.closeRequested && s.a.appRecv == []
    requires s.aInitiates || s.a.phase.CloseWait?
    ensures Inv(Apply(s, OnClose(s.a, junk)))
  {
    ViewClose(s, junk);
    PairClose(View(s), junk);
  }

  // ---- one iteration

  lemma WaitUnseen(p: Pair)
    ensures PairOk(p) ==> PairOk(p.(x := AfterWait(p.x)))
    ensures Balanced(p) ==> Balanced(p.(x := AfterWait(p.x)))
  {
  }

  lemma WaitKeeps(s: Sys)
    requires Inv(s)
    ensures Inv(s.(a := AfterWait(s.a)))
    ensures Balanced(View(s)) ==> Balanced(View(s.(a := AfterWait(s.a))))
  {
    var s' := s.(a := AfterWait(s.a));
    WaitUnseen(View(s));
    assert ToA(s') == ToA(s) && Shake(s');
    assert View(s') == View(s).(x := AfterWait(s.a));
  }

  lemma AfterNetworkIs(s: Sys, junk: U32)
    ensures var s0 := s.(a := AfterWait(s.a));
            AfterNetwork(s, junk) == if s.a.netRecv != [] then Apply(s0, OnNetwork(s0.a, junk)) else s0
  {
    assert s.ab + [] == s.ab;
  }

  /** After the network branch the invariant holds and the other two branches find what the wait promised them. */
  lemma InvAfterNetwork(s: Sys, junk: U32)
    requires Inv(s) && s.a.Unblocked() && !s.a.done
    ensures var s1 := AfterNetwork(s, junk);
            && Inv(s1) && s1.a.Unblocked()
            && s1.a.appRecv == s.a.appRecv && s1.a.closed == s.a.closed && s1.a.FinSent() == s.a.FinSent()
            && s1.aInitiates == s.aInitiates
            && (s.a.appRecv == [] ==> !s1.a.closeRequested)
  {
    var s0 := s.(a := AfterWait(s.a));
    WaitKeeps(s);
    if s.a.netRecv != [] {
      InvNetwork(s0, junk);
      PacketSeat(s0.a.(netRecv := s0.a.netRecv[1..]), s0.a.netRecv[0], junk);
    }
    AfterNetworkIs(s, junk);
  }

  lemma TurnAfterNetwork(s: Sys, junk: U32)
    requires TurnInv(s) && s.a.Unblocked() && !s.a.done && DataInTurn(s.a)
    ensures TurnInv(AfterNetwork(s, junk))
  {
    var s0 := s.(a := AfterWait(s.a));
    WaitKeeps(s);
    if s.a.netRecv != [] {
      TurnNetwork(s0, junk);
    }
    AfterNetworkIs(s, junk);
  }

  /** After the network branch at most one of the other two has work: the close event waits for the application
      queue. */
  lemma LoopIs(s: Sys, netJunk: U32, appJunk: U32, closeJunk: U32)
    requires AfterNetwork(s, netJunk).a.appRecv == s.a.appRecv
    ensures var s1 := AfterNetwork(s, netJunk);
            Apply(s, LoopStep(s.a, netJunk, appJunk, closeJunk))
            == if WaitEvents(s.a).app && 0 <= s1.a.sendWind then Apply(s1, OnApp(s1.a, appJunk))
               else if WaitEvents(s.a).close then Apply(s1, OnClose(s1.a, closeJunk)) else s1
  {
    var s1 := AfterNetwork(s, netJunk);
    if WaitEvents(s.a).app && 0 <= s1.a.sendWind {
      Concat3(s.ab, AfterNetworkStep(s.a, netJunk).out, OnApp(s1.a, appJunk).out);
    } else {
      Concat3(s.ab, AfterNetworkStep(s.a, netJunk).out, OnClose(s1.a, closeJunk).out);
    }
  }

  lemma InvLoop(s: Sys, netJunk: U32, appJunk: U32, closeJunk: U32)
    requires Inv(s) && s.a.Unblocked() && !s.a.done && OneInitiator(s, netJunk)
    ensures Inv(Apply(s, LoopStep(s.a, netJunk, appJunk, closeJunk)))
  {
    var events := WaitEvents(s.a);
    var s1 := AfterNetwork(s, netJunk);
    InvAfterNetwork(s, netJunk);
    LoopIs(s, netJunk, appJunk, closeJunk);
    assert events.app || events.close ==> !s1.a.FinSent() && !s1.a.done;
    if events.app && 0 <= s1.a.sendWind {
      InvApp(s1, appJunk);
    } else if events.close {
      InvClose(s1, closeJunk);
    }
  }

  /** In turn, the application branch only ever runs with an open or empty window, never a negative one. */
  lemma TurnLoop(s: Sys, netJunk: U32, appJunk: U32, closeJunk: U32)
    requires TurnInv(s) && s.a.Unblocked() && !s.a.done && DataInTurn(s.a) && OneInitiator(s, netJunk)
    ensures WaitEvents(s.a).app ==> 0 <= AfterNetwork(s, netJunk).a.sendWind
    ensures TurnInv(Apply(s, LoopStep(s.a, netJunk, appJunk, closeJunk)))
  {
    var s1 := AfterNetwork(s, netJunk);
    InvLoop(s, netJunk, appJunk, closeJunk);
    InvAfterNetwork(s, netJunk);
    TurnAfterNetwork(s, netJunk);
    LoopIs(s, netJunk, appJunk, closeJunk);
    if WaitEvents(s.a).app {
      assert !s1.a.FinSent() && !s1.a.done;
      TurnApp(s1, appJunk);
    } else if WaitEvents(s.a).close {
      ViewClose(s1, closeJunk);
      BalanceClose(View(s1), closeJunk);
    }
  }

  // ---- the handshake

  lemma HandshakeStart(s: Sys)
    requires Inv(s) && Enabled(s, Handshake) && s.a.phase.Start?
    ensures TurnInv(Do(s, Handshake))
  {
    StartPipes(s);
    StartShakes(s);
    StartUnseen(View(s), Do(s, Handshake).a);
  }

  lemma StartPipes(s: Sys)
    requires Shake(s) && Enabled(s, Handshake) && s.a.phase.Start?
    ensures !s.b.Unblocked() && View(Do(s, Handshake)) == View(s).(x := Do(s, Handshake).a)
  {
    assert s.b.phase.SynSent? && |ToA(s)| == 1 && ToA(Do(s, Handshake)) == [];
  }

  lemma StartShakes(s: Sys)
    requires Shake(s) && Enabled(s, Handshake) && s.a.phase.Start?
    ensures Shake(Do(s, Handshake))
  {
    assert ToA(s)[0] == s.a.netRecv[0];
    assert ToA(Do(s, Handshake)) == [] && ToB(Do(s, Handshake)) == OnHandshake(s.a).out;
  }

  /** Taking the SYN changes nothing the pair sees of a side that is not yet past its handshake. */
  lemma StartUnseen(p: Pair, x': Endpoint)
    requires PairOk(p) && p.x.phase.Start? && x' == p.x.(isn := x'.isn, netRecv := x'.netRecv, phase := SynRcvd)
    requires !p.y.Unblocked()
    ensures PairOk(p.(x := x')) && Balanced(p.(x := x'))
  {
  }

  lemma HandshakeActive(s: Sys)
    requires Inv(s) && Enabled(s, Handshake) && s.a.phase.SynSent?
    ensures TurnInv(Do(s, Handshake))
  {
    var s' := Do(s, Handshake);
    assert s.b.phase.SynRcvd? && ToB(s) == [] && |ToA(s)| == 1;
    assert ToB(s') == OnHandshake(s.a).out;
    assert ToB(s')[1..] == [];
    assert ToA(s') == [];
    assert PipeToB(s') == [] && PipeToA(s') == [];
    assert Off(s'.a.left, s'.a.isn) == 0;
  }

  lemma BothShake(s: Sys)
    requires s.a.Unblocked() && s.b.Unblocked() && s.a.active != s.b.active
    ensures Shake(s)
  {
  }

  lemma HandshakeDone(s: Sys)
    requires Inv(s) && Enabled(s, Handshake) && s.a.phase.SynRcvd?
    ensures Inv(Do(s, Handshake))
    ensures Balanced(View(s)) ==> Balanced(View(Do(s, Handshake)))
  {
    DonePipes(s);
    EnterKeeps(View(s), s.a.netRecv[1..]);
    BothShake(Do(s, Handshake));
  }

  /** The last packet of the handshake leaves the pipe as the pair has seen it all along. */
  lemma DonePipes(s: Sys)
    requires Shake(s) && Enabled(s, Handshake) && s.a.phase.SynRcvd?
    ensures s.b.Unblocked() && s.a.active != s.b.active && Do(s, Handshake).a.Unblocked() && Do(s, Handshake).b == s.b
    ensures Do(s, Handshake).a.active == s.a.active
    ensures PipeToB(s) == [] && AckVals(PipeToA(s)) == []
    ensures View(Do(s, Handshake)) == View(s).(x := Enter(s.a.(netRecv := s.a.netRecv[1..])))
  {
    var s', rest := Do(s, Handshake), s.a.netRecv[1..];
    assert s' == s.(a := Enter(s.a.(netRecv := rest)), ab := s.ab + []);
    assert PipeToA(s) == rest + s.ba && PipeToA(s') == rest + s.ba;
  }

  lemma EnterKeeps(p: Pair, q: seq<Packet>)
    requires PairOk(p) && p.xy == [] && p.x.phase.SynRcvd? && AckVals(p.yx) == []
    ensures PairOk(p.(x := Enter(p.x.(netRecv := q))))
    ensures Balanced(p) ==> Balanced(p.(x := Enter(p.x.(netRecv := q))))
  {
    assert Pending([], p.yx) == [];
  }

  lemma InvHandshake(s: Sys)
    requires Inv(s) && Enabled(s, Handshake)
    ensures Inv(Do(s, Handshake))
    ensures Balanced(View(s)) ==> Balanced(View(Do(s, Handshake)))
  {
    if s.a.phase.SynSent? {
      HandshakeActive(s);
    } else if s.a.phase.SynRcvd? {
      HandshakeDone(s);
    } else {
      HandshakeStart(s);
    }
  }

  // ---- the steps that leave the pipes alone

  lemma MoveOne(q: seq<Packet>, c: seq<Packet>)
    requires c != []
    ensures q + [c[0]] + c[1..] == q + c
  {
  }

  lemma InvDeliver(s: Sys)
    requires Inv(s) && s.ba != []
    ensures Inv(Do(s, Deliver))
    ensures Balanced(View(s)) ==> Balanced(View(Do(s, Deliver)))
  {
    var s' := Do(s, Deliver);
    MoveOne(s.a.netRecv, s.ba);
    assert Shake(s');
    NetRecvUnseen(View(s), s'.a.netRecv);
    assert View(s') == View(s).(x := s'.a);
  }

  /** A step of side A that leaves both pipes and the handshake as they are. */
  lemma InvLocal(s: Sys, s': Sys)
    requires Shake(s)
    requires s'.b == s.b && s'.ab == s.ab && s'.ba == s.ba
    requires s'.a.netRecv == s.a.netRecv && s'.a.phase == s.a.phase && s'.a.active == s.a.active
    requires s'.a.isn == s.a.isn
    ensures PipeToA(s') == PipeToA(s) && PipeToB(s') == PipeToB(s) && Shake(s')
  {
    assert ToA(s') == ToA(s) && ToB(s') == ToB(s);
  }

  /** The calls of the application and the thread's exit change no window. */
  lemma WindowUnseen(p: Pair, p': Pair)
    requires Balanced(p) && p'.xy == p.xy && p'.yx == p.yx && p'.y == p.y
    requires p'.x.phase == p.x.phase && p'.x.isn == p.x.isn && p'.x.left == p.x.left && p'.x.crossed == p.x.crossed
    requires p'.x.sendWind == p.x.sendWind && p'.x.eventChosen == p.x.eventChosen
    ensures Balanced(p')
  {
  }

  lemma InvCall(s: Sys, act: Action)
    requires Inv(s) && Enabled(s, act) && (act.Write? || act.Read? || act.Close? || act.Exit?)
    ensures Inv(Do(s, act))
    ensures Balanced(View(s)) ==> Balanced(View(Do(s, act)))
  {
    match act {
      case Write(buf) => PairWrite(View(s), buf);
      case Read(n) => PairRead(View(s), n);
      case Close => PairMyClose(View(s));
      case Exit => PairExit(View(s));
    }
    InvLocal(s, Do(s, act));
    if Balanced(View(s)) {
      WindowUnseen(View(s), View(Do(s, act)));
    }
  }

  lemma InvOpen(s: Sys, junk: U32)
    requires Inv(s) && Enabled(s, Open(junk))
    ensures TurnInv(Do(s, Open(junk)))
  {
  }

  // ---- runs

  lemma InvDo(s: Sys, act: Action)
    requires Inv(s) && Enabled(s, act)
    ensures Inv(Do(s, act))
    ensures Balanced(View(s)) && (act.Loop? ==> DataInTurn(s.a)) ==> Balanced(View(Do(s, act)))
  {
    match act
    case Open(junk) => InvOpen(s, junk);
    case Handshake => InvHandshake(s);
    case Deliver => InvDeliver(s);
    case Loop(i, j, k) =>
      InvLoop(s, i, j, k);
      if Balanced(View(s)) && DataInTurn(s.a) { TurnLoop(s, i, j, k); }
    case _ => InvCall(s, act);
  }

  lemma InvNext(s: Sys, step: Step)
    requires Inv(s) && CanStep(s, step)
    ensures Inv(Next(s, step))
    ensures TurnInv(s) && InTurn(s, step) ==> TurnInv(Next(s, step))
  {
    if step.onA {
      InvDo(s, step.action);
    } else {
      var t := Do(Flip(s), step.action);
      InvFlip(s);
      InvDo(Flip(s), step.action);
      InvFlip(t);
      if TurnInv(s) && InTurn(s, step) {
        BalancedFlip(s);
        BalancedFlip(t);
      }
    }
  }

  lemma InvStep(s: Sys, s': Sys)
    requires Inv(s) && OneStep(s, s')
    ensures Inv(s')
  {
    var step :| CanStep(s, step) && s' == Next(s, step);
    InvNext(s, step);
  }

  lemma TurnInvStep(s: Sys, s': Sys)
    requires TurnInv(s) && TurnStep(s, s')
    ensures TurnInv(s')
  {
    var step :| CanStep(s, step) && InTurn(s, step) && s' == Next(s, step);
    InvNext(s, step);
  }

  /** Every state of every run satisfies the invariant. */
  lemma {:induction false} InvRun(run: seq<Sys>, k: nat)
    requires IsRun(run) && k < |run|
    ensures Inv(run[k])
  {
    if k == 0 {
      InvInit(run[0]);
    } else {
      InvRun(run, k - 1);
      assert StepAt(run, k);
      InvStep(run[k - 1], run[k]);
    }
  }

  /** Every state of every run whose data goes in turns has balanced windows as well. */
  lemma {:induction false} TurnRun(run: seq<Sys>, k: nat)
    requires IsTurnRun(run) && k < |run|
    ensures TurnInv(run[k])
  {
    if k == 0 {
      InvInit(run[0]);
    } else {
      TurnRun(run, k - 1);
      assert TurnAt(run, k);
      TurnInvStep(run[k - 1], run[k]);
    }
  }
}
