/** That a connection ends: once both applications have closed and nothing can move, both transports are done. */
module StcpEnding {
  import opened StcpEndpoint
  import opened StcpSystem
  import opened StcpInvariant
  import opened StcpRuns
  import opened StcpProgress
  import opened StcpTheorems
  import opened StcpScope

  // ---- what each side keeps until its end

  /** A close request waits until the FIN is sent for it. */
  predicate CloseKept(e: Endpoint) { e.closed ==> e.closeRequested || e.FinSent() }

  /** Once the thread has ended its marker is queued or seen. */
  predicate EndKept(e: Endpoint) { e.exited ==> e.eof || [] in e.appSend }

  predicate Kept(e: Endpoint) { CloseKept(e) && EndKept(e) }

  lemma PacketKeeps(e: Endpoint, p: Packet, junk: U32)
    requires EndKept(e)
    ensures EndKept(OnPacket(e, p, junk).state)
  {
    if p.flags == TH_ACK {
      assert OnPacket(e, p, junk).state == OnAck(e, p);
    } else if p.flags == TH_FIN {
      assert OnPacket(e, p, junk) == OnFin(e, junk);
    } else {
      assert OnPacket(e, p, junk) == OnData(e, p);
    }
  }

  lemma AfterNetworkKeeps(e: Endpoint, i: U32)
    requires Kept(e)
    ensures EndKept(AfterNetworkStep(e, i).state)
    ensures WaitEvents(e).close || CloseKept(AfterNetworkStep(e, i).state)
  {
    var e0 := AfterWait(e);
    if e.netRecv != [] {
      PacketSeat(e0.(netRecv := e0.netRecv[1..]), e0.netRecv[0], i);
      PacketKeeps(e0.(netRecv := e0.netRecv[1..]), e0.netRecv[0], i);
    }
  }

  lemma LoopKeeps(e: Endpoint, i: U32, j: U32, k: U32)
    requires Kept(e)
    ensures Kept(LoopStep(e, i, j, k).state)
  {
    var e1 := AfterNetworkStep(e, i).state;
    AfterNetworkWork(e, i);
    AfterNetworkKeeps(e, i);
    LoopParts(e, i, j, k);
    if WaitEvents(e).app && 0 <= e1.sendWind {
      AppKeeps(e1, j);
    } else if WaitEvents(e).close {
      CloseKeeps(e1, k);
    }
  }

  lemma AppKeeps(e: Endpoint, j: U32)
    requires Kept(e) && e.appRecv != [] && 0 <= e.sendWind
    ensures Kept(OnApp(e, j).state)
  {
  }

  lemma CloseKeeps(e: Endpoint, k: U32)
    requires EndKept(e)
    ensures Kept(OnClose(e, k).state)
  {
  }

  lemma ReadKeeps(e: Endpoint, n: nat)
    requires Kept(e) && (e.eof || e.appSend != []) && n > 0
    ensures Kept(OnRead(e, n).state)
  {
    if !e.eof && e.exited {
      var r := OnRead(e, n).state;
      if e.appSend[0] != [] {
        assert [] in e.appSend[1..];
        assert forall x :: x in e.appSend[1..] ==> x in r.appSend;
      }
    }
  }

  lemma DoKeeps(s: Sys, act: Action)
    requires Kept(s.a) && Enabled(s, act)
    ensures Kept(Do(s, act).a) && Do(s, act).b == s.b
  {
    match act
    case Loop(i, j, k) => LoopKeeps(s.a, i, j, k);
    case Read(n) => ReadKeeps(s.a, n);
    case Exit => assert (s.a.appSend + [[]])[|s.a.appSend|] == [];
    case _ =>
  }

  lemma StepKeeps(s: Sys, s': Sys)
    requires OneStep(s, s') && Kept(s.a) && Kept(s.b)
    ensures Kept(s'.a) && Kept(s'.b)
  {
    var step :| CanStep(s, step) && s' == Next(s, step);
    DoKeeps(if step.onA then s else Flip(s), step.action);
  }

  lemma {:induction false} KeptInRuns(run: seq<Sys>, k: nat)
    requires IsRun(run) && k < |run|
    ensures Kept(run[k].a) && Kept(run[k].b)
  {
    if k > 0 {
      KeptInRuns(run, k - 1);
      assert StepAt(run, k);
      StepKeeps(run[k - 1], run[k]);
    }
  }

  /** Once the transport thread has ended, `myread` never blocks: end of file has been seen or is queued. */
  lemma EndedMeansEof(run: seq<Sys>, k: nat)
    requires IsRun(run) && k < |run| && run[k].a.exited
    ensures run[k].a.eof || [] in run[k].a.appSend
  {
    KeptInRuns(run, k);
  }

  // ---- the end

  lemma RestingMeansFinSent(s: Sys)
    requires Inv(s) && Resting(s) && Kept(s.a) && s.a.closed && !Spins(s.a)
    ensures s.a.FinSent()
  {
    RestingPipes(s);
    assert s.a.Unblocked();
    assert s.a.FinSent() || !s.a.done;
  }

  lemma AllDone(s: Sys)
    requires Inv(s) && Resting(s) && s.a.FinSent() && s.b.FinSent()
    ensures s.a.done && s.b.done
  {
    InvFlip(s);
    RestingPipes(s);
    RestingPipes(Flip(s));
  }

  /**
   Once both applications have closed and nothing can move, both transports are done, unless one spins without a
   window: so with `StcpProgress.TransportSettles` the connection ends.
   */
  lemma RestMeansDone(run: seq<Sys>, k: nat)
    requires IsRun(run) && k < |run| && Resting(run[k])
    requires run[k].a.closed && run[k].b.closed && !Spins(run[k].a) && !Spins(run[k].b)
    ensures run[k].a.done && run[k].b.done
  {
    var s := run[k];
    InvRun(run, k);
    InvFlip(s);
    KeptInRuns(run, k);
    RestingMeansFinSent(s);
    RestingMeansFinSent(Flip(s));
    AllDone(s);
  }

  lemma TurnRestDoesNotSpin(run: seq<Sys>, k: nat)
    requires IsTurnRun(run) && k < |run| && Resting(run[k]) && run[k].a.Unblocked() && !run[k].a.done
    ensures !Spins(run[k].a)
  {
    var s := run[k];
    TurnRunIsRun(run);
    InvRun(run, k);
    RestingPipes(s);
    if !s.a.FinSent() {
      QuietWindowIsOpen(run, k);
    }
  }

  /** In a run in turn no window is in the way: both sides closed and nothing to do means both are done. */
  lemma TurnRestMeansDone(run: seq<Sys>, k: nat)
    requires IsTurnRun(run) && k < |run| && Resting(run[k]) && run[k].a.closed && run[k].b.closed
    ensures run[k].a.done && run[k].b.done
  {
    var s := run[k];
    TurnRunIsRun(run);
    RunFlips(run);
    InvRun(run, k);
    assert s.a.Unblocked() && s.b.Unblocked();
    if !s.a.done { TurnRestDoesNotSpin(run, k); }
    if !s.b.done { TurnRestDoesNotSpin(Flipped(run), k); }
    RestMeansDone(run, k);
  }

  // ---- an orderly close

  /** A closes, B hears of it and answers, and A hears that. */
  function HalfClosed(s: Sys): (r: Sys)
    requires s.ab == [] && s.ba == [] && s.a.phase.Established? && s.b.phase.Established?
    ensures r.ab == [] && r.ba == [] && r.b.phase.CloseWait? && r.a.phase.FinSentAckReceived?
  {
    Received(Flip(Received(Flip(Closed(s)))))
  }

  lemma HalfClosedReached(s: Sys)
    requires Reachable(s, true) && s.aInitiates && Idle(s.a) && Idle(s.b)
    requires s.ab == [] && s.ba == [] && s.a.phase.Established? && s.b.phase.Established?
    ensures Reachable(HalfClosed(s), true) && Idle(HalfClosed(s).b)
  {
    ReachClosed(s, true);
    ReachFlip(Closed(s), true);
    ReachReceived(Flip(Closed(s)), true);
    var t := Received(Flip(Closed(s)));
    ReachFlip(t, true);
    ReachReceived(Flip(t), true);
  }

  lemma HalfClosedIs(s: Sys)
    requires s.ab == [] && s.ba == [] && s.a.phase.Established? && s.b.phase.Established?
    ensures var r := HalfClosed(s);
            && r.a.closed && r.a.done == s.a.done && r.a.netRecv == s.a.netRecv && r.a.appRecv == s.a.appRecv
            && r.a.closeRequested == s.a.closeRequested
  {
  }

  /** The connection can be made, closed by both and brought to its end. */
  lemma OrderlyCloseEnds() returns (run: seq<Sys>)
    ensures IsTurnRun(run)
    ensures var s := run[|run| - 1]; s.a.closed && s.b.closed && s.a.done && s.b.done && s.ab == [] && s.ba == []
  {
    var s := Connected(true);
    ReachConnected(true);
    HalfClosedReached(s);
    var t := HalfClosed(s);
    HalfClosedIs(s);
    LastExchangeReached(t);
    LastExchangeEnds(t);
    run :| RunOf(run, true) && run[|run| - 1] == LastExchange(t);
  }

  /** B's FIN and ACK exchange from the half-closed state `t`. */
  function LastExchange(t: Sys): Sys
    requires t.ab == [] && t.ba == [] && t.b.phase.CloseWait? && t.a.phase.FinSentAckReceived?
  {
    Flip(Received(Flip(Received(Flip(Closed(Flip(t)))))))
  }

  lemma LastExchangeReached(t: Sys)
    requires Reachable(t, true) && t.ab == [] && t.ba == [] && Idle(t.b) && t.b.phase.CloseWait?
    requires t.a.phase.FinSentAckReceived? && !t.a.done && t.a.netRecv == [] && t.a.appRecv == [] && !t.a.closeRequested
    ensures Reachable(LastExchange(t), true)
  {
    ReachFlip(t, true);
    ReachClosed(Flip(t), true);
    var u := Flip(Closed(Flip(t)));
    ReachFlip(Closed(Flip(t)), true);
    ReachReceived(u, true);
    var v := Received(u);
    ReachFlip(v, true);
    ReachReceived(Flip(v), true);
    ReachFlip(Received(Flip(v)), true);
  }

  lemma LastExchangeEnds(t: Sys)
    requires t.ab == [] && t.ba == [] && t.b.phase.CloseWait? && t.a.phase.FinSentAckReceived? && t.a.closed
    ensures var r := LastExchange(t); r.a.closed && r.b.closed && r.a.done && r.b.done && r.ab == [] && r.ba == []
  {
  }
}
