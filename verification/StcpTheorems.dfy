/** What the invariant means for the two applications and for the connection. */
module StcpTheorems {
  import opened Streams
  import opened StcpQueue
  import opened StcpEndpoint
  import opened StcpPipes
  import opened StcpSystem
  import opened StcpInvariant
  import opened StcpSteps
  import opened StcpRuns

  // ---- the byte stream

  function Flipped(run: seq<Sys>): seq<Sys> {
    seq(|run|, i requires 0 <= i < |run| => Flip(run[i]))
  }

  /** A run seen from the other side is a run, so what is shown of side A holds of side B. */
  lemma RunFlips(run: seq<Sys>)
    ensures IsRun(run) ==> IsRun(Flipped(run))
    ensures IsTurnRun(run) ==> IsTurnRun(Flipped(run))
  {
    forall j | 0 < j < |run|
      ensures StepAt(run, j) ==> StepAt(Flipped(run), j)
      ensures TurnAt(run, j) ==> TurnAt(Flipped(run), j)
    {
      var s, s' := run[j - 1], run[j];
      forall step | CanStep(s, step) && s' == Next(s, step)
        ensures OneStep(Flip(s), Flip(s'))
        ensures InTurn(s, step) ==> TurnStep(Flip(s), Flip(s'))
      {
        StepFlips(s, step);
      }
    }
  }

  lemma StepFlips(s: Sys, step: Step)
    requires CanStep(s, step)
    ensures OneStep(Flip(s), Flip(Next(s, step)))
    ensures InTurn(s, step) ==> TurnStep(Flip(s), Flip(Next(s, step)))
  {
    var step' := Step(!step.onA, step.action);
    assert Flip(Flip(s)) == s;
    assert CanStep(Flip(s), step') && Next(Flip(s), step') == Flip(Next(s, step));
    assert InTurn(s, step) ==> InTurn(Flip(s), step');
  }

  /** What one side has read is a prefix of what the other has written. */
  lemma ReadIsPrefixOfWritten(run: seq<Sys>, k: nat)
    requires IsRun(run) && k < |run|
    ensures run[k].gotB <= run[k].wroteA && run[k].gotA <= run[k].wroteB
  {
    InvRun(run, k);
    var s := run[k];
  }

  lemma DrainedIsComplete(s: Sys)
    requires Inv(s) && s.b.GotFin() && Flatten(s.b.appSend) == []
    ensures s.gotB == s.wroteA
  {
    NoDataNoBytes(PipeToB(s));
  }

  /** Every packet an established side can receive fits its 556-byte buffer. */
  lemma PacketsFit(run: seq<Sys>, k: nat)
    requires IsRun(run) && k < |run|
    ensures PipeOk(PipeToA(run[k])) && PipeOk(PipeToB(run[k]))
  {
    InvRun(run, k);
  }

  /** Once the peer's FIN has been processed and the queue read out, everything written has been
      read; a reader that has seen end of file is in that position. */
  lemma EndOfFileIsComplete(run: seq<Sys>, k: nat)
    requires IsRun(run) && k < |run|
    ensures run[k].b.GotFin() && Flatten(run[k].b.appSend) == [] ==> run[k].gotB == run[k].wroteA
    ensures run[k].a.GotFin() && Flatten(run[k].a.appSend) == [] ==> run[k].gotA == run[k].wroteB
    ensures run[k].b.eof ==> run[k].b.GotFin() && run[k].gotB == run[k].wroteA
    ensures run[k].a.eof ==> run[k].a.GotFin() && run[k].gotA == run[k].wroteB
  {
    InvRun(run, k);
    var s := run[k];
    InvFlip(s);
    if s.b.GotFin() && Flatten(s.b.appSend) == [] { DrainedIsComplete(s); }
    if s.a.GotFin() && Flatten(s.a.appSend) == [] { DrainedIsComplete(Flip(s)); }
    if s.b.eof { MarkersFlat(s.b.appSend); DrainedIsComplete(s); }
    if s.a.eof { MarkersFlat(s.a.appSend); DrainedIsComplete(Flip(s)); }
  }

  lemma EofKeptByDo(s: Sys, act: Action)
    requires Enabled(s, act) && s.a.eof
    ensures Do(s, act).a.eof && Do(s, act).gotA == s.gotA
    ensures Do(s, act).b == s.b && Do(s, act).gotB == s.gotB
  {
    match act
    case Loop(i, j, k) => LoopKeepsReader(s, i, j, k);
    case Handshake =>
    case _ =>
  }

  lemma AfterNetworkKeepsReader(s: Sys, i: U32)
    ensures var s1 := AfterNetwork(s, i);
            s1.a.eof == s.a.eof && s1.gotA == s.gotA && s1.b == s.b && s1.gotB == s.gotB
  {
    if s.a.netRecv != [] {
      var x := AfterWait(s.a);
    }
  }

  lemma LoopKeepsReader(s: Sys, i: U32, j: U32, k: U32)
    ensures var s' := Apply(s, LoopStep(s.a, i, j, k));
            s'.a.eof == s.a.eof && s'.gotA == s.gotA && s'.b == s.b && s'.gotB == s.gotB
  {
    AfterNetworkKeepsReader(s, i);
  }

  lemma OtherSideKeepsReader(s: Sys, act: Action)
    requires Enabled(s, act)
    ensures Do(s, act).b == s.b && Do(s, act).gotB == s.gotB
  {
    match act
    case Loop(i, j, k) => LoopKeepsReader(s, i, j, k);
    case _ =>
  }

  lemma EofKeptByStep(s: Sys, s': Sys)
    requires OneStep(s, s') && s.a.eof
    ensures s'.a.eof && s'.gotA == s.gotA
  {
    var step :| CanStep(s, step) && s' == Next(s, step);
    if step.onA {
      EofKeptByDo(s, step.action);
    } else {
      OtherSideKeepsReader(Flip(s), step.action);
    }
  }

  /** End of file is for ever: from then on `myread` returns nothing more. */
  lemma {:induction false} EndOfFileStays(run: seq<Sys>, i: nat, j: nat)
    requires IsRun(run) && i <= j < |run| && run[i].a.eof
    ensures run[j].a.eof && run[j].gotA == run[i].gotA
    decreases j
  {
    if i < j {
      EndOfFileStays(run, i, j - 1);
      assert StepAt(run, j);
      EofKeptByStep(run[j - 1], run[j]);
    }
  }

  /** `myread` reports end of file exactly when it meets an end-of-file marker or is given no room:
      reading into an empty buffer ends the stream however much is still queued. */
  lemma ReadReportsEof(e: Endpoint, n: nat)
    requires !e.eof && e.appSend != []
    ensures OnRead(e, n).state.eof <==> n == 0 || e.appSend[0] == []
    ensures OnRead(e, n).state.eof <==> OnRead(e, n).got == []
  {
    DequeueSplits(e.appSend, n);
  }

  // ---- the window, when data goes in turns

  /** Until a side sends its FIN, what it may still send and what is unacknowledged make up the
      window of 3072 bytes, on sequence numbers that wrap. */
  lemma WindowConserved(run: seq<Sys>, k: nat)
    requires IsTurnRun(run) && k < |run| && run[k].a.Unblocked() && !run[k].a.FinSent()
    ensures var e := run[k].a; 0 <= e.sendWind <= WINDOW && e.sendWind + Off(e.left, e.isn) == WINDOW
  {
    TurnRun(run, k);
    var s := run[k];
    ChainSpan(Slack(s.a), s.a.isn, Pending(PipeToB(s), PipeToA(s)), s.a.left, WINDOW - s.a.sendWind);
  }

  /** Data out of turn is exactly what breaks the conservation: at the end of any run so far in turn, processing
      a data segment keeps it if and only if nothing is outstanding, because `left` is restarted. */
  lemma DataKeepsWindowIffInTurn(run: seq<Sys>, k: nat, junk: U32)
    requires IsTurnRun(run) && k < |run| && run[k].a.Unblocked() && !run[k].a.FinSent()
    requires run[k].a.netRecv != [] && IsData(run[k].a.netRecv[0])
    ensures var e := AfterNetwork(run[k], junk).a;
            e.sendWind + Off(e.left, e.isn) == WINDOW <==> DataInTurn(run[k].a)
  {
    WindowConserved(run, k);
    var x := AfterWait(run[k].a);
    assert AfterNetwork(run[k], junk).a == OnData(x.(netRecv := x.netRecv[1..]), x.netRecv[0]).state;
  }

  // In turn or not: the same sum on the 32-bit circle.

  function Circle(sendWind: I32, left: U32, isn: U32): U32 { (sendWind + left - isn) % 0x1_0000_0000 }

  function Ledger(e: Endpoint): U32 { Circle(e.sendWind, e.left, e.isn) }

  lemma CircleData(w: I32, left: U32, isn: U32, next: U32)
    ensures Circle(w, next, next) == (Circle(w, left, isn) - Off(left, isn)) % 0x1_0000_0000
  {
  }

  lemma CircleAck(w: I32, left: U32, isn: U32, v: U32)
    ensures Circle(Shift(w, v, isn), left, v) == Circle(w, left, isn)
  {
  }

  lemma CircleFin(w: I32, left: U32, isn: U32)
    ensures Circle(w, Add(left, 1), Add(isn, 1)) == Circle(w, left, isn)
  {
  }

  lemma CircleSend(w: I32, left: U32, isn: U32, n: nat)
    requires n <= w
    ensures Circle(w - n, Add(left, n), isn) == Circle(w, left, isn)
  {
  }

  /** The bytes a packet makes this side forget: what is outstanding when it processes a data segment. */
  function Forgotten(e: Endpoint, p: Packet): U32 {
    if IsData(p) then Off(e.left, e.isn) else 0
  }

  lemma LedgerPacket(e: Endpoint, p: Packet, junk: U32)
    requires e.Unblocked() && !e.FinSent()
    ensures Ledger(OnPacket(e, p, junk).state) == (Ledger(e) - Forgotten(e, p)) % 0x1_0000_0000
  {
    if IsAck(p) {
      CircleAck(e.sendWind, e.left, e.isn, p.ackNo);
      assert OnPacket(e, p, junk).state == OnAck(e, p);
    } else if IsFin(p) {
      CircleFin(e.sendWind, e.left, e.isn);
      assert OnPacket(e, p, junk).state == OnFin(e, junk).state;
    } else {
      CircleData(e.sendWind, e.left, e.isn, Add(e.isn, 1));
      assert OnPacket(e, p, junk).state == OnData(e, p).state;
    }
  }

  lemma LedgerApp(e: Endpoint, junk: U32)
    requires e.appRecv != [] && 0 <= e.sendWind
    ensures Ledger(OnApp(e, junk).state) == Ledger(e)
  {
    CircleSend(e.sendWind, e.left, e.isn, |Taken(e.appRecv, Min(e.sendWind, STCP_MSS))|);
  }

  /**
   In any run, in turn or not, a trip round the loop that sends no FIN changes that sum by nothing but the bytes
   outstanding when it processes a data segment, which it takes away for good.
   */
  lemma LoopKeepsLedger(run: seq<Sys>, k: nat, netJunk: U32, appJunk: U32, closeJunk: U32)
    requires IsRun(run) && k < |run| && Enabled(run[k], Loop(netJunk, appJunk, closeJunk))
    requires !run[k].a.FinSent() && !WaitEvents(run[k].a).close
    ensures var e := run[k].a;
            Ledger(Do(run[k], Loop(netJunk, appJunk, closeJunk)).a)
            == (Ledger(e) - if e.netRecv != [] then Forgotten(e, e.netRecv[0]) else 0) % 0x1_0000_0000
  {
    var s := run[k];
    var s1 := AfterNetwork(s, netJunk);
    InvRun(run, k);
    InvAfterNetwork(s, netJunk);
    LoopIs(s, netJunk, appJunk, closeJunk);
    AfterNetworkLedger(s, netJunk);
    if WaitEvents(s.a).app && 0 <= s1.a.sendWind {
      LedgerApp(s1.a, appJunk);
    }
  }

  lemma AfterNetworkLedger(s: Sys, junk: U32)
    requires s.a.Unblocked() && !s.a.FinSent()
    ensures Ledger(AfterNetwork(s, junk).a)
         == (Ledger(s.a) - if s.a.netRecv != [] then Forgotten(s.a, s.a.netRecv[0]) else 0) % 0x1_0000_0000
  {
    if s.a.netRecv != [] {
      var x := AfterWait(s.a).(netRecv := s.a.netRecv[1..]);
      LedgerPacket(x, s.a.netRecv[0], junk);
      assert AfterNetwork(s, junk).a == OnPacket(x, s.a.netRecv[0], junk).state;
    }
  }

  /** The application branch never sees a negative window, so never overruns its 536-byte buffer. */
  lemma LoopStaysInBounds(run: seq<Sys>, k: nat, netJunk: U32, appJunk: U32, closeJunk: U32)
    requires IsTurnRun(run) && k < |run| && Enabled(run[k], Loop(netJunk, appJunk, closeJunk)) && DataInTurn(run[k].a)
    ensures WaitEvents(run[k].a).app ==> 0 <= AfterNetwork(run[k], netJunk).a.sendWind
  {
    TurnRun(run, k);
    TurnLoop(run[k], netJunk, appJunk, closeJunk);
  }

  /** A shut window is never a dead end: a segment this side sent, or the ACK for one, is still on its way. */
  lemma ShutWindowHasTraffic(run: seq<Sys>, k: nat)
    requires IsTurnRun(run) && k < |run|
    requires run[k].a.Unblocked() && !run[k].a.FinSent() && run[k].a.sendWind == 0
    ensures HasData(PipeToB(run[k])) || AckVals(PipeToA(run[k])) != []
  {
    TurnRun(run, k);
    if !HasData(PipeToB(run[k])) {
      NoDataNoBytes(PipeToB(run[k]));
    }
  }

  /** `event_chosen` is NETWORK_DATA exactly while the window is shut; one half needs that the peer's FIN
      did not arrive on top of unacknowledged bytes. */
  lemma MaskFollowsWindow(run: seq<Sys>, k: nat)
    requires IsTurnRun(run) && k < |run| && run[k].a.Unblocked() && !run[k].a.FinSent()
    ensures run[k].a.eventChosen.NetworkOnly? ==> run[k].a.sendWind == 0
    ensures !run[k].a.crossed ==>
              (run[k].a.eventChosen.NetworkOnly? <==> run[k].a.sendWind == 0)
  {
    TurnRun(run, k);
  }

  /** Hence `stcp_app_recv` is asked for at most a segment, and for nothing exactly when a FIN crossed
      unacknowledged bytes and the window is shut. */
  lemma AppAskedForBytes(run: seq<Sys>, k: nat, netJunk: U32, appJunk: U32, closeJunk: U32)
    requires IsTurnRun(run) && k < |run| && Enabled(run[k], Loop(netJunk, appJunk, closeJunk)) && DataInTurn(run[k].a)
    requires WaitEvents(run[k].a).app
    ensures var e := AfterNetwork(run[k], netJunk).a; var room := Min(e.sendWind, STCP_MSS);
            0 <= room <= STCP_MSS && (room == 0 <==> e.crossed && e.sendWind == 0)
  {
    var s := run[k];
    TurnRun(run, k);
    InvAfterNetwork(s, netJunk);
    TurnAfterNetwork(s, netJunk);
    var s1 := AfterNetwork(s, netJunk);
    assert !s1.a.FinSent();
    if s.a.netRecv != [] {
      var x := AfterWait(s.a);
    }
    assert s1.a.eventChosen.AnyEvent?;
  }

  /** An ACK always lifts the mask, but opens a shut window only if it acknowledges something; after
      a FIN that crossed a one-byte segment it may acknowledge nothing by this side's own numbering. */
  lemma AckOpensWindowIff(e: Endpoint, p: Packet)
    requires e.Unblocked() && !e.FinSent() && e.sendWind == 0 && Off(p.ackNo, e.isn) <= WINDOW
    ensures OnAck(e, p).eventChosen.AnyEvent?
    ensures OnAck(e, p).sendWind > 0 <==> p.ackNo != e.isn
  {
    OffAdd(e.sendWind, p.ackNo, e.isn);
  }

  // ---- the handshake

  /** The packet a side's handshake is about to take acknowledges the number this side has come to, as the SYN counts
      for one. */
  lemma HandshakeNumbersMatch(run: seq<Sys>, k: nat)
    requires IsRun(run) && k < |run| && Enabled(run[k], Handshake)
    ensures var e, p := run[k].a, run[k].a.netRecv[0];
            && (e.phase.Start? ==> p.flags == TH_SYN && Add(p.seqNo, 1) == run[k].b.isn)
            && (e.phase.SynSent? ==> p.flags == TH_ACK + TH_SYN && p.ackNo == e.isn && Add(p.seqNo, 1) == run[k].b.isn)
            && (e.phase.SynRcvd? ==> p.flags == TH_ACK && p.ackNo == e.isn)
  {
    InvRun(run, k);
    assert ToA(run[k])[0] == run[k].a.netRecv[0];
  }

  // ---- sequence numbers

  /** A SYN, a segment and a FIN use up the numbers from their own on: one for SYN and FIN, one for each byte. */
  lemma NumbersAreUsedUp(e: Endpoint, junk: U32)
    ensures var r := OpenActive(e, junk); r.state.isn == Add(r.out[0].seqNo, 1)
    ensures var r := OnClose(e, junk); r.out[0].seqNo == e.left && r.state.left == Add(r.out[0].seqNo, 1)
    ensures e.appRecv != [] && 0 <= e.sendWind && OnApp(e, junk).out != [] ==>
              var p := OnApp(e, junk).out[0];
              p.seqNo == e.left && OnApp(e, junk).state.left == Add(p.seqNo, |p.data|)
  {
  }

  /** So do the answers to data and to the FIN that ends ESTABLISHED, one each; the last ACK of all does not. */
  lemma AnswersAreNumbered(e: Endpoint, p: Packet, junk: U32)
    ensures var r := OnData(e, p); r.out[0].ackNo == SegEnd(p) && r.state.isn == Add(r.out[0].seqNo, 1) == r.state.left
    ensures e.phase.Established? ==> var r := OnFin(e, junk); r.state.left == Add(r.out[0].seqNo, 1)
    ensures e.phase.FinSentAckReceived? ==> var r := OnFin(e, junk); r.state.left == r.out[0].seqNo
  {
  }

  // ---- teardown

  /** No data segment follows a side's FIN: not in the pipe, not out of the writer's queue, and none
      is left once the FIN has been processed. */
  lemma NothingFollowsFin(run: seq<Sys>, k: nat)
    requires IsRun(run) && k < |run|
    ensures FinLast(PipeToB(run[k]))
    ensures run[k].a.FinSent() ==> run[k].a.closed && run[k].a.appRecv == []
    ensures run[k].b.GotFin() ==> run[k].a.FinSent() && !HasData(PipeToB(run[k])) && !HasFin(PipeToB(run[k]))
  {
    InvRun(run, k);
  }

  /** A FIN about to be processed always finds its receiver in a state that answers it: the
      initiator in FIN_SENT_ACK_RECIEVED, with its peer in LAST_ACK, the other side in ESTABLISHED. */
  lemma FinNeverDropped(run: seq<Sys>, k: nat)
    requires IsRun(run) && k < |run|
    requires run[k].a.Unblocked() && !run[k].a.done && run[k].a.netRecv != [] && IsFin(run[k].a.netRecv[0])
    ensures if run[k].aInitiates
            then run[k].a.phase.FinSentAckReceived? && run[k].b.phase.LastAck?
            else run[k].a.phase.Established?
  {
    var s := run[k];
    InvRun(run, k);
    FinFound(View(s));
  }

  lemma InitiatorDoneLast(s: Sys)
    requires Inv(s) && s.aInitiates && s.a.done
    ensures s.b.phase.LastAck? && (s.b.eof || [] in s.b.appSend)
    ensures s.gotB + Flatten(s.b.appSend) == s.wroteA
  {
    assert s.a.phase.FinSentAckReceived?;
    assert s.b.FinSent();
    NoDataNoBytes(PipeToB(s));
  }

  /** The initiator is done only after its peer has queued end of file for its application and has
      entered LAST_ACK, with every byte the initiator wrote already read or queued for reading. */
  lemma DoneMeansPeerAtEnd(run: seq<Sys>, k: nat)
    requires IsRun(run) && k < |run| && run[k].aInitiates && run[k].a.done
    ensures run[k].b.phase.LastAck? && (run[k].b.eof || [] in run[k].b.appSend)
    ensures run[k].gotB + Flatten(run[k].b.appSend) == run[k].wroteA
  {
    InvRun(run, k);
    InitiatorDoneLast(run[k]);
  }
}
