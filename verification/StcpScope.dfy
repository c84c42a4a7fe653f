/**
 Why the scope conditions are there: a run whose data goes both ways at once, at the end of which the window is
 negative, and a run in turn at the end of which a FIN has crossed data and the loop spins on a shut window.
 */
module StcpScope {
  import opened Streams
  import opened StcpQueue
  import opened StcpEndpoint
  import opened StcpPipes
  import opened StcpSystem
  import opened StcpTheorems

  ghost predicate RunOf(run: seq<Sys>, turn: bool) { if turn then IsTurnRun(run) else IsRun(run) }

  /** `s` is the last state of a run, of one in turn if `turn` is set. */
  ghost predicate Reachable(s: Sys, turn: bool) {
    exists run :: RunOf(run, turn) && run[|run| - 1] == s
  }

  lemma ReachInit(s: Sys)
    requires Init(s)
    ensures Reachable(s, true)
  {
    assert [s][0] == s;
    assert RunOf([s], true);
  }

  /** What is reached in turn is reached. */
  lemma ReachLoosely(s: Sys)
    requires Reachable(s, true)
    ensures Reachable(s, false)
  {
    var run :| RunOf(run, true) && run[|run| - 1] == s;
    TurnRunIsRun(run);
    assert RunOf(run, false);
  }

  lemma ReachStep(s: Sys, step: Step, turn: bool)
    requires Reachable(s, turn) && CanStep(s, step) && (turn ==> InTurn(s, step))
    ensures Reachable(Next(s, step), turn)
  {
    var run :| RunOf(run, turn) && run[|run| - 1] == s;
    var run' := run + [Next(s, step)];
    forall j | 0 < j < |run'| ensures if turn then TurnAt(run', j) else StepAt(run', j) {
      if j < |run| {
        assert if turn then TurnAt(run, j) else StepAt(run, j);
      } else {
        assert run'[j - 1] == s && run'[j] == Next(s, step);
      }
    }
    assert RunOf(run', turn) && run'[|run'| - 1] == Next(s, step);
  }

  lemma ReachFlip(s: Sys, turn: bool)
    requires Reachable(s, turn)
    ensures Reachable(Flip(s), turn)
  {
    var run :| RunOf(run, turn) && run[|run| - 1] == s;
    RunFlips(run);
    assert RunOf(Flipped(run), turn) && Flipped(run)[|run| - 1] == Flip(s);
  }

  lemma ReachAct(s: Sys, act: Action, turn: bool)
    requires Reachable(s, turn) && Enabled(s, act) && (turn && act.Loop? ==> DataInTurn(s.a))
    ensures Reachable(Do(s, act), turn)
  {
    ReachStep(s, Step(true, act), turn);
  }

  lemma LoopActs(s: Sys, turn: bool)
    requires Reachable(s, turn) && s.a.Unblocked() && !s.a.done && WaitEvents(s.a).Any()
    requires WaitEvents(s.a).close ==> s.aInitiates || AfterNetwork(s, 0).a.phase.CloseWait?
    requires turn ==> DataInTurn(s.a)
    ensures Reachable(Apply(s, LoopStep(s.a, 0, 0, 0)), turn)
  {
    ReachAct(s, Loop(0, 0, 0), turn);
  }

  // ---- what side A does, from one idle moment to the next

  /** Nothing waits on this side for the transport layer. */
  predicate Idle(e: Endpoint) {
    && e.Unblocked() && !e.done && e.netRecv == [] && e.appRecv == []
    && !e.closeRequested && !e.closed
  }

  /** Side A writes `buf` and its loop sends it as one segment. */
  function Sent(s: Sys, buf: Payload): Sys
    requires |buf| <= s.a.sendWind
  {
    s.(a := s.a.(left := Add(s.a.left, |buf|), sendWind := s.a.sendWind - |buf|,
                 eventChosen := if s.a.sendWind == |buf| then NetworkOnly else AnyEvent),
       ab := s.ab + [Packet(TH_DATA, s.a.left, 0, buf)], wroteA := s.wroteA + buf)
  }

  lemma LoopSends(e: Endpoint, buf: Payload)
    requires Idle(e) && e.eventChosen.AnyEvent? && 1 <= |buf| <= e.sendWind
    ensures WaitEvents(e.(appRecv := [buf])) == Events(false, true, false)
    ensures LoopStep(e.(appRecv := [buf]), 0, 0, 0)
         == Outcome(e.(left := Add(e.left, |buf|), sendWind := e.sendWind - |buf|,
                       eventChosen := if e.sendWind == |buf| then NetworkOnly else AnyEvent),
                    [Packet(TH_DATA, e.left, 0, buf)])
  {
    var e' := e.(appRecv := [buf]);
    var room := Min(e.sendWind, STCP_MSS);
    assert AfterWait(e') == e';
    assert Taken([buf], room) == buf && Remaining([buf], room) == [];
    assert e'.(appRecv := []) == e;
  }

  lemma ReachWritten(s: Sys, buf: seq<Byte>, turn: bool) returns (t: Sys)
    requires Reachable(s, turn) && Idle(s.a)
    ensures Reachable(t, turn) && t == s.(a := s.a.(appRecv := [buf]), wroteA := s.wroteA + buf)
  {
    t := Do(s, Write(buf));
    ReachAct(s, Write(buf), turn);
    assert [] + [buf] == [buf];
  }

  lemma ReachSent(s: Sys, buf: Payload, turn: bool)
    requires Reachable(s, turn) && Idle(s.a) && s.a.eventChosen.AnyEvent? && 1 <= |buf| <= s.a.sendWind
    ensures Reachable(Sent(s, buf), turn)
  {
    var t := ReachWritten(s, buf, turn);
    LoopSends(s.a, buf);
    LoopActs(t, turn);
  }

  /** Side A takes the next packet off the channel and its loop processes it. */
  function Received(s: Sys): Sys
    requires s.ba != []
  {
    var r := OnPacket(s.a, s.ba[0], 0);
    s.(a := r.state, ab := s.ab + r.out, ba := s.ba[1..])
  }

  lemma LoopReceives(e: Endpoint, p: Packet)
    requires e.netRecv == [] && e.appRecv == [] && !e.closeRequested
    ensures WaitEvents(e.(netRecv := [p])) == Events(true, false, false)
    ensures LoopStep(e.(netRecv := [p]), 0, 0, 0) == OnPacket(e, p, 0)
  {
    var e' := e.(netRecv := [p]);
    assert AfterWait(e') == e' && e'.(netRecv := [p][1..]) == e;
  }

  lemma ReachReceived(s: Sys, turn: bool)
    requires Reachable(s, turn) && s.a.Unblocked() && !s.a.done && s.a.netRecv == [] && s.a.appRecv == []
    requires !s.a.closeRequested && s.ba != []
    requires turn && IsData(s.ba[0]) ==> s.a.FinSent() || s.a.left == s.a.isn
    ensures Reachable(Received(s), turn)
  {
    var t := Do(s, Deliver);
    ReachAct(s, Deliver, turn);
    LoopReceives(s.a, s.ba[0]);
    assert [] + [s.ba[0]] == [s.ba[0]];
    assert t.a == s.a.(netRecv := [s.ba[0]]);
    LoopActs(t, turn);
  }

  /** Side A closes and its loop sends the FIN. */
  function Closed(s: Sys): Sys {
    var r := OnClose(s.a.(closed := true), 0);
    s.(a := r.state, ab := s.ab + r.out)
  }

  lemma LoopCloses(e: Endpoint)
    requires Idle(e)
    ensures WaitEvents(OnMyClose(e)) == Events(false, false, true)
    ensures LoopStep(OnMyClose(e), 0, 0, 0) == OnClose(e.(closed := true), 0)
  {
    assert AfterWait(OnMyClose(e)) == e.(closed := true);
  }

  lemma ReachClosed(s: Sys, turn: bool)
    requires Reachable(s, turn) && Idle(s.a) && (s.aInitiates || s.a.phase.CloseWait?)
    ensures Reachable(Closed(s), turn)
  {
    ReachAct(s, Close, turn);
    LoopCloses(s.a);
    LoopActs(Do(s, Close), turn);
  }

  // ---- the handshake

  /** Both sides established, as the handshake from sequence numbers 0 leaves them. */
  function Connected(aInitiates: bool): Sys {
    Sys(Enter(Fresh(true, 2)), Enter(Fresh(false, 1)), [], [], [], [], [], [], aInitiates)
  }

  const SYN := Packet(TH_SYN, 0, 0, [])
  const SYN_ACK := Packet(TH_ACK + TH_SYN, 0, 1, [])
  const ACK := Packet(TH_ACK, 1, 1, [])

  function Joined(a: Endpoint, b: Endpoint, ab: seq<Packet>, ba: seq<Packet>, aInitiates: bool): Sys {
    Sys(a, b, ab, ba, [], [], [], [], aInitiates)
  }

  lemma ReachSynSent(aInitiates: bool)
    ensures Reachable(Joined(Fresh(true, 1).(phase := SynSent), Fresh(false, 0), [SYN], [], aInitiates), true)
  {
    var s := Joined(Fresh(true, 0), Fresh(false, 0), [], [], aInitiates);
    ReachInit(s);
    ReachAct(s, Open(0), true);
    assert Do(s, Open(0)).ab == [SYN];
  }

  lemma ReachSynRcvd(aInitiates: bool)
    ensures Reachable(Joined(Fresh(true, 1).(phase := SynSent), Fresh(false, 1).(phase := SynRcvd),
                             [], [SYN_ACK], aInitiates), true)
  {
    var s := Joined(Fresh(true, 1).(phase := SynSent), Fresh(false, 0), [SYN], [], aInitiates);
    ReachSynSent(aInitiates);
    ReachFlip(s, true);
    ReachAct(Flip(s), Deliver, true);
    var t := Do(Flip(s), Deliver);
    assert t.a.netRecv == [SYN];
    ReachAct(t, Handshake, true);
    var u := Do(t, Handshake);
    assert u.a == Fresh(false, 1).(phase := SynRcvd) && u.ab == [SYN_ACK];
    ReachFlip(u, true);
  }

  lemma ReachAnswered(aInitiates: bool)
    ensures Reachable(Joined(Enter(Fresh(true, 2)), Fresh(false, 1).(phase := SynRcvd), [ACK], [], aInitiates), true)
  {
    var s := Joined(Fresh(true, 1).(phase := SynSent), Fresh(false, 1).(phase := SynRcvd), [], [SYN_ACK], aInitiates);
    ReachSynRcvd(aInitiates);
    ReachAct(s, Deliver, true);
    var t := Do(s, Deliver);
    assert t.a.netRecv == [SYN_ACK];
    ReachAct(t, Handshake, true);
    assert Do(t, Handshake).a == Enter(Fresh(true, 2)) && Do(t, Handshake).ab == [ACK];
  }

  lemma ReachConnected(aInitiates: bool)
    ensures Reachable(Connected(aInitiates), true)
  {
    var s := Joined(Enter(Fresh(true, 2)), Fresh(false, 1).(phase := SynRcvd), [ACK], [], aInitiates);
    ReachAnswered(aInitiates);
    ReachFlip(s, true);
    ReachAct(Flip(s), Deliver, true);
    var t := Do(Flip(s), Deliver);
    assert t.a.netRecv == [ACK];
    ReachAct(t, Handshake, true);
    assert Do(t, Handshake).a == Enter(Fresh(false, 1));
    ReachFlip(Do(t, Handshake), true);
  }

  // ---- data both ways at once

  /** An idle side whose window is `w` and whose `left` lies `g` behind its `initial_sequence_num`; `k` bounds the
      numbers used so far. */
  predicate Side(e: Endpoint, k: nat, w: int, g: int) {
    && Idle(e) && e.phase.Established? && e.eventChosen.AnyEvent?
    && e.sendWind == w && e.isn == e.left + g && e.isn <= 1000 + 1000 * k
  }

  /** Between rounds. */
  predicate Between(s: Sys, k: nat, w: int, g: int) {
    Side(s.a, k, w, g) && Side(s.b, k, WINDOW - k, 0) && s.ab == [] && s.ba == []
  }

  function Zeros(n: nat): (d: seq<Byte>)
    ensures |d| == n
  {
    seq(n, i => 0)
  }

  /** A processes B's segment; B processes A's segment and ACK; A processes B's ACK. */
  function Exchange(s: Sys): Sys
    requires |s.ba| == 1 && |s.ab| == 1 && IsData(s.ba[0]) && IsData(s.ab[0])
  {
    Received(Flip(Received(Received(Flip(Received(s))))))
  }

  lemma ExchangeReached(s: Sys)
    requires Reachable(s, false) && |s.ba| == 1 && |s.ab| == 1 && IsData(s.ba[0]) && IsData(s.ab[0])
    requires Idle(s.a) && Idle(s.b) && s.a.phase.Established? && s.b.phase.Established?
    ensures Reachable(Exchange(s), false)
  {
    var s1 := Received(s);
    ReachReceived(s, false);
    ReachFlip(s1, false);
    ReachReceived(Flip(s1), false);
    var s2 := Received(Flip(s1));
    ReachReceived(s2, false);
    var s3 := Received(s2);
    ReachFlip(s3, false);
    ReachReceived(Flip(s3), false);
  }

  /** What a side becomes by processing a segment and then an ACK numbered `v`. */
  function Crossed(e: Endpoint, p: Packet, v: U32): Endpoint {
    OnAck(OnData(e, p).state, Packet(TH_ACK, 0, v, []))
  }

  lemma ExchangeIs(s: Sys)
    requires |s.ba| == 1 && |s.ab| == 1 && IsData(s.ba[0]) && IsData(s.ab[0])
    ensures var s' := Exchange(s);
            && s'.ab == [] && s'.ba == []
            && s'.a == Crossed(s.a, s.ba[0], SegEnd(s.ab[0]))
            && s'.b == Crossed(s.b, s.ab[0], SegEnd(s.ba[0]))
  {
    var s1 := Received(s);
    assert s1.ba == [] && s1.a == OnData(s.a, s.ba[0]).state;
    assert s1.ab == [s.ab[0], OnData(s.a, s.ba[0]).out[0]];
    var s2 := Received(Flip(s1));
    assert s2.ba == [OnData(s.a, s.ba[0]).out[0]] && s2.ab == OnData(s.b, s.ab[0]).out;
    var s3 := Received(s2);
    assert s3.ba == [] && s3.ab == OnData(s.b, s.ab[0]).out;
  }

  /** One side's numbers over a round in which it sends `n` bytes; the ACK at its end lifts the mask in any case. */
  lemma RoundNumbers(e: Endpoint, m: EventMask, p: Packet, k: nat, w: nat, g: nat, n: nat)
    requires Side(e, k, w, g) && k < 20 && g <= STCP_MSS && n <= STCP_MSS && n <= w <= WINDOW
    ensures var sent := e.(left := Add(e.left, n), sendWind := e.sendWind - n, eventChosen := m);
            Side(Crossed(sent, p, Add(e.left, n)), k + 1, w - 1 - g, n - 1 - g)
  {
  }

  /** Both sides have sent, A `n` bytes and B one, before either hears of it. */
  function BothSent(s: Sys, n: nat): Sys
    requires n <= s.a.sendWind && n <= STCP_MSS && 1 <= s.b.sendWind
  {
    Flip(Sent(Flip(Sent(s, Zeros(n))), Zeros(1)))
  }

  lemma BothSentReached(s: Sys, n: nat)
    requires Reachable(s, false) && Idle(s.a) && Idle(s.b) && s.a.eventChosen.AnyEvent? && s.b.eventChosen.AnyEvent?
    requires 1 <= n <= s.a.sendWind && n <= STCP_MSS && 1 <= s.b.sendWind
    ensures Reachable(BothSent(s, n), false)
  {
    var s1 := Sent(s, Zeros(n));
    ReachSent(s, Zeros(n), false);
    ReachFlip(s1, false);
    ReachSent(Flip(s1), Zeros(1), false);
    ReachFlip(Sent(Flip(s1), Zeros(1)), false);
  }

  lemma BothSentIs(s: Sys, n: nat)
    requires n <= s.a.sendWind && n <= STCP_MSS && 1 <= s.b.sendWind && s.ab == [] && s.ba == []
    ensures var t := BothSent(s, n);
            && t.ab == [Packet(TH_DATA, s.a.left, 0, Zeros(n))] && t.ba == [Packet(TH_DATA, s.b.left, 0, Zeros(1))]
            && t.a == s.a.(left := Add(s.a.left, n), sendWind := s.a.sendWind - n, eventChosen := t.a.eventChosen)
            && t.b == s.b.(left := Add(s.b.left, 1), sendWind := s.b.sendWind - 1, eventChosen := t.b.eventChosen)
  {
  }

  lemma RoundNumbersOf(s: Sys, k: nat, w: nat, g: nat, n: nat)
    requires Between(s, k, w, g) && k < 20 && g <= STCP_MSS && 1 <= n <= STCP_MSS && n <= w <= WINDOW
    ensures Between(Exchange(BothSent(s, n)), k + 1, w - 1 - g, n - 1 - g)
  {
    var t := BothSent(s, n);
    BothSentIs(s, n);
    ExchangeIs(t);
    RoundNumbers(s.a, t.a.eventChosen, t.ba[0], k, w, g, n);
    RoundNumbers(s.b, t.b.eventChosen, t.ab[0], k, WINDOW - k, 0, 1);
  }

  lemma Round(s: Sys, k: nat, w: nat, g: nat, n: nat) returns (s': Sys)
    requires Reachable(s, false) && Between(s, k, w, g) && k < 20
    requires g <= STCP_MSS && 1 <= n <= STCP_MSS && n <= w <= WINDOW
    ensures Reachable(s', false) && Between(s', k + 1, w - 1 - g, n - 1 - g)
  {
    BothSentReached(s, n);
    ExchangeReached(BothSent(s, n));
    RoundNumbersOf(s, k, w, g, n);
    s' := Exchange(BothSent(s, n));
  }

  /** Two rounds of full segments cost the window 537 bytes and leave `left` level. */
  lemma {:induction false} Rounds(k: nat) returns (s: Sys)
    requires k <= 5
    ensures Reachable(s, false) && Between(s, 2 * k, WINDOW - 537 * k, 0)
  {
    if k == 0 {
      ReachConnected(true);
      ReachLoosely(Connected(true));
      s := Connected(true);
    } else {
      s := Rounds(k - 1);
      s := Round(s, 2 * k - 2, WINDOW - 537 * (k - 1), 0, STCP_MSS);
      s := Round(s, 2 * k - 1, WINDOW - 537 * (k - 1) - 1, STCP_MSS - 1, STCP_MSS);
    }
  }

  lemma TwelveRounds() returns (s: Sys)
    ensures Reachable(s, false) && Idle(s.a) && s.a.eventChosen.AnyEvent? && s.a.sendWind == -1
  {
    s := Rounds(5);
    s := Round(s, 10, 387, 0, 387);
    s := Round(s, 11, 386, 386, 1);
  }

  /**
   Without the rule that data goes in turns a window does become negative: each segment processed while bytes are
   outstanding makes the sender forget them. The next bytes the application writes take `control_loop` into the
   branch that asks for a negative number of bytes.
   */
  lemma OutOfTurnWindowGoesNegative() returns (run: seq<Sys>)
    ensures IsRun(run) && !IsTurnRun(run)
    ensures var s := run[|run| - 1];
            && Enabled(s, Loop(0, 0, 0)) && WaitEvents(s.a).app
            && s.a.eventChosen.AnyEvent? && AfterNetwork(s, 0).a.sendWind == -1
  {
    var s := TwelveRounds();
    var t := ReachWritten(s, [0], false);
    run :| RunOf(run, false) && run[|run| - 1] == t;
    if IsTurnRun(run) {
      LoopStaysInBounds(run, |run| - 1, 0, 0, 0);
    }
  }

  // ---- a FIN that crosses data

  /** A has sent one byte and `k` full segments. */
  function Many(k: nat): Sys
    requires k <= 5
    ensures Many(k).a.sendWind == WINDOW - 1 - 536 * k
    ensures Many(k).a == Connected(false).a.(left := 3 + 536 * k, sendWind := WINDOW - 1 - 536 * k)
    ensures Many(k).b == Connected(false).b && Many(k).ba == [] && !Many(k).aInitiates
    ensures Many(k).ab != [] && Many(k).ab[0] == Packet(TH_DATA, 2, 0, Zeros(1))
  {
    if k == 0 then Sent(Connected(false), Zeros(1)) else Sent(Many(k - 1), Zeros(536))
  }

  lemma {:induction false} ManyReached(k: nat)
    requires k <= 5
    ensures Reachable(Many(k), true)
  {
    if k == 0 {
      ReachConnected(false);
      ReachSent(Connected(false), Zeros(1), true);
    } else {
      ManyReached(k - 1);
      ReachSent(Many(k - 1), Zeros(536), true);
    }
  }

  /** The window is shut, then B closes. */
  function Shut(): Sys { Sent(Many(5), Zeros(391)) }

  function ShutAndClosed(): Sys { Flip(Closed(Flip(Shut()))) }

  lemma ShutReached()
    ensures Reachable(Shut(), true) && Idle(Shut().b) && !Shut().aInitiates
  {
    ManyReached(5);
    ReachSent(Many(5), Zeros(391), true);
  }

  lemma ShutAndClosedReached()
    ensures Reachable(ShutAndClosed(), true)
  {
    var s := Shut();
    ShutReached();
    ReachFlip(s, true);
    ReachClosed(Flip(s), true);
    ReachFlip(Closed(Flip(s)), true);
  }

  lemma ShutAndClosedIs()
    ensures var s := ShutAndClosed();
            && s.a == Connected(false).a.(left := 3074, sendWind := 0, eventChosen := NetworkOnly)
            && s.b == Connected(false).b.(closed := true, left := 2, phase := FinWait)
            && s.ba == [Packet(TH_FIN, 1, 0, [])]
            && s.ab != [] && s.ab[0] == Packet(TH_DATA, 2, 0, Zeros(1))
  {
  }

  /** A processes the FIN, B the first byte, and A the ACK for that byte. */
  function FinExchange(s: Sys): Sys
    requires |s.ba| == 1 && IsFin(s.ba[0]) && s.ab != [] && IsData(s.ab[0])
  {
    Received(Flip(Received(Flip(Received(s)))))
  }

  /** B processes the byte after A has answered the FIN. */
  lemma FinAnsweredReached(s: Sys)
    requires Reachable(s, true) && |s.ba| == 1 && IsFin(s.ba[0]) && s.ab != [] && IsData(s.ab[0])
    requires Idle(s.a) && s.a.phase.Established?
    requires s.b.phase.FinWait? && !s.b.done && s.b.netRecv == [] && s.b.appRecv == [] && !s.b.closeRequested
    ensures Reachable(Flip(Received(Flip(Received(s)))), true)
  {
    ReachReceived(s, true);
    var s1 := Received(s);
    assert s1.ab[0] == s.ab[0];
    ReachFlip(s1, true);
    ReachReceived(Flip(s1), true);
    ReachFlip(Received(Flip(s1)), true);
  }

  lemma FinExchangeReached(s: Sys)
    requires Reachable(s, true) && |s.ba| == 1 && IsFin(s.ba[0]) && s.ab != [] && IsData(s.ab[0])
    requires Idle(s.a) && s.a.phase.Established?
    requires s.b.phase.FinWait? && !s.b.done && s.b.netRecv == [] && s.b.appRecv == [] && !s.b.closeRequested
    ensures Reachable(FinExchange(s), true)
  {
    FinAnsweredReached(s);
    var s1 := Received(s);
    assert s1.ab[0] == s.ab[0] && s1.ba == [];
    var s2 := Flip(Received(Flip(s1)));
    assert IsAck(s2.ba[0]);
    ReachReceived(s2, true);
  }

  lemma FinExchangeIs(s: Sys)
    requires |s.ba| == 1 && IsFin(s.ba[0]) && s.ab != [] && IsData(s.ab[0])
    ensures FinExchange(s).a == OnAck(OnFin(s.a, 0).state, Packet(TH_ACK, 0, SegEnd(s.ab[0]), []))
  {
    var s1 := Received(s);
    assert s1.ab[0] == s.ab[0] && s1.ba == [];
    var s2 := Flip(Received(Flip(s1)));
    assert s2.ba == OnData(s.b, s.ab[0]).out;
  }

  lemma FinNumbers(e: Endpoint, ack: Packet)
    requires Idle(e) && e.phase.Established? && e.sendWind == 0 && ack.ackNo == Add(e.isn, 1)
    ensures var e' := OnAck(OnFin(e, 0).state, ack);
            Idle(e') && e'.phase.CloseWait? && e'.sendWind == 0 && e'.eventChosen.AnyEvent?
  {
  }

  lemma FinCrosses() returns (s: Sys)
    ensures Reachable(s, true) && Idle(s.a)
    ensures s.a.phase.CloseWait? && s.a.sendWind == 0 && s.a.eventChosen.AnyEvent?
  {
    var s0 := ShutAndClosed();
    ShutAndClosedReached();
    ShutAndClosedIs();
    assert SegEnd(s0.ab[0]) == 3;
    FinExchangeReached(s0);
    FinExchangeIs(s0);
    FinNumbers(s0.a, Packet(TH_ACK, 0, 3, []));
    s := FinExchange(s0);
  }

  lemma LoopSpins(e: Endpoint)
    requires Idle(e) && e.eventChosen.AnyEvent? && e.sendWind == 0
    ensures WaitEvents(e.(appRecv := [[0]])) == Events(false, true, false)
    ensures LoopStep(e.(appRecv := [[0]]), 0, 0, 0) == Outcome(e.(appRecv := [[0]]), [])
  {
    var e' := e.(appRecv := [[0]]);
    assert AfterWait(e') == e';
    assert Taken([[0]], 0) == [] && Remaining([[0]], 0) == [[0]];
    assert Add(e.left, 0) == e.left;
  }

  /**
   With data in turn the window can still be shut and the mask lifted: A's FIN-crossed window is opened by nothing
   when the ACK for a first segment of one byte arrives. If the application then has data queued, `control_loop`
   asks for no bytes, sends nothing and goes round again unchanged.
   */
  lemma CrossedFinSpins() returns (run: seq<Sys>)
    ensures IsTurnRun(run)
    ensures var s := run[|run| - 1];
            && Enabled(s, Loop(0, 0, 0)) && WaitEvents(s.a).app
            && s.a.phase.CloseWait? && s.a.sendWind == 0 && s.a.eventChosen.AnyEvent?
            && Do(s, Loop(0, 0, 0)) == s
  {
    var s := FinCrosses();
    var t := ReachWritten(s, [0], true);
    run :| RunOf(run, true) && run[|run| - 1] == t;
    LoopSpins(s.a);
    assert t.ab + [] == t.ab;
  }
}
