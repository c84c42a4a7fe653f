/**
 One side of an STCP connection as a value: the fields `control_loop` and the mysocket context
 keep, and what each operation does to them. The class in StcpConnection.dfy changes these fields
 in place and is proved against the functions here; StcpSystem.dfy runs two sides against each other.
 */
module StcpEndpoint {
  import opened Streams
  import opened StcpQueue

  type U32 = x: int | 0 <= x < 0x1_0000_0000
  type I32 = x: int | -0x8000_0000 <= x < 0x8000_0000

  const TH_FIN := 0x01
  const TH_SYN := 0x02
  const TH_ACK := 0x10
  /** Data segments carry th_flags = -1, stored in eight bits. */
  const TH_DATA := 0xFF

  const WINDOW := 3072
  const STCP_MSS := 536

  /** `control_loop` sends and receives through buffers of 556 bytes, 20 of them header. */
  type Payload = d: seq<Byte> | |d| <= STCP_MSS

  datatype Packet = Packet(flags: nat, seqNo: U32, ackNo: U32, data: Payload)

  /** The handshake steps of `transport_init`, then the connection states of `control_loop`. */
  datatype Phase =
    | Start | SynSent | SynRcvd
    | Established | FinWait | FinSentAckReceived | CloseWait | LastAck

  /** The two values `event_chosen` ever holds: ANY_EVENT and NETWORK_DATA. */
  datatype EventMask = AnyEvent | NetworkOnly

  /** The bits `stcp_wait_for_event` returns. */
  datatype Events = Events(network: bool, app: bool, close: bool) {
    predicate Any() { network || app || close }
  }

  /**
   `netRecv`, `appRecv`, `appSend`, `closeRequested` and `eof` are the mysocket context's;
   `closed` records that the application called `myclose`, `exited` that the transport thread
   queued its last end-of-file marker, and `crossed` is a history variable: the peer's FIN
   arrived while bytes sent from here were unacknowledged.
   */
  datatype Endpoint = Endpoint(
    active: bool, phase: Phase, done: bool,
    isn: U32, left: U32, sendWind: I32, eventChosen: EventMask,
    netRecv: seq<Packet>, appRecv: seq<seq<Byte>>, appSend: seq<seq<Byte>>,
    closeRequested: bool, closed: bool, eof: bool, exited: bool, crossed: bool)
  {
    /** `stcp_unblock_application` has run. */
    predicate Unblocked() { !phase.Start? && !phase.SynSent? && !phase.SynRcvd? }

    predicate FinSent() { phase.FinWait? || phase.FinSentAckReceived? || phase.LastAck? }

    /** The peer's FIN has been processed here. */
    predicate GotFin() { phase.CloseWait? || phase.LastAck? || (phase.FinSentAckReceived? && done) }
  }

  /** The endpoint after a step, and the packets the step sent. */
  datatype Outcome = Outcome(state: Endpoint, out: seq<Packet>)

  datatype ReadOutcome = ReadOutcome(state: Endpoint, got: seq<Byte>)

  // ---- 32-bit arithmetic

  /** Unsigned addition, which wraps. */
  function Add(a: U32, k: U32): U32 {
    if a + k < 0x1_0000_0000 then a + k else a + k - 0x1_0000_0000
  }

  /** How far `a` lies ahead of `b` on the 32-bit circle. */
  function Off(a: U32, b: U32): U32 {
    if a >= b then a - b else a - b + 0x1_0000_0000
  }

  /** An int plus one unsigned value minus another, computed unsigned and read back as an int. */
  function Shift(base: I32, plus: U32, minus: U32): I32 {
    var x := base + plus - minus;
    if x >= 0x8000_0000 then x - 0x1_0000_0000 else if x < -0x8000_0000 then x + 0x1_0000_0000 else x
  }

  function Min(a: int, b: int): int { if a < b then a else b }

  // ---- transport_init

  function Fresh(active: bool, isn: U32): Endpoint {
    Endpoint(active, Start, false, isn, 0, 0, AnyEvent, [], [], [], false, false, false, false, false)
  }

  /** Sending the SYN. */
  function OpenActive(e: Endpoint, junk: U32): Outcome {
    Outcome(e.(isn := Add(e.isn, 1), phase := SynSent), [Packet(TH_SYN, e.isn, junk, [])])
  }

  /** Entering `control_loop`. */
  function Enter(e: Endpoint): Endpoint {
    e.(phase := Established, left := e.isn, sendWind := WINDOW, eventChosen := AnyEvent)
  }

  /** Taking the next handshake packet off the network queue. */
  function OnHandshake(e: Endpoint): Outcome
    requires e.netRecv != [] && !e.Unblocked() && (e.active <==> e.phase.SynSent?)
  {
    var p := e.netRecv[0];
    var e' := e.(netRecv := e.netRecv[1..]);
    if e.phase.SynSent? then
      Outcome(Enter(e'.(isn := Add(e.isn, 1))), [Packet(TH_ACK, e.isn, Add(p.seqNo, 1), [])])
    else if e.phase.Start? then
      Outcome(e'.(isn := Add(e.isn, 1), phase := SynRcvd), [Packet(TH_ACK + TH_SYN, e.isn, Add(p.seqNo, 1), [])])
    else
      Outcome(Enter(e'), [])
  }

  // ---- stcp_wait_for_event

  function WaitEvents(e: Endpoint): Events {
    Events(e.netRecv != [],
           e.eventChosen.AnyEvent? && e.appRecv != [],
           e.closeRequested && e.appRecv == [])
  }

  function AfterWait(e: Endpoint): Endpoint {
    e.(closeRequested := e.closeRequested && e.appRecv != [])
  }

  // ---- control_loop, NETWORK_DATA branch

  /** A segment that is neither ACK nor FIN: hand its bytes up, acknowledge it, and restart `left`. */
  function OnData(e: Endpoint, p: Packet): Outcome {
    var isn' := Add(e.isn, 1);
    Outcome(e.(appSend := if |p.data| > 0 then e.appSend + [p.data] else e.appSend, isn := isn', left := isn'),
      [Packet(TH_ACK, e.isn, Add(p.seqNo, |p.data|), [])])
  }

  /** In FIN_WAIT any ACK is taken for the FIN's: `initial_sequence_num` jumps to it first, so the
      window then moves by nothing. In LAST_ACK any ACK ends the connection. */
  function OnAck(e: Endpoint, p: Packet): Endpoint {
    e.(phase := if e.phase.FinWait? then FinSentAckReceived else e.phase,
       done := e.done || e.phase.LastAck?,
       sendWind := if e.phase.LastAck? || e.phase.FinWait? then e.sendWind else Shift(e.sendWind, p.ackNo, e.isn),
       isn := if e.phase.LastAck? then e.isn else p.ackNo,
       eventChosen := if e.phase.LastAck? then e.eventChosen else AnyEvent)
  }

  /** Answered in FIN_SENT_ACK_RECIEVED, which ends the connection, and in ESTABLISHED; ignored in
      any other state. `junk` is the th_ack this code leaves uninitialised. */
  function OnFin(e: Endpoint, junk: U32): Outcome {
    var first := e.phase.Established?;
    Outcome(
      e.(done := e.done || e.phase.FinSentAckReceived?,
         isn := if first then Add(e.isn, 1) else e.isn,
         left := if first then Add(e.left, 1) else e.left,
         phase := if first then CloseWait else e.phase,
         appSend := if first then e.appSend + [[]] else e.appSend,
         crossed := if first then e.left != e.isn else e.crossed),
      if first || e.phase.FinSentAckReceived? then [Packet(TH_ACK, e.left, junk, [])] else [])
  }

  function OnPacket(e: Endpoint, p: Packet, junk: U32): Outcome {
    if p.flags == TH_ACK then Outcome(OnAck(e, p), [])
    else if p.flags == TH_FIN then OnFin(e, junk)
    else OnData(e, p)
  }

  function OnNetwork(e: Endpoint, junk: U32): Outcome
    requires e.netRecv != []
  {
    OnPacket(e.(netRecv := e.netRecv[1..]), e.netRecv[0], junk)
  }

  // ---- control_loop, APP_DATA branch

  /** One segment of at most 536 bytes and at most the window; nothing if the buffer taken was empty. */
  function OnApp(e: Endpoint, junk: U32): Outcome
    requires e.appRecv != [] && 0 <= e.sendWind
  {
    var room := Min(e.sendWind, STCP_MSS);
    var load := Taken(e.appRecv, room);
    var n := |load|;
    Outcome(
      e.(appRecv := Remaining(e.appRecv, room),
         left := Add(e.left, n),
         sendWind := e.sendWind - n,
         eventChosen := if n > 0 && e.sendWind - n == 0 then NetworkOnly else e.eventChosen),
      if n > 0 then [Packet(TH_DATA, e.left, junk, load)] else [])
  }

  // ---- control_loop, APP_CLOSE_REQUESTED branch

  function OnClose(e: Endpoint, junk: U32): Outcome {
    Outcome(e.(left := Add(e.left, 1), phase := if e.phase.CloseWait? then LastAck else FinWait),
     [Packet(TH_FIN, e.left, junk, [])])
  }

  // ---- one iteration of control_loop

  function AfterNetworkStep(e: Endpoint, netJunk: U32): Outcome {
    var e0 := AfterWait(e);
    if e.netRecv != [] then OnNetwork(e0, netJunk) else Outcome(e0, [])
  }

  /** What an endpoint becomes and sends in one trip round the loop. A negative window would make
      the program overrun its 536-byte buffer, and this function stops there. */
  function LoopStep(e: Endpoint, netJunk: U32, appJunk: U32, closeJunk: U32): Outcome {
    var events := WaitEvents(e);
    var r1 := AfterNetworkStep(e, netJunk);
    var r2 := if events.app && r1.state.appRecv != [] && 0 <= r1.state.sendWind then
                var r := OnApp(r1.state, appJunk); Outcome(r.state, r1.out + r.out)
              else r1;
    if events.close then
      var r := OnClose(r2.state, closeJunk); Outcome(r.state, r2.out + r.out)
    else r2
  }

  // ---- mysock_api.c

  function OnWrite(e: Endpoint, buf: seq<Byte>): Endpoint {
    e.(appRecv := e.appRecv + [buf])
  }

  /** `myread` with a buffer of `n` bytes; it would block on an empty queue. */
  function OnRead(e: Endpoint, n: nat): ReadOutcome
    requires e.eof || e.appSend != []
  {
    var got := if e.eof then [] else Taken(e.appSend, n);
    ReadOutcome(
      e.(appSend := if e.eof then e.appSend else Remaining(e.appSend, n),
         eof := got == []),
      got)
  }

  function OnMyClose(e: Endpoint): Endpoint {
    e.(closed := true, closeRequested := true)
  }

  /** `transport_thread_func` after `transport_init` has returned. */
  function OnExit(e: Endpoint): Endpoint {
    e.(exited := true, appSend := e.appSend + [[]])
  }
}
