/**
 A mysocket with its transport thread: the fields of Project-3/transport.c and mysock_impl.h,
 changed in place. Every method is proved to do to the fields exactly what the corresponding
 function of StcpEndpoint does to the value. The three packet queues appear by their contents;
 StcpQueue.PacketQueue is the linked list behind each.
 */
module StcpConnection {
  import opened Streams
  import opened StcpQueue
  import opened StcpEndpoint

  lemma AfterNetworkKeepsQueue(e: Endpoint, netJunk: U32)
    ensures AfterNetworkStep(e, netJunk).state.appRecv == e.appRecv
  {
    if e.netRecv != [] {
      var e0 := AfterWait(e);
      var e1 := e0.(netRecv := e0.netRecv[1..]);
      assert OnPacket(e1, e0.netRecv[0], netJunk).state.appRecv == e.appRecv;
    }
  }

  lemma Append3<T>(a: seq<T>, b: seq<T>, c: seq<T>)
    ensures a + b + c == a + (b + c)
  {
  }

  class Connection {
    const active: bool
    var phase: Phase
    var done: bool
    var initialSequenceNum: U32
    var left: U32
    var sendWind: I32
    var eventChosen: EventMask
    var networkRecvQueue: seq<Packet>
    var appRecvQueue: seq<seq<Byte>>
    var appSendQueue: seq<seq<Byte>>
    var closeRequested: bool
    var eof: bool
    /** What has been handed to the network layer, in order. */
    var sent: seq<Packet>
    ghost var closed: bool
    ghost var exited: bool
    ghost var crossed: bool

    ghost function View(): Endpoint
      reads this
    {
      Endpoint(active, phase, done, initialSequenceNum, left, sendWind, eventChosen,
               networkRecvQueue, appRecvQueue, appSendQueue,
               closeRequested, closed, eof, exited, crossed)
    }

    constructor (active: bool, isn: U32)
      ensures View() == Fresh(active, isn) && sent == []
    {
      this.active := active;
      networkRecvQueue, appRecvQueue, appSendQueue := [], [], [];
      phase, done, initialSequenceNum, left, sendWind := Start, false, isn, 0, 0;
      eventChosen, closeRequested, eof, sent := AnyEvent, false, false, [];
      closed, exited, crossed := false, false, false;
    }

    // ---- stcp_api.c

    /** `stcp_wait_for_event`, which would block while no event is ready. */
    method WaitForEvent() returns (rc: Events)
      requires WaitEvents(View()).Any()
      modifies this`closeRequested
      ensures rc == WaitEvents(old(View())) && View() == AfterWait(old(View()))
    {
      rc := Events(false, false, false);
      if eventChosen.AnyEvent? && appRecvQueue != [] {
        rc := rc.(app := true);
      }
      if networkRecvQueue != [] {
        rc := rc.(network := true);
      }
      if closeRequested && appRecvQueue == [] {
        closeRequested := false;
        rc := rc.(close := true);
      }
    }

    /** `stcp_app_send`: empty payloads are not queued. */
    method AppSend(src: seq<Byte>)
      modifies this`appSendQueue
      ensures appSendQueue == if |src| > 0 then old(appSendQueue) + [src] else old(appSendQueue)
    {
      if |src| > 0 {
        appSendQueue := appSendQueue + [src];
      }
    }

    method NetworkRecv() returns (p: Packet)
      requires networkRecvQueue != []
      modifies this`networkRecvQueue
      ensures p == old(networkRecvQueue)[0] && networkRecvQueue == old(networkRecvQueue)[1..]
    {
      p := networkRecvQueue[0];
      networkRecvQueue := networkRecvQueue[1..];
    }

    // ---- transport_init

    method SendSyn(junk: U32)
      modifies this
      ensures View() == OpenActive(old(View()), junk).state && sent == old(sent) + OpenActive(old(View()), junk).out
    {
      var seqNo := initialSequenceNum;
      initialSequenceNum := Add(initialSequenceNum, 1);
      sent := sent + [Packet(TH_SYN, seqNo, junk, [])];
      phase := SynSent;
    }

    /** The next `stcp_network_recv` of the handshake, and entry into `control_loop` after the last. */
    method HandshakeRecv()
      requires networkRecvQueue != [] && !View().Unblocked() && (active <==> phase.SynSent?)
      modifies this
      ensures View() == OnHandshake(old(View())).state && sent == old(sent) + OnHandshake(old(View())).out
    {
      var p := NetworkRecv();
      if phase.SynSent? {
        var seqNo := initialSequenceNum;
        initialSequenceNum := Add(initialSequenceNum, 1);
        sent := sent + [Packet(TH_ACK, seqNo, Add(p.seqNo, 1), [])];
        EnterLoop();
      } else if phase.Start? {
        var seqNo := initialSequenceNum;
        initialSequenceNum := Add(initialSequenceNum, 1);
        sent := sent + [Packet(TH_ACK + TH_SYN, seqNo, Add(p.seqNo, 1), [])];
        phase := SynRcvd;
      } else {
        EnterLoop();
      }
    }

    method EnterLoop()
      modifies this`phase, this`left, this`sendWind, this`eventChosen
      ensures View() == Enter(old(View()))
    {
      phase := Established;
      left := initialSequenceNum;
      sendWind := WINDOW;
      eventChosen := AnyEvent;
    }

    // ---- control_loop

    method HandleData(recv: Packet)
      modifies this
      ensures View() == OnData(old(View()), recv).state && sent == old(sent) + OnData(old(View()), recv).out
    {
      AppSend(recv.data);
      var ack := Packet(TH_ACK, initialSequenceNum, Add(recv.seqNo, |recv.data|), []);
      initialSequenceNum := Add(initialSequenceNum, 1);
      left := initialSequenceNum;
      sent := sent + [ack];
    }

    method HandleAck(recv: Packet)
      modifies this
      ensures View() == OnAck(old(View()), recv) && sent == old(sent)
    {
      if phase.FinWait? {
        phase := FinSentAckReceived;
        initialSequenceNum := recv.ackNo;
      }
      if phase.LastAck? {
        done := true;
      } else {
        sendWind := Shift(sendWind, recv.ackNo, initialSequenceNum);
        initialSequenceNum := recv.ackNo;
        eventChosen := AnyEvent;
      }
    }

    method HandleFin(junk: U32)
      modifies this
      ensures View() == OnFin(old(View()), junk).state && sent == old(sent) + OnFin(old(View()), junk).out
    {
      if phase.FinSentAckReceived? {
        sent := sent + [Packet(TH_ACK, left, junk, [])];
        done := true;
      }
      if phase.Established? {
        AnswerFirstFin(junk);
      }
    }

    /** `stcp_fin_received` marks end of file with an empty buffer. */
    method AnswerFirstFin(junk: U32)
      requires phase.Established?
      modifies this
      ensures View() == OnFin(old(View()), junk).state && sent == old(sent) + [Packet(TH_ACK, old(left), junk, [])]
    {
      var head := Packet(TH_ACK, left, junk, []);
      crossed := left != initialSequenceNum;
      initialSequenceNum := Add(initialSequenceNum, 1);
      left := Add(left, 1);
      sent := sent + [head];
      phase := CloseWait;
      appSendQueue := appSendQueue + [[]];
    }

    /** The NETWORK_DATA branch. */
    method HandleNetwork(junk: U32)
      requires networkRecvQueue != []
      modifies this
      ensures View() == OnNetwork(old(View()), junk).state && sent == old(sent) + OnNetwork(old(View()), junk).out
    {
      var recv := NetworkRecv();
      if recv.flags == TH_ACK {
        HandleAck(recv);
      } else if recv.flags == TH_FIN {
        HandleFin(junk);
      } else {
        HandleData(recv);
      }
    }

    /** The APP_DATA branch. */
    method HandleApp(junk: U32)
      requires appRecvQueue != [] && 0 <= sendWind
      modifies this
      ensures View() == OnApp(old(View()), junk).state && sent == old(sent) + OnApp(old(View()), junk).out
    {
      var byteSend := Min(sendWind, STCP_MSS);
      var app := Taken(appRecvQueue, byteSend);
      appRecvQueue := Remaining(appRecvQueue, byteSend);
      var n := |app|;
      assert app[..n] == app;
      var packetLoad := Min(Min(sendWind, STCP_MSS), n);
      if n > 0 {
        sent := sent + [Packet(TH_DATA, left, junk, app[..packetLoad])];
        left := Add(left, packetLoad);
        sendWind := sendWind - packetLoad;
        if sendWind == 0 {
          eventChosen := NetworkOnly;
        }
      }
    }

    /** The APP_CLOSE_REQUESTED branch. */
    method HandleClose(junk: U32)
      modifies this
      ensures View() == OnClose(old(View()), junk).state && sent == old(sent) + OnClose(old(View()), junk).out
    {
      var head := Packet(TH_FIN, left, junk, []);
      left := Add(left, 1);
      sent := sent + [head];
      if phase.CloseWait? {
        phase := LastAck;
      } else {
        phase := FinWait;
      }
    }

    /** One trip round `control_loop`. StcpTheorems.LoopStaysInBounds shows that in a run whose data goes in turns the
        window is not negative when the application branch is reached. */
    method ControlLoopBody(netJunk: U32, appJunk: U32, closeJunk: U32)
      requires WaitEvents(View()).Any()
      requires WaitEvents(View()).app ==> 0 <= AfterNetworkStep(View(), netJunk).state.sendWind
      modifies this
      ensures View() == LoopStep(old(View()), netJunk, appJunk, closeJunk).state
      ensures sent == old(sent) + LoopStep(old(View()), netJunk, appJunk, closeJunk).out
    {
      ghost var e, sent0 := View(), sent;
      var event := WaitAndReceive(netJunk);
      ghost var r1 := AfterNetworkStep(e, netJunk);
      AfterNetworkKeepsQueue(e, netJunk);
      if event.app {
        HandleApp(appJunk);
        Append3(sent0, r1.out, OnApp(r1.state, appJunk).out);
      }
      if event.close {
        HandleClose(closeJunk);
        Append3(sent0, r1.out, OnClose(r1.state, closeJunk).out);
      }
    }

    method WaitAndReceive(netJunk: U32) returns (event: Events)
      requires WaitEvents(View()).Any()
      modifies this
      ensures event == WaitEvents(old(View()))
      ensures View() == AfterNetworkStep(old(View()), netJunk).state
      ensures sent == old(sent) + AfterNetworkStep(old(View()), netJunk).out
    {
      event := WaitForEvent();
      if event.network {
        HandleNetwork(netJunk);
      }
    }

    // ---- mysock_api.c

    method MyWrite(buf: seq<Byte>) returns (len: nat)
      modifies this`appRecvQueue
      ensures View() == OnWrite(old(View()), buf) && len == |buf|
    {
      appRecvQueue := appRecvQueue + [buf];
      len := |buf|;
    }

    method MyRead(bufLen: nat) returns (buf: seq<Byte>, len: nat)
      requires eof || appSendQueue != []
      modifies this`appSendQueue, this`eof
      ensures View() == OnRead(old(View()), bufLen).state
      ensures buf == OnRead(old(View()), bufLen).got && len == |buf|
    {
      if eof {
        return [], 0;
      }
      buf := Taken(appSendQueue, bufLen);
      appSendQueue := Remaining(appSendQueue, bufLen);
      len := |buf|;
      if len == 0 {
        eof := true;
      }
    }

    method MyClose()
      modifies this`closeRequested, this`closed
      ensures View() == OnMyClose(old(View()))
    {
      closeRequested := true;
      closed := true;
    }

    method ThreadExit()
      modifies this`appSendQueue, this`exited
      ensures View() == OnExit(old(View()))
    {
      exited := true;
      appSendQueue := appSendQueue + [[]];
    }
  }
}
