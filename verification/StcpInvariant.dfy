/** What every state of every run keeps, and the proof, one branch of the program at a time. */
module StcpInvariant {
  import opened Streams
  import opened StcpEndpoint
  import opened StcpPipes
  import opened StcpSystem

  /** The packets on their way to an endpoint without those its handshake will consume. */
  function Strip(phase: Phase, ps: seq<Packet>): seq<Packet> {
    if phase.Start? || phase.SynSent? then []
    else if phase.SynRcvd? && ps != [] then ps[1..]
    else ps
  }

  function ToA(s: Sys): seq<Packet> { s.a.netRecv + s.ba }
  function ToB(s: Sys): seq<Packet> { s.b.netRecv + s.ab }
  function PipeToA(s: Sys): seq<Packet> { Strip(s.a.phase, ToA(s)) }
  function PipeToB(s: Sys): seq<Packet> { Strip(s.b.phase, ToB(s)) }

  // ---- handshake

  /** How far the handshake of the active side `x` and the passive side `y` has got; each packet of it carries the
      numbers its receiver expects. */
  ghost predicate HandshakeOk(x: Endpoint, y: Endpoint, toY: seq<Packet>, toX: seq<Packet>) {
    && x.active && !y.active && !x.phase.SynRcvd? && !y.phase.SynSent?
    && (x.phase.Start? ==> y.phase.Start? && toY == [] && toX == [])
    && (x.phase.SynSent? ==>
          || (y.phase.Start? && |toY| == 1 && toY[0].flags == TH_SYN && toX == []
              && Add(toY[0].seqNo, 1) == x.isn)
          || (y.phase.SynRcvd? && toY == [] && |toX| == 1 && toX[0].flags == TH_ACK + TH_SYN
              && toX[0].ackNo == x.isn && Add(toX[0].seqNo, 1) == y.isn))
    && (x.Unblocked() ==>
          || y.Unblocked()
          || (y.phase.SynRcvd? && toY != [] && toY[0].flags == TH_ACK && toY[0].ackNo == y.isn
              && AckVals(toY[1..]) == [] && toX == []))
  }

  ghost predicate Shake(s: Sys) {
    if s.a.active then HandshakeOk(s.a, s.b, ToB(s), ToA(s)) else HandshakeOk(s.b, s.a, ToA(s), ToB(s))
  }

  // ---- one direction: bytes from x to y

  /** Every byte written is, in order, read, queued for the reader, in flight, or queued by the writer. */
  ghost predicate StreamOk(x: Endpoint, y: Endpoint, xy: seq<Packet>, wrote: seq<Byte>, got: seq<Byte>) {
    wrote == got + Flatten(y.appSend) + Bytes(xy) + Flatten(x.appRecv)
  }

  ghost predicate FinOk(x: Endpoint, y: Endpoint, xy: seq<Packet>) {
    && FinLast(xy)
    && (x.FinSent() <==> HasFin(xy) || y.GotFin())
    && (y.GotFin() ==> !HasFin(xy) && !HasData(xy))
  }

  /** The acknowledgements x has still to see: those in flight towards it, then one for each segment in flight from
      it. */
  function Pending(xy: seq<Packet>, yx: seq<Packet>): seq<U32> {
    AckVals(yx) + SegEnds(xy)
  }

  function Slack(x: Endpoint): nat { if x.crossed then 1 else 0 }

  ghost predicate WindowOk(x: Endpoint, xy: seq<Packet>, yx: seq<Packet>) {
    x.Unblocked() && !x.FinSent() ==>
      && 0 <= x.sendWind <= WINDOW
      && Chain(Slack(x), x.isn, Pending(xy, yx), x.left, WINDOW - x.sendWind)
      && (x.eventChosen.NetworkOnly? ==> x.sendWind == 0)
      && (!x.crossed && x.sendWind == 0 ==> x.eventChosen.NetworkOnly?)
  }

  /** End-of-file markers (empty buffers) come after all data. */
  ghost predicate MarkersLast(q: seq<seq<Byte>>) {
    forall i, j :: 0 <= i < j < |q| && q[i] == [] ==> q[j] == []
  }

  ghost predicate ReaderOk(y: Endpoint) {
    && MarkersLast(y.appSend)
    && (!y.GotFin() ==> !y.eof && [] !in y.appSend)
    && (y.phase.CloseWait? || y.phase.LastAck? ==> y.eof || [] in y.appSend)
    && (y.eof ==> forall i :: 0 <= i < |y.appSend| ==> y.appSend[i] == [])
  }

  ghost predicate LocalOk(x: Endpoint) {
    && (x.closeRequested ==> x.closed && !x.FinSent())
    && (x.FinSent() ==> x.closed && x.appRecv == [])
    && (x.done ==> x.phase.LastAck? || x.phase.FinSentAckReceived?)
    && (x.exited ==> x.done)
    && (x.crossed ==> x.GotFin())
    && (!x.Unblocked() ==> x.appRecv == [] && x.appSend == [] && !x.closed && !x.eof && !x.exited)
  }

  /** What holds of the direction from x to y whatever the windows do. */
  ghost predicate Dir(x: Endpoint, y: Endpoint, xy: seq<Packet>, wrote: seq<Byte>, got: seq<Byte>) {
    && PipeOk(xy)
    && StreamOk(x, y, xy, wrote, got)
    && FinOk(x, y, xy)
    && ReaderOk(y)
    && LocalOk(x)
  }

  // ---- teardown: x starts the close

  ghost predicate TeardownOk(x: Endpoint, y: Endpoint, yx: seq<Packet>) {
    && !x.phase.CloseWait? && !x.phase.LastAck?
    && !y.phase.FinWait? && !y.phase.FinSentAckReceived?
    && (x.phase.FinWait? && y.GotFin() ==> AckBeforeFin(yx))
  }

  /** Once the side x that starts the close is done, its peer y is too or x's last ACK is on its way. */
  ghost predicate Bye(x: Endpoint, y: Endpoint, xy: seq<Packet>) {
    x.done && !y.done ==> AckVals(xy) != []
  }

  // ---- the mask

  /** While the application is masked, a segment of x or the ACK for one is on its way. */
  ghost predicate Awaits(x: Endpoint, xy: seq<Packet>, yx: seq<Packet>) {
    x.Unblocked() && !x.FinSent() && x.eventChosen.NetworkOnly? ==> HasData(xy) || AckVals(yx) != []
  }

  // ---- the two sides as one sees the other

  /** The two endpoints, the packets between them without those their handshakes will consume, what each
      application has written and read, and whether x starts the close. */
  datatype Pair = Pair(
    x: Endpoint, y: Endpoint, xy: seq<Packet>, yx: seq<Packet>,
    wx: seq<Byte>, wy: seq<Byte>, gx: seq<Byte>, gy: seq<Byte>, xInit: bool)

  function View(s: Sys): Pair {
    Pair(s.a, s.b, PipeToB(s), PipeToA(s), s.wroteA, s.wroteB, s.gotA, s.gotB, s.aInitiates)
  }

  ghost predicate PairOk(p: Pair) {
    && Dir(p.x, p.y, p.xy, p.wx, p.gy)
    && Dir(p.y, p.x, p.yx, p.wy, p.gx)
    && Awaits(p.x, p.xy, p.yx) && Awaits(p.y, p.yx, p.xy)
    && (if p.xInit then TeardownOk(p.x, p.y, p.yx) else TeardownOk(p.y, p.x, p.xy))
    && (if p.xInit then Bye(p.x, p.y, p.xy) else Bye(p.y, p.x, p.yx))
  }

  /** Both windows agree with what is in flight. */
  ghost predicate Balanced(p: Pair) {
    WindowOk(p.x, p.xy, p.yx) && WindowOk(p.y, p.yx, p.xy)
  }

  /** What every run with one initiator keeps. */
  ghost predicate Inv(s: Sys) { Shake(s) && PairOk(View(s)) }

  /** What a run keeps if its data also goes in turns. */
  ghost predicate TurnInv(s: Sys) { Inv(s) && Balanced(View(s)) }

  lemma InvInit(s: Sys)
    requires Init(s)
    ensures TurnInv(s)
  {
  }

  lemma InvFlip(s: Sys)
    requires Inv(s)
    ensures Inv(Flip(s)) && Flip(Flip(s)) == s
  {
  }

  lemma BalancedFlip(s: Sys)
    requires Balanced(View(s))
    ensures Balanced(View(Flip(s)))
  {
  }
}
