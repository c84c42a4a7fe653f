/**
 Two STCP endpoints joined by a reliable first-in first-out channel each way, the byte streams
 their applications write and read, and the steps either side can take.
 */
module StcpSystem {
  import opened Streams
  import opened StcpEndpoint

  /**
   `ab` and `ba` are the packets in flight; `wroteA` is every byte given to `mywrite` on side A,
   `gotB` every byte `myread` returned on side B. `aInitiates` names the side that may start the close.
   */
  datatype Sys = Sys(
    a: Endpoint, b: Endpoint, ab: seq<Packet>, ba: seq<Packet>,
    wroteA: seq<Byte>, wroteB: seq<Byte>, gotA: seq<Byte>, gotB: seq<Byte>, aInitiates: bool)

  function Flip(s: Sys): Sys {
    Sys(s.b, s.a, s.ba, s.ab, s.wroteB, s.wroteA, s.gotB, s.gotA, !s.aInitiates)
  }

  /** `junk` values stand for header fields the program leaves uninitialised. */
  datatype Action =
    | Open(junk: U32)
    | Handshake
    | Deliver
    | Write(buf: seq<Byte>)
    | Read(n: nat)
    | Close
    | Loop(netJunk: U32, appJunk: U32, closeJunk: U32)
    | Exit

  datatype Step = Step(onA: bool, action: Action)

  predicate Init(s: Sys) {
    && s.a == Fresh(s.a.active, s.a.isn)
    && s.b == Fresh(!s.a.active, s.b.isn)
    && s.ab == [] && s.ba == []
    && s.wroteA == [] && s.wroteB == [] && s.gotA == [] && s.gotB == []
  }

  // ---- side A acts

  function Apply(s: Sys, r: Outcome): Sys {
    s.(a := r.state, ab := s.ab + r.out)
  }

  function AfterNetwork(s: Sys, netJunk: U32): Sys {
    Apply(s, AfterNetworkStep(s.a, netJunk))
  }

  // ---- scope

  /** One side starts the close: the other acts on a close request only in CLOSE_WAIT. */
  predicate OneInitiator(s: Sys, junk: U32) {
    WaitEvents(s.a).close ==> s.aInitiates || AfterNetwork(s, junk).a.phase.CloseWait?
  }

  /** Data in turns: a data segment is processed only while nothing sent from here is
      unacknowledged; once this side has sent its FIN it sends no more data and may receive freely. */
  predicate DataInTurn(e: Endpoint) {
    e.netRecv != [] && e.netRecv[0].flags != TH_ACK && e.netRecv[0].flags != TH_FIN
    ==> e.FinSent() || e.left == e.isn
  }

  /** What must hold for side A to take the action: the program's own blocking and calling rules,
      and that one side starts the close. */
  predicate Enabled(s: Sys, act: Action) {
    match act
    case Open(_) => s.a.phase.Start? && s.a.active
    case Handshake => !s.a.Unblocked() && s.a.netRecv != [] && (s.a.active <==> s.a.phase.SynSent?)
    case Deliver => s.ba != []
    case Write(_) => s.a.Unblocked() && !s.a.closed
    case Read(n) => s.a.Unblocked() && !s.a.closed && (s.a.eof || s.a.appSend != []) && n > 0
    case Close => s.a.Unblocked() && !s.a.closed
    case Loop(j, _, _) =>
      s.a.Unblocked() && !s.a.done && WaitEvents(s.a).Any() && OneInitiator(s, j)
    case Exit => s.a.done && !s.a.exited
  }

  function Do(s: Sys, act: Action): Sys
    requires Enabled(s, act)
  {
    match act
    case Open(junk) =>
      Apply(s, OpenActive(s.a, junk))
    case Handshake =>
      Apply(s, OnHandshake(s.a))
    case Deliver => s.(a := s.a.(netRecv := s.a.netRecv + [s.ba[0]]), ba := s.ba[1..])
    case Write(buf) => s.(a := OnWrite(s.a, buf), wroteA := s.wroteA + buf)
    case Read(n) =>
      var r := OnRead(s.a, n);
      s.(a := r.state, gotA := s.gotA + r.got)
    case Close => s.(a := OnMyClose(s.a))
    case Loop(i, j, k) => Apply(s, LoopStep(s.a, i, j, k))
    case Exit => s.(a := OnExit(s.a))
  }

  predicate CanStep(s: Sys, step: Step) {
    Enabled(if step.onA then s else Flip(s), step.action)
  }

  function Next(s: Sys, step: Step): Sys
    requires CanStep(s, step)
  {
    if step.onA then Do(s, step.action) else Flip(Do(Flip(s), step.action))
  }

  /** A step that processes data only in turn. */
  predicate InTurn(s: Sys, step: Step) {
    step.action.Loop? ==> DataInTurn(if step.onA then s.a else s.b)
  }

  ghost predicate OneStep(s: Sys, s': Sys) {
    exists step :: CanStep(s, step) && s' == Next(s, step)
  }

  ghost predicate TurnStep(s: Sys, s': Sys) {
    exists step :: CanStep(s, step) && InTurn(s, step) && s' == Next(s, step)
  }

  ghost predicate StepAt(run: seq<Sys>, j: nat)
    requires 0 < j < |run|
  {
    OneStep(run[j - 1], run[j])
  }

  ghost predicate TurnAt(run: seq<Sys>, j: nat)
    requires 0 < j < |run|
  {
    TurnStep(run[j - 1], run[j])
  }

  /** The states a run passes through: an initial state, then one step after another. */
  ghost predicate IsRun(run: seq<Sys>) {
    run != [] && Init(run[0]) && forall j :: 0 < j < |run| ==> StepAt(run, j)
  }

  /** A run whose data goes in turns. */
  ghost predicate IsTurnRun(run: seq<Sys>) {
    run != [] && Init(run[0]) && forall j :: 0 < j < |run| ==> TurnAt(run, j)
  }

  lemma TurnRunIsRun(run: seq<Sys>)
    requires IsTurnRun(run)
    ensures IsRun(run)
  {
    forall j | 0 < j < |run| ensures StepAt(run, j) {
      assert TurnAt(run, j);
    }
  }
}
