/**
 Project-3/connection_demux.c: the slots and the completion queue of a listening socket, with the table of
 mysocket descriptors that new connections come from. Each locked operation is one step.
 */
module ListenQueue {
  /** A peer's address; 0 stands for the zero bytes of an invalidated slot, which no AF_INET address has. */
  type Peer = nat
  type Descriptor = int

  datatype Slot = Slot(peer: Peer, sd: Descriptor) {
    predicate Busy() { sd >= 0 }
  }

  /** What INVALIDATE_CONNECT_REQUEST leaves. */
  const FREE := Slot(0, -1)

  /**
   `completed` holds slot indices in completion order. `used` is `global_ctx`: which descriptors are taken.
   The rest is history: `opening` are the descriptors made for a SYN whose handshake is still going on, `given`
   those in the application's hands; `log` and `accepted` are the descriptors completed and accepted so far.
   */
  datatype Queue = Queue(
    slots: seq<Slot>, curLen: nat, completed: seq<nat>, used: seq<bool>,
    opening: set<Descriptor>, given: set<Descriptor>, log: seq<Descriptor>, accepted: seq<Descriptor>)

  // ---- the scanning loops

  /** The first slot for which the scan stops, or the number of slots. */
  function FirstFree(slots: seq<Slot>): (k: nat)
    ensures k <= |slots|
    ensures k < |slots| ==> !slots[k].Busy()
    ensures forall j :: 0 <= j < k ==> slots[j].Busy()
  {
    if slots == [] || !slots[0].Busy() then 0 else 1 + FirstFree(slots[1..])
  }

  function FindDescriptor(slots: seq<Slot>, sd: Descriptor): (k: nat)
    ensures k <= |slots|
    ensures k < |slots| ==> slots[k].sd == sd
    ensures forall j :: 0 <= j < k ==> slots[j].sd != sd
  {
    if slots == [] || slots[0].sd == sd then 0 else 1 + FindDescriptor(slots[1..], sd)
  }

  function FirstUnused(used: seq<bool>): (k: nat)
    ensures k <= |used|
    ensures k < |used| ==> !used[k]
    ensures forall j :: 0 <= j < k ==> used[j]
  {
    if used == [] || !used[0] then 0 else 1 + FirstUnused(used[1..])
  }

  predicate HasPeer(slots: seq<Slot>, peer: Peer) { exists k :: 0 <= k < |slots| && slots[k].peer == peer }

  function BusyCount(slots: seq<Slot>): nat {
    if slots == [] then 0 else (if slots[|slots| - 1].Busy() then 1 else 0) + BusyCount(slots[..|slots| - 1])
  }

  // ---- the operations

  function TakenSet(used: seq<bool>): set<Descriptor> { set k | 0 <= k < |used| && used[k] }

  /** `_mysock_set_backlog` on a new listening socket; the addition is unsigned. The descriptors taken so far are
      the application's. */
  function Listen(backlog: nat, used: seq<bool>): Queue {
    Queue(seq((backlog + 1) % 0x1_0000_0000, _ => FREE), 0, [], used, {}, TakenSet(used), [], [])
  }

  /** Whether `_mysock_enqueue_connection` queues the request, and so returns TRUE. */
  predicate Admits(q: Queue, isSyn: bool, peer: Peer) {
    isSyn && !HasPeer(q.slots, peer) && q.curLen < |q.slots| && FirstUnused(q.used) < |q.used|
  }

  /** A SYN from `peer`; retransmissions, a full queue and a full descriptor table drop it. Without a free
      slot the program would stop at its assertion, and this function changes nothing. */
  function Enqueue(q: Queue, isSyn: bool, peer: Peer): Queue {
    var k, sd := FirstFree(q.slots), FirstUnused(q.used);
    if Admits(q, isSyn, peer) && k < |q.slots| then
      q.(slots := q.slots[k := Slot(peer, sd)], curLen := q.curLen + 1, used := q.used[sd := true],
         opening := q.opening + {sd})
    else q
  }

  /** `_mysock_passive_connection_complete`. */
  function Complete(q: Queue, sd: Descriptor): Queue
    requires FindDescriptor(q.slots, sd) < |q.slots|
  {
    q.(completed := q.completed + [FindDescriptor(q.slots, sd)], opening := q.opening - {sd}, log := q.log + [sd])
  }

  /** `_mysock_dequeue_connection`, once something has completed. */
  function Dequeue(q: Queue): Queue
    requires q.completed != [] && q.completed[0] < |q.slots| && q.curLen > 0
  {
    var k := q.completed[0];
    q.(slots := q.slots[k := FREE], curLen := q.curLen - 1, completed := q.completed[1..],
       given := q.given + {q.slots[k].sd}, accepted := q.accepted + [q.slots[k].sd])
  }

  // ---- the invariant

  function Descriptors(slots: seq<Slot>, indices: seq<nat>): seq<Descriptor>
    requires forall i :: 0 <= i < |indices| ==> indices[i] < |slots|
  {
    seq(|indices|, i requires 0 <= i < |indices| => slots[indices[i]].sd)
  }

  predicate SlotsOk(slots: seq<Slot>) {
    && (forall k :: 0 <= k < |slots| ==> slots[k] == FREE || (slots[k].Busy() && slots[k].peer != 0))
    && (forall j, k :: 0 <= j < k < |slots| && slots[j].Busy() && slots[k].Busy()
          ==> slots[j].peer != slots[k].peer && slots[j].sd != slots[k].sd)
  }

  predicate CompletedOk(slots: seq<Slot>, completed: seq<nat>) {
    && (forall i :: 0 <= i < |completed| ==> completed[i] < |slots| && slots[completed[i]].Busy())
    && (forall i, j :: 0 <= i < j < |completed| ==> completed[i] != completed[j])
  }

  predicate UsedOk(slots: seq<Slot>, used: seq<bool>) {
    forall k :: 0 <= k < |slots| && slots[k].Busy() ==> slots[k].sd < |used| && used[slots[k].sd]
  }

  /** The occupied slots that have not completed are those of the handshakes going on. */
  predicate OpeningOk(slots: seq<Slot>, completed: seq<nat>, opening: set<Descriptor>) {
    && (forall sd :: sd in opening ==> sd >= 0 && FindDescriptor(slots, sd) < |slots|)
    && (forall k :: 0 <= k < |slots| && slots[k].Busy() ==> (slots[k].sd in opening <==> k !in completed))
  }

  /** The application holds descriptors that are taken, and none that a slot still has. */
  predicate GivenOk(slots: seq<Slot>, used: seq<bool>, given: set<Descriptor>) {
    && (forall sd :: sd in given ==> 0 <= sd < |used| && used[sd])
    && (forall k :: 0 <= k < |slots| && slots[k].Busy() ==> slots[k].sd !in given)
  }

  predicate Inv(q: Queue) {
    && SlotsOk(q.slots) && CompletedOk(q.slots, q.completed) && UsedOk(q.slots, q.used)
    && OpeningOk(q.slots, q.completed, q.opening) && GivenOk(q.slots, q.used, q.given)
    && q.curLen == BusyCount(q.slots)
    && q.log == q.accepted + Descriptors(q.slots, q.completed)
  }

  // ---- counting

  lemma {:induction false} BusyCountSet(slots: seq<Slot>, k: nat, s: Slot)
    requires k < |slots|
    ensures BusyCount(slots[k := s]) - BusyCount(slots)
       == (if s.Busy() then 1 else 0) - (if slots[k].Busy() then 1 else 0)
    decreases |slots|
  {
    var n := |slots| - 1;
    if k == n {
      assert slots[k := s][..n] == slots[..n];
    } else {
      assert slots[k := s][..n] == slots[..n][k := s];
      BusyCountSet(slots[..n], k, s);
    }
  }

  lemma {:induction false} BusyCountBound(slots: seq<Slot>)
    ensures BusyCount(slots) <= |slots|
    ensures BusyCount(slots) == |slots| <==> forall k :: 0 <= k < |slots| ==> slots[k].Busy()
    decreases |slots|
  {
    if slots != [] {
      BusyCountBound(slots[..|slots| - 1]);
    }
  }

  lemma {:induction false} BusyCountPositive(slots: seq<Slot>, k: nat)
    requires k < |slots| && slots[k].Busy()
    ensures BusyCount(slots) > 0
    decreases |slots|
  {
    if k < |slots| - 1 {
      BusyCountPositive(slots[..|slots| - 1], k);
    }
  }

  lemma {:induction false} NoneBusy(slots: seq<Slot>)
    requires forall k :: 0 <= k < |slots| ==> !slots[k].Busy()
    ensures BusyCount(slots) == 0
    decreases |slots|
  {
    if slots != [] {
      NoneBusy(slots[..|slots| - 1]);
    }
  }

  // ---- the assertions cannot fail

  /** When the count says there is room, the scan finds a free slot. */
  lemma RoomIsFound(q: Queue)
    requires Inv(q) && q.curLen < |q.slots|
    ensures FirstFree(q.slots) < |q.slots|
  {
    BusyCountBound(q.slots);
  }

  /** When a connection has completed, the count is positive. */
  lemma CompletedIsCounted(q: Queue)
    requires Inv(q) && q.completed != []
    ensures q.completed[0] < |q.slots| && q.curLen > 0
  {
    BusyCountPositive(q.slots, q.completed[0]);
  }

  /** The queue never holds more than its length, and its count is the number of occupied slots. */
  lemma CountIsOccupied(q: Queue)
    requires Inv(q)
    ensures q.curLen <= |q.slots|
    ensures q.curLen == |q.slots| <==> forall k :: 0 <= k < |q.slots| ==> q.slots[k].Busy()
  {
    BusyCountBound(q.slots);
  }

  /** A connection whose handshake completes is found, and had not completed before. */
  lemma OpeningIsFound(q: Queue, sd: Descriptor)
    requires Inv(q) && sd in q.opening
    ensures FindDescriptor(q.slots, sd) < |q.slots| && FindDescriptor(q.slots, sd) !in q.completed
  {
  }

  // ---- each operation keeps the invariant

  lemma ListenInv(backlog: nat, used: seq<bool>)
    ensures Inv(Listen(backlog, used))
  {
    NoneBusy(Listen(backlog, used).slots);
  }

  /** Entries already completed are not disturbed by what happens in a slot that was free. */
  lemma CompletedUndisturbed(slots: seq<Slot>, completed: seq<nat>, k: nat, s: Slot)
    requires CompletedOk(slots, completed) && k < |slots| && !slots[k].Busy()
    ensures CompletedOk(slots[k := s], completed)
       && Descriptors(slots[k := s], completed) == Descriptors(slots, completed)
  {
  }

  lemma OpeningGrows(slots: seq<Slot>, completed: seq<nat>, opening: set<Descriptor>,
                     k: nat, peer: Peer, sd: Descriptor)
    requires OpeningOk(slots, completed, opening) && CompletedOk(slots, completed) && k < |slots| && !slots[k].Busy()
    requires sd >= 0 && forall j :: 0 <= j < |slots| ==> slots[j].sd != sd
    ensures OpeningOk(slots[k := Slot(peer, sd)], completed, opening + {sd})
  {
    var slots' := slots[k := Slot(peer, sd)];
    forall d | d in opening + {sd} ensures FindDescriptor(slots', d) < |slots'| {
      var j := if d == sd then k else FindDescriptor(slots, d);
      assert slots'[j].sd == d;
    }
  }

  lemma SlotsGrow(slots: seq<Slot>, used: seq<bool>, given: set<Descriptor>, k: nat, peer: Peer, sd: nat)
    requires SlotsOk(slots) && UsedOk(slots, used) && GivenOk(slots, used, given)
    requires k < |slots| && peer != 0 && !HasPeer(slots, peer) && sd < |used| && !used[sd]
    ensures SlotsOk(slots[k := Slot(peer, sd)]) && UsedOk(slots[k := Slot(peer, sd)], used[sd := true])
    ensures GivenOk(slots[k := Slot(peer, sd)], used[sd := true], given)
    ensures forall j :: 0 <= j < |slots| ==> slots[j].sd != sd
  {
    assert forall j :: 0 <= j < |slots| ==> slots[j].peer != peer;
  }

  lemma EnqueueKeepsInv(q: Queue, isSyn: bool, peer: Peer)
    requires Inv(q) && peer != 0
    ensures Inv(Enqueue(q, isSyn, peer))
  {
    var k, sd := FirstFree(q.slots), FirstUnused(q.used);
    if Admits(q, isSyn, peer) && k < |q.slots| {
      CompletedUndisturbed(q.slots, q.completed, k, Slot(peer, sd));
      BusyCountSet(q.slots, k, Slot(peer, sd));
      SlotsGrow(q.slots, q.used, q.given, k, peer, sd);
      OpeningGrows(q.slots, q.completed, q.opening, k, peer, sd);
    }
  }

  lemma OpeningShrinks(slots: seq<Slot>, completed: seq<nat>, opening: set<Descriptor>, k: nat)
    requires SlotsOk(slots) && OpeningOk(slots, completed, opening) && k < |slots| && slots[k].Busy()
    ensures OpeningOk(slots, completed + [k], opening - {slots[k].sd})
  {
  }

  lemma CompleteKeepsInv(q: Queue, sd: Descriptor)
    requires Inv(q) && sd in q.opening
    ensures FindDescriptor(q.slots, sd) < |q.slots| && Inv(Complete(q, sd))
  {
    var k := FindDescriptor(q.slots, sd);
    OpeningIsFound(q, sd);
    OpeningShrinks(q.slots, q.completed, q.opening, k);
    assert Descriptors(q.slots, q.completed + [k]) == Descriptors(q.slots, q.completed) + [sd];
  }

  /** Freeing the slot of a completed connection leaves the handshakes going on where they are. */
  lemma OpeningStays(slots: seq<Slot>, completed: seq<nat>, opening: set<Descriptor>)
    requires SlotsOk(slots) && CompletedOk(slots, completed) && OpeningOk(slots, completed, opening) && completed != []
    ensures OpeningOk(slots[completed[0] := FREE], completed[1..], opening)
  {
    var k, slots' := completed[0], slots[completed[0] := FREE];
    assert k in completed && slots[k].sd !in opening;
    forall d | d in opening ensures FindDescriptor(slots', d) < |slots'| {
      assert slots'[FindDescriptor(slots, d)].sd == d;
    }
    forall j | 0 <= j < |slots'| && slots'[j].Busy() ensures j in completed[1..] <==> j in completed {
      assert completed == [k] + completed[1..];
    }
  }

  lemma DequeueSlots(q: Queue)
    requires Inv(q) && q.completed != []
    ensures var k := q.completed[0];
            && k < |q.slots|
            && SlotsOk(q.slots[k := FREE]) && UsedOk(q.slots[k := FREE], q.used)
            && CompletedOk(q.slots[k := FREE], q.completed[1..])
            && Descriptors(q.slots[k := FREE], q.completed[1..]) == Descriptors(q.slots, q.completed)[1..]
  {
    var k, rest := q.completed[0], q.completed[1..];
    forall i | 0 <= i < |rest| ensures rest[i] != k && rest[i] < |q.slots| {
      assert q.completed[0] != q.completed[i + 1];
    }
  }

  lemma LogMoves(accepted: seq<Descriptor>, d: seq<Descriptor>)
    requires d != []
    ensures accepted + d == accepted + [d[0]] + d[1..]
    ensures (accepted + d)[..|accepted| + 1] == accepted + [d[0]]
  {
  }

  lemma GivenGrows(slots: seq<Slot>, used: seq<bool>, given: set<Descriptor>, k: nat)
    requires SlotsOk(slots) && UsedOk(slots, used) && GivenOk(slots, used, given) && k < |slots| && slots[k].Busy()
    ensures GivenOk(slots[k := FREE], used, given + {slots[k].sd})
  {
  }

  lemma DequeueKeepsInv(q: Queue)
    requires Inv(q) && q.completed != []
    ensures q.completed[0] < |q.slots| && q.curLen > 0 && Inv(Dequeue(q))
    ensures Dequeue(q).accepted == q.log[..|q.accepted| + 1]
  {
    var k := q.completed[0];
    CompletedIsCounted(q);
    DequeueSlots(q);
    OpeningStays(q.slots, q.completed, q.opening);
    BusyCountSet(q.slots, k, FREE);
    GivenGrows(q.slots, q.used, q.given, k);
    LogMoves(q.accepted, Descriptors(q.slots, q.completed));
  }

  // ---- runs

  datatype Event =
    | Syn(isSyn: bool, peer: Peer)
    | Established(sd: Descriptor)
    | Accept
    | OpenOther
    | Release(sd: Descriptor)

  /** The blocking and calling rules: a connection's transport thread reports its handshake once, an accept waits
      for a completed connection, and an application closes only descriptors it holds. */
  predicate Enabled(q: Queue, e: Event) {
    match e
    case Syn(_, peer) => peer != 0
    case Established(sd) => sd in q.opening
    case Accept => q.completed != []
    case OpenOther => true
    case Release(sd) => sd in q.given && 0 <= sd < |q.used|
  }

  /** The queue after an event. A completion or an accept that found its assertions broken would stop the program;
      this function then changes nothing. */
  function Step(q: Queue, e: Event): Queue
    requires Enabled(q, e)
  {
    match e
    case Syn(isSyn, peer) => Enqueue(q, isSyn, peer)
    case Established(sd) => if FindDescriptor(q.slots, sd) < |q.slots| then Complete(q, sd) else q
    case Accept => if q.completed[0] < |q.slots| && q.curLen > 0 then Dequeue(q) else q
    case OpenOther =>
      var sd := FirstUnused(q.used);
      if sd < |q.used| then q.(used := q.used[sd := true], given := q.given + {sd}) else q
    case Release(sd) => q.(used := q.used[sd := false], given := q.given - {sd})
  }

  lemma StepKeepsInv(q: Queue, e: Event)
    requires Inv(q) && Enabled(q, e)
    ensures Inv(Step(q, e)) && |Step(q, e).slots| == |q.slots|
  {
    match e
    case Syn(isSyn, peer) => EnqueueKeepsInv(q, isSyn, peer);
    case Established(sd) => CompleteKeepsInv(q, sd);
    case Accept => DequeueKeepsInv(q);
    case OpenOther => OpenKeepsTable(q.slots, q.used, q.given);
    case Release(sd) => ReleaseKeepsTable(q.slots, q.used, q.given, sd);
  }

  lemma OpenKeepsTable(slots: seq<Slot>, used: seq<bool>, given: set<Descriptor>)
    requires UsedOk(slots, used) && GivenOk(slots, used, given)
    ensures var sd := FirstUnused(used);
            sd < |used| ==> UsedOk(slots, used[sd := true]) && GivenOk(slots, used[sd := true], given + {sd})
  {
  }

  lemma ReleaseKeepsTable(slots: seq<Slot>, used: seq<bool>, given: set<Descriptor>, sd: Descriptor)
    requires UsedOk(slots, used) && GivenOk(slots, used, given) && sd in given && 0 <= sd < |used|
    ensures UsedOk(slots, used[sd := false]) && GivenOk(slots, used[sd := false], given - {sd})
  {
  }

  /** The states a run passes through. */
  ghost predicate IsRun(run: seq<Queue>, backlog: nat, used: seq<bool>) {
    && run != [] && run[0] == Listen(backlog, used)
    && forall i, j :: 0 <= i && j == i + 1 && j < |run| ==> OneStep(run[i], run[j])
  }

  ghost predicate OneStep(q: Queue, q': Queue) {
    exists e :: Enabled(q, e) && q' == Step(q, e)
  }

  /** In every state of every run: the count is that of the occupied slots, which have distinct peers and
      descriptors; completed entries name distinct occupied slots; and what has been accepted, followed by
      what is waiting to be, is what has completed, in that order. */
  lemma {:induction false} RunKeepsInv(run: seq<Queue>, backlog: nat, used: seq<bool>, k: nat)
    requires IsRun(run, backlog, used) && k < |run|
    ensures Inv(run[k]) && |run[k].slots| == (backlog + 1) % 0x1_0000_0000
    ensures run[k].curLen <= |run[k].slots| && run[k].accepted <= run[k].log
    decreases k
  {
    if k == 0 {
      ListenInv(backlog, used);
    } else {
      RunKeepsInv(run, backlog, used, k - 1);
      var q := run[k - 1];
      assert OneStep(q, run[k]);
      var e :| Enabled(q, e) && run[k] == Step(q, e);
      StepKeepsInv(q, e);
    }
    CountIsOccupied(run[k]);
  }

  /** A SYN is queued exactly when it starts a new connection and there is room for it; it then takes the
      place a free slot had, and a retransmission of it is dropped until the connection is accepted. */
  lemma SynIsQueued(q: Queue, isSyn: bool, peer: Peer)
    requires Inv(q) && peer != 0
    ensures var q' := Enqueue(q, isSyn, peer);
            && (Admits(q, isSyn, peer) <==> q'.curLen == q.curLen + 1)
            && (!Admits(q, isSyn, peer) ==> q' == q)
            && (Admits(q, isSyn, peer) ==> HasPeer(q'.slots, peer) && Enqueue(q', true, peer) == q')
  {
    if Admits(q, isSyn, peer) {
      RoomIsFound(q);
      var k := FirstFree(q.slots);
      assert Enqueue(q, isSyn, peer).slots[k].peer == peer;
    }
  }

  /** Whether a request is queued, told without the count: it is a SYN, its peer has no slot, a slot is free and so is
      a descriptor. */
  lemma AdmitsMeans(q: Queue, isSyn: bool, peer: Peer)
    requires Inv(q)
    ensures Admits(q, isSyn, peer)
       <==> && isSyn
            && (forall k :: 0 <= k < |q.slots| ==> q.slots[k].peer != peer)
            && (exists k :: 0 <= k < |q.slots| && q.slots[k].sd < 0)
            && (exists d :: 0 <= d < |q.used| && !q.used[d])
  {
    CountIsOccupied(q);
  }

  /** A queued request takes one slot that was free and the lowest free descriptor, and disturbs no other. */
  lemma EnqueuePlaces(q: Queue, peer: Peer) returns (k: nat, sd: nat)
    requires Inv(q) && Admits(q, true, peer)
    ensures k < |q.slots| && q.slots[k].sd < 0 && sd < |q.used| && !q.used[sd]
    ensures forall d :: 0 <= d < sd ==> q.used[d]
    ensures var q' := Enqueue(q, true, peer);
            && q'.slots == q.slots[k := Slot(peer, sd)] && q'.used == q.used[sd := true]
            && q'.completed == q.completed && q'.opening == q.opening + {sd}
  {
    RoomIsFound(q);
    k, sd := FirstFree(q.slots), FirstUnused(q.used);
  }

  // ---- in place

  class Listener {
    var slots: array<Slot>
    var curLen: nat
    var completed: seq<nat>
    const used: array<bool>
    ghost var opening: set<Descriptor>
    ghost var given: set<Descriptor>
    ghost var log: seq<Descriptor>
    ghost var accepted: seq<Descriptor>

    ghost function View(): Queue
      reads this, slots, used
    {
      Queue(slots[..], curLen, completed, used[..], opening, given, log, accepted)
    }

    constructor (backlog: nat, used: array<bool>)
      ensures View() == Listen(backlog, used[..]) && this.used == used && fresh(slots)
    {
      this.used := used;
      curLen, completed, log, accepted := 0, [], [], [];
      opening, given := {}, TakenSet(used[..]);
      var maxLen := (backlog + 1) % 0x1_0000_0000;
      slots := new Slot[maxLen](_ => FREE);
      new;
      assert slots[..] == seq(maxLen, _ => FREE);
    }

    /** `_mysock_new_mysocket`: the lowest free descriptor, or -1. */
    method NewMysocket() returns (sd: Descriptor)
      modifies used
      ensures var k := FirstUnused(old(used[..]));
              if k < used.Length then sd == k && used[..] == old(used[..])[k := true]
              else sd == -1 && used[..] == old(used[..])
    {
      assert used[0..] == used[..];
      for k := 0 to used.Length
        invariant used[..] == old(used[..]) && FirstUnused(used[..]) == k + FirstUnused(used[k..])
      {
        if !used[k] {
          used[k] := true;
          return k;
        }
        assert used[k..][1..] == used[k + 1..];
      }
      return -1;
    }

    method FindPeer(peer: Peer) returns (found: bool)
      ensures found == HasPeer(slots[..], peer)
    {
      for k := 0 to slots.Length
        invariant forall j :: 0 <= j < k ==> slots[j].peer != peer
      {
        if slots[k].peer == peer {
          assert slots[..][k].peer == peer;
          return true;
        }
      }
      return false;
    }

    method FindFree() returns (k: nat)
      ensures k == FirstFree(slots[..])
    {
      k := 0;
      assert slots[0..] == slots[..];
      while k < slots.Length && slots[k].Busy()
        invariant k <= slots.Length && FirstFree(slots[..]) == k + FirstFree(slots[k..])
      {
        assert slots[k..][1..] == slots[k + 1..];
        k := k + 1;
      }
    }

    method FindSlot(sd: Descriptor) returns (k: nat)
      ensures k == FindDescriptor(slots[..], sd)
    {
      k := 0;
      assert slots[0..] == slots[..];
      while k < slots.Length && slots[k].sd != sd
        invariant k <= slots.Length && FindDescriptor(slots[..], sd) == k + FindDescriptor(slots[k..], sd)
      {
        assert slots[k..][1..] == slots[k + 1..];
        k := k + 1;
      }
    }

    method EnqueueConnection(isSyn: bool, peer: Peer) returns (queued: bool)
      requires Inv(View()) && peer != 0
      modifies this, slots, used
      ensures slots == old(slots)
      ensures View() == Enqueue(old(View()), isSyn, peer) && Inv(View())
      ensures queued == Admits(old(View()), isSyn, peer)
    {
      ghost var was := View();
      EnqueueKeepsInv(was, isSyn, peer);
      if !isSyn {
        return false;
      }
      var retransmission := FindPeer(peer);
      if retransmission || curLen >= slots.Length {
        return false;
      }
      var k := FindFree();
      RoomIsFound(was);
      assert k < slots.Length;
      curLen := curLen + 1;
      assert slots[k].sd == -1;
      var sd := NewMysocket();
      if sd < 0 {
        slots[k] := FREE;
        curLen := curLen - 1;
        assert slots[..] == was.slots;
        return false;
      }
      slots[k] := Slot(peer, sd);
      opening := opening + {sd};
      return true;
    }

    method PassiveConnectionComplete(sd: Descriptor)
      requires Inv(View()) && sd in opening
      modifies this
      ensures slots == old(slots) && FindDescriptor(old(slots[..]), sd) < slots.Length
      ensures View() == Complete(old(View()), sd) && Inv(View())
    {
      CompleteKeepsInv(View(), sd);
      var k := FindSlot(sd);
      assert k < slots.Length;
      completed := completed + [k];
      opening := opening - {sd};
      log := log + [sd];
    }

    /** The caller has waited until something has completed. */
    method DequeueConnection() returns (sd: Descriptor)
      requires Inv(View()) && completed != []
      modifies this, slots
      ensures slots == old(slots)
      ensures var q := old(View());
              && q.completed[0] < |q.slots| && q.curLen > 0
              && View() == Dequeue(q) && Inv(View())
              && |q.accepted| < |q.log| && sd == q.log[|q.accepted|]
    {
      ghost var was := View();
      DequeueKeepsInv(was);
      assert was.log[|was.accepted|] == Descriptors(was.slots, was.completed)[0];
      var k := completed[0];
      completed := completed[1..];
      sd := slots[k].sd;
      slots[k] := FREE;
      assert curLen > 0;
      curLen := curLen - 1;
      given := given + {sd};
      accepted := accepted + [sd];
    }
  }
}
