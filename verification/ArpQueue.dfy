/**
 Project-4/router/sr_arpcache.c: packets waiting for an address, one request per address, and the table of
 answers. Each locked operation is one step.
 */
module ArpQueue {
  import opened Wrappers

  type Ip = int
  type Mac = int
  type Time = int

  const SR_ARPCACHE_SZ := 100
  const SR_ARPCACHE_TO := 15

  /** A frame to send, with the address it waits for. */
  datatype Packet = Packet(ip: Ip, frame: seq<bv8>, iface: string)

  /** `id` stands for the pointer; packets are kept newest first. */
  datatype Request = Request(id: nat, ip: Ip, packets: seq<Packet>)

  datatype Entry = Entry(mac: Mac, ip: Ip, added: Time, valid: bool)

  /**
   `requests` is the linked list from its head. The last four fields are history: the packets queued, those
   handed back by `sr_arpcache_insert`, those freed with a request still in the list, and the mappings inserted.
   */
  datatype Cache = Cache(
    requests: seq<Request>, entries: seq<Entry>, nextId: nat,
    queued: seq<Packet>, handed: seq<Packet>, dropped: seq<Packet>, inserted: set<(Ip, Mac)>)

  const NO_ENTRY := Entry(0, 0, 0, false)

  function Init(): Cache { Cache([], seq(SR_ARPCACHE_SZ, _ => NO_ENTRY), 0, [], [], [], {}) }

  // ---- the scanning loops

  /** What the two scans of the request list look for. */
  datatype Key = ByIp(ip: Ip) | ById(id: nat)

  predicate Has(r: Request, key: Key) { if key.ByIp? then r.ip == key.ip else r.id == key.id }

  function Find(requests: seq<Request>, key: Key): (k: nat)
    ensures k <= |requests|
    ensures k < |requests| ==> Has(requests[k], key)
    ensures forall j :: 0 <= j < k ==> !Has(requests[j], key)
  {
    if requests == [] || Has(requests[0], key) then 0 else 1 + Find(requests[1..], key)
  }

  function FirstInvalid(entries: seq<Entry>): (k: nat)
    ensures k <= |entries|
    ensures k < |entries| ==> !entries[k].valid
    ensures forall j :: 0 <= j < k ==> entries[j].valid
  {
    if entries == [] || !entries[0].valid then 0 else 1 + FirstInvalid(entries[1..])
  }

  /** `sr_arpcache_lookup` does not stop at the first match, so the last one counts. */
  function Lookup(entries: seq<Entry>, ip: Ip): Option<Entry> {
    if entries == [] then None
    else
      var last := entries[|entries| - 1];
      if last.valid && last.ip == ip then Some(last) else Lookup(entries[..|entries| - 1], ip)
  }

  // ---- the operations

  /** A request unlinked from the list. */
  function Unlink(requests: seq<Request>, k: nat): seq<Request>
    requires k < |requests|
  {
    requests[..k] + requests[k + 1..]
  }

  /** The list with a request for the address, put in front if there was none. */
  function WithRequest(c: Cache, ip: Ip): Cache {
    if Find(c.requests, ByIp(ip)) < |c.requests| then c
    else c.(requests := [Request(c.nextId, ip, [])] + c.requests, nextId := c.nextId + 1)
  }

  /** `sr_arpcache_queuereq`; without a packet it only makes sure there is a request. */
  function QueueReq(c: Cache, ip: Ip, packet: Option<Packet>): Cache {
    var c' := WithRequest(c, ip);
    var k := Find(c'.requests, ByIp(ip));
    if packet.None? || k == |c'.requests| then c'
    else
      var req := c'.requests[k];
      c'.(requests := c'.requests[k := req.(packets := [packet.value] + req.packets)],
           queued := c'.queued + [packet.value])
  }

  /** The request `sr_arpcache_insert` hands back. */
  function Answered(c: Cache, ip: Ip): Option<Request> {
    var k := Find(c.requests, ByIp(ip));
    if k < |c.requests| then Some(c.requests[k]) else None
  }

  function StoreEntry(entries: seq<Entry>, mac: Mac, ip: Ip, now: Time): seq<Entry> {
    var i := FirstInvalid(entries);
    if i < |entries| then entries[i := Entry(mac, ip, now, true)] else entries
  }

  /** `sr_arpcache_insert`. */
  function Insert(c: Cache, mac: Mac, ip: Ip, now: Time): Cache {
    var k := Find(c.requests, ByIp(ip));
    c.(requests := if k < |c.requests| then Unlink(c.requests, k) else c.requests,
       handed := if k < |c.requests| then c.handed + c.requests[k].packets else c.handed,
       entries := StoreEntry(c.entries, mac, ip, now),
       inserted := c.inserted + {(ip, mac)})
  }

  /** `sr_arpreq_destroy`: the request may be in the list, or have been unlinked before. */
  function Destroy(c: Cache, id: nat): Cache {
    var k := Find(c.requests, ById(id));
    if k < |c.requests| then c.(requests := Unlink(c.requests, k), dropped := c.dropped + c.requests[k].packets) else c
  }

  /** The part of `sr_arpcache_timeout` that expires entries. */
  function Expire(entries: seq<Entry>, now: Time): seq<Entry> {
    seq(|entries|, i requires 0 <= i < |entries| =>
      entries[i].(valid := entries[i].valid && !(now - entries[i].added > SR_ARPCACHE_TO)))
  }

  // ---- the simple view: packets by address

  function Pending(requests: seq<Request>): map<Ip, seq<Packet>> {
    if requests == [] then map[] else Pending(requests[1..])[requests[0].ip := requests[0].packets]
  }

  function Flat(requests: seq<Request>): seq<Packet> {
    if requests == [] then [] else requests[0].packets + Flat(requests[1..])
  }

  predicate Distinct(requests: seq<Request>) {
    forall i, j :: 0 <= i < j < |requests| ==> requests[i].ip != requests[j].ip && requests[i].id != requests[j].id
  }

  predicate AllFor(r: Request) { forall p :: p in r.packets ==> p.ip == r.ip }

  predicate ListOk(c: Cache) {
    Distinct(c.requests) && forall k :: 0 <= k < |c.requests| ==> c.requests[k].id < c.nextId && AllFor(c.requests[k])
  }

  /** Every packet queued is waiting, handed back or dropped, and in only one of these. */
  predicate Conserved(c: Cache) {
    multiset(c.queued) == multiset(Flat(c.requests)) + multiset(c.handed) + multiset(c.dropped)
  }

  predicate TableOk(c: Cache) {
    && |c.entries| == SR_ARPCACHE_SZ
    && (forall k :: 0 <= k < |c.entries| && c.entries[k].valid ==> (c.entries[k].ip, c.entries[k].mac) in c.inserted)
  }

  predicate Inv(c: Cache) { ListOk(c) && Conserved(c) && TableOk(c) }

  lemma {:induction false} PendingHas(requests: seq<Request>, ip: Ip)
    ensures var k := Find(requests, ByIp(ip));
            if k < |requests| then ip in Pending(requests) && Pending(requests)[ip] == requests[k].packets
            else ip !in Pending(requests)
    decreases |requests|
  {
    if requests != [] {
      PendingHas(requests[1..], ip);
    }
  }

  lemma UnlinkTail(requests: seq<Request>, k: nat)
    requires 0 < k < |requests|
    ensures Unlink(requests, k)[0] == requests[0] && Unlink(requests, k)[1..] == Unlink(requests[1..], k - 1)
  {
  }

  lemma {:induction false} PendingUnlink(requests: seq<Request>, k: nat)
    requires Distinct(requests) && k < |requests|
    ensures Pending(Unlink(requests, k)) == Pending(requests) - {requests[k].ip}
    decreases |requests|
  {
    if k == 0 {
      assert Unlink(requests, 0) == requests[1..];
      PendingHas(requests[1..], requests[0].ip);
    } else {
      UnlinkTail(requests, k);
      assert Distinct(requests[1..]);
      PendingUnlink(requests[1..], k - 1);
    }
  }

  lemma {:induction false} PendingUpdate(requests: seq<Request>, k: nat, packets: seq<Packet>)
    requires Distinct(requests) && k < |requests|
    ensures Pending(requests[k := requests[k].(packets := packets)]) == Pending(requests)[requests[k].ip := packets]
    decreases |requests|
  {
    var h, rest, updated := requests[0], requests[1..], requests[k := requests[k].(packets := packets)];
    if k == 0 {
      assert updated[1..] == rest;
    } else {
      assert updated[0] == h && updated[1..] == rest[k - 1 := rest[k - 1].(packets := packets)];
      assert Distinct(rest);
      PendingUpdate(rest, k - 1, packets);
    }
  }

  lemma {:induction false} FlatUnlink(requests: seq<Request>, k: nat)
    requires k < |requests|
    ensures multiset(Flat(requests)) == multiset(Flat(Unlink(requests, k))) + multiset(requests[k].packets)
    decreases |requests|
  {
    if k == 0 {
      assert Unlink(requests, 0) == requests[1..];
    } else {
      UnlinkTail(requests, k);
      FlatUnlink(requests[1..], k - 1);
    }
  }

  lemma {:induction false} FlatPush(requests: seq<Request>, k: nat, p: Packet)
    requires k < |requests|
    ensures var updated := requests[k := requests[k].(packets := [p] + requests[k].packets)];
            multiset(Flat(updated)) == multiset(Flat(requests)) + multiset{p}
    decreases |requests|
  {
    var updated := requests[k := requests[k].(packets := [p] + requests[k].packets)];
    if k == 0 {
      assert updated[1..] == requests[1..];
      assert Flat(updated) == [p] + requests[0].packets + Flat(requests[1..]);
    } else {
      assert updated[0] == requests[0] && updated[1..] == requests[1..][k - 1 := updated[k]];
      FlatPush(requests[1..], k - 1, p);
    }
  }

  // ---- the operations on the simple view

  lemma WithRequestOk(c: Cache, ip: Ip)
    requires ListOk(c)
    ensures var c' := WithRequest(c, ip);
            && ListOk(c') && Find(c'.requests, ByIp(ip)) < |c'.requests|
            && Pending(c'.requests) == (if ip in Pending(c.requests) then Pending(c.requests)
                                             else Pending(c.requests)[ip := []])
            && Flat(c'.requests) == Flat(c.requests)
  {
    PendingHas(c.requests, ip);
    if Find(c.requests, ByIp(ip)) == |c.requests| {
      var r := Request(c.nextId, ip, []);
      assert ([r] + c.requests)[1..] == c.requests;
      assert [] + Flat(c.requests) == Flat(c.requests);
    }
  }

  lemma PushOk(c: Cache, k: nat, p: Packet)
    requires ListOk(c) && k < |c.requests| && c.requests[k].ip == p.ip
    ensures var updated := c.requests[k := c.requests[k].(packets := [p] + c.requests[k].packets)];
            ListOk(c.(requests := updated))
  {
  }

  lemma UnlinkOk(c: Cache, k: nat)
    requires ListOk(c) && k < |c.requests|
    ensures ListOk(c.(requests := Unlink(c.requests, k)))
  {
    var r := Unlink(c.requests, k);
    assert forall i :: 0 <= i < |r| ==> r[i] == if i < k then c.requests[i] else c.requests[i + 1];
  }

  /** What waits for an address after a packet is queued for it: that packet in front of what waited before. */
  function PendingAfterQueue(m: map<Ip, seq<Packet>>, ip: Ip, packet: Option<Packet>): map<Ip, seq<Packet>> {
    m[ip := (if packet.Some? then [packet.value] else []) + (if ip in m then m[ip] else [])]
  }

  lemma QueueReqIsSimple(c: Cache, ip: Ip, packet: Option<Packet>)
    requires ListOk(c) && (packet.Some? ==> packet.value.ip == ip)
    ensures Pending(QueueReq(c, ip, packet).requests) == PendingAfterQueue(Pending(c.requests), ip, packet)
  {
    var c' := WithRequest(c, ip);
    var k := Find(c'.requests, ByIp(ip));
    WithRequestOk(c, ip);
    PendingHas(c'.requests, ip);
    if packet.Some? {
      PendingUpdate(c'.requests, k, [packet.value] + c'.requests[k].packets);
    } else {
      assert Pending(c'.requests)[ip := c'.requests[k].packets] == Pending(c'.requests);
      assert [] + c'.requests[k].packets == c'.requests[k].packets;
    }
  }

  /** An address asked for the first time comes first in the list; otherwise the list keeps its order. */
  lemma RequestGoesFirst(c: Cache, ip: Ip, packet: Option<Packet>)
    ensures var requests := QueueReq(c, ip, packet).requests;
            if exists k :: 0 <= k < |c.requests| && c.requests[k].ip == ip then
              && |requests| == |c.requests|
              && (forall k :: 0 <= k < |c.requests| ==> requests[k].(packets := []) == c.requests[k].(packets := []))
            else requests != [] && requests[0].ip == ip && requests[1..] == c.requests
  {
    if k :| 0 <= k < |c.requests| && c.requests[k].ip == ip {
      assert Has(c.requests[k], ByIp(ip));
    }
    if Find(c.requests, ByIp(ip)) == |c.requests| {
      assert Has(WithRequest(c, ip).requests[0], ByIp(ip));
    }
  }

  /** An answer hands back everything that waited for the address, and nothing waits for it any more. */
  lemma InsertIsSimple(c: Cache, mac: Mac, ip: Ip, now: Time)
    requires ListOk(c)
    ensures Pending(Insert(c, mac, ip, now).requests) == Pending(c.requests) - {ip}
    ensures var m, r := Pending(c.requests), Answered(c, ip);
            if ip in m then r.Some? && r.value.ip == ip && r.value.packets == m[ip] else r.None?
  {
    PendingHas(c.requests, ip);
    if Find(c.requests, ByIp(ip)) < |c.requests| {
      PendingUnlink(c.requests, Find(c.requests, ByIp(ip)));
    }
  }

  lemma DestroyIsSimple(c: Cache, id: nat)
    requires ListOk(c)
    ensures var k := Find(c.requests, ById(id));
            Pending(Destroy(c, id).requests)
            == if k < |c.requests| then Pending(c.requests) - {c.requests[k].ip} else Pending(c.requests)
  {
    if Find(c.requests, ById(id)) < |c.requests| {
      PendingUnlink(c.requests, Find(c.requests, ById(id)));
    }
  }

  // ---- runs

  datatype Event =
    | QueueEvent(ip: Ip, packet: Option<Packet>)
    | InsertEvent(mac: Mac, ip: Ip, now: Time)
    | DestroyEvent(id: nat)
    | ExpireEvent(now: Time)

  predicate Sensible(e: Event) { e.QueueEvent? && e.packet.Some? ==> e.packet.value.ip == e.ip }

  function Step(c: Cache, e: Event): Cache {
    match e
    case QueueEvent(ip, packet) => QueueReq(c, ip, packet)
    case InsertEvent(mac, ip, now) => Insert(c, mac, ip, now)
    case DestroyEvent(id) => Destroy(c, id)
    case ExpireEvent(now) => c.(entries := Expire(c.entries, now))
  }

  function Run(events: seq<Event>): Cache {
    if events == [] then Init() else Step(Run(events[..|events| - 1]), events[|events| - 1])
  }

  lemma PushConserves(c: Cache, k: nat, p: Packet)
    requires Conserved(c) && k < |c.requests|
    ensures Conserved(c.(requests := c.requests[k := c.requests[k].(packets := [p] + c.requests[k].packets)],
                        queued := c.queued + [p]))
  {
    FlatPush(c.requests, k, p);
  }

  lemma QueueReqKeepsInv(c: Cache, ip: Ip, packet: Option<Packet>)
    requires Inv(c) && (packet.Some? ==> packet.value.ip == ip)
    ensures Inv(QueueReq(c, ip, packet))
  {
    var c' := WithRequest(c, ip);
    var k := Find(c'.requests, ByIp(ip));
    WithRequestOk(c, ip);
    if packet.Some? {
      PushOk(c', k, packet.value);
      PushConserves(c', k, packet.value);
    }
  }

  lemma InsertKeepsInv(c: Cache, mac: Mac, ip: Ip, now: Time)
    requires Inv(c)
    ensures Inv(Insert(c, mac, ip, now))
  {
    var k := Find(c.requests, ByIp(ip));
    if k < |c.requests| {
      UnlinkOk(c, k);
      FlatUnlink(c.requests, k);
    }
  }

  lemma DestroyKeepsInv(c: Cache, id: nat)
    requires Inv(c)
    ensures Inv(Destroy(c, id))
  {
    var k := Find(c.requests, ById(id));
    if k < |c.requests| {
      UnlinkOk(c, k);
      FlatUnlink(c.requests, k);
    }
  }

  lemma StepKeepsInv(c: Cache, e: Event)
    requires Inv(c) && Sensible(e)
    ensures Inv(Step(c, e))
  {
    match e
    case QueueEvent(ip, packet) => QueueReqKeepsInv(c, ip, packet);
    case InsertEvent(mac, ip, now) => InsertKeepsInv(c, mac, ip, now);
    case DestroyEvent(id) => DestroyKeepsInv(c, id);
    case ExpireEvent(now) =>
  }

  /** In any run there is at most one request for an address, and every packet queued is in exactly one
      place: waiting in the request for its address, handed back, or dropped with a destroyed request. */
  lemma {:induction false} RunKeepsInv(events: seq<Event>)
    requires forall e :: e in events ==> Sensible(e)
    ensures Inv(Run(events))
    decreases |events|
  {
    if events != [] {
      RunKeepsInv(events[..|events| - 1]);
      StepKeepsInv(Run(events[..|events| - 1]), events[|events| - 1]);
    }
  }

  // ---- the table of answers

  lemma {:induction false} LookupSound(entries: seq<Entry>, ip: Ip)
    ensures match Lookup(entries, ip)
            case None => forall k :: 0 <= k < |entries| && entries[k].valid ==> entries[k].ip != ip
            case Some(e) => e in entries && e.valid && e.ip == ip
    decreases |entries|
  {
    if entries != [] {
      LookupSound(entries[..|entries| - 1], ip);
    }
  }

  /** The table never answers with a mapping that was not inserted. */
  lemma LookupIsInserted(events: seq<Event>, ip: Ip)
    requires forall e :: e in events ==> Sensible(e)
    ensures var r := Lookup(Run(events).entries, ip); r.Some? ==> (ip, r.value.mac) in Run(events).inserted
  {
    RunKeepsInv(events);
    LookupSound(Run(events).entries, ip);
  }

  lemma {:induction false} LookupSplit(entries: seq<Entry>, i: nat, ip: Ip)
    requires i <= |entries|
    ensures Lookup(entries, ip)
      == if Lookup(entries[i..], ip).Some? then Lookup(entries[i..], ip) else Lookup(entries[..i], ip)
    decreases |entries|
  {
    if i < |entries| {
      var front := entries[..|entries| - 1];
      assert entries[i..][..|entries[i..]| - 1] == front[i..] && front[..i] == entries[..i];
      LookupSplit(front, i, ip);
    } else {
      assert entries[..i] == entries;
    }
  }

  /** A mapping just inserted is what a lookup finds exactly when there was a free entry and no valid later
      entry for the address says otherwise, or the table was full and had the mapping already. */
  lemma LookupAfterInsert(entries: seq<Entry>, mac: Mac, ip: Ip, now: Time)
    ensures var i, after := FirstInvalid(entries), Lookup(StoreEntry(entries, mac, ip, now), ip);
            (after.Some? && after.value.mac == mac)
            <==> if i < |entries| then
                 Lookup(entries[i + 1..], ip).None? || Lookup(entries[i + 1..], ip).value.mac == mac
                 else Lookup(entries, ip).Some? && Lookup(entries, ip).value.mac == mac
    ensures var i := FirstInvalid(entries);
            i < |entries| && Lookup(entries[i + 1..], ip).None? ==>
              Lookup(StoreEntry(entries, mac, ip, now), ip) == Some(Entry(mac, ip, now, true))
  {
    var i := FirstInvalid(entries);
    if i < |entries| {
      var e := Entry(mac, ip, now, true);
      var stored := entries[i := e];
      LookupSplit(stored, i + 1, ip);
      assert stored[i + 1..] == entries[i + 1..];
      assert stored[..i + 1][..i] == stored[..i] && stored[..i + 1][i] == e;
    }
  }

  /** Expiry changes nothing of an entry but its validity, and that exactly if it is more than fifteen seconds old. */
  lemma ExpiryMeans(entries: seq<Entry>, now: Time, k: nat)
    requires k < |entries|
    ensures |Expire(entries, now)| == |entries|
    ensures var e, e' := entries[k], Expire(entries, now)[k];
            e' == e.(valid := e'.valid) && (e'.valid <==> e.valid && now - e.added <= 15)
  {
  }

  /** So right after it no answer is older than that. */
  lemma AnswersAreFresh(entries: seq<Entry>, now: Time, ip: Ip)
    ensures var r := Lookup(Expire(entries, now), ip); r.Some? ==> now - r.value.added <= 15
  {
    LookupSound(Expire(entries, now), ip);
  }

  lemma RunSnoc(events: seq<Event>, e: Event)
    ensures Run(events + [e]) == Step(Run(events), e)
  {
    var all := events + [e];
    assert all[..|all| - 1] == events;
  }

  /** The table when two mappings have been stored and the first has expired. */
  predicate FirstExpired(entries: seq<Entry>, second: Entry) {
    && |entries| == SR_ARPCACHE_SZ && !entries[0].valid && entries[1] == second
    && forall k :: 2 <= k < |entries| ==> !entries[k].valid
  }

  lemma LaterEntryAnswers(entries: seq<Entry>, second: Entry, mac: Mac, now: Time)
    requires FirstExpired(entries, second) && second.valid
    ensures Lookup(StoreEntry(entries, mac, second.ip, now), second.ip) == Some(second)
  {
    var stored := StoreEntry(entries, mac, second.ip, now);
    LookupSplit(stored, 2, second.ip);
    LookupSound(stored[2..], second.ip);
    assert stored[..2][1] == second;
  }

  const FIRST := InsertEvent(1, 1, 0)
  const SECOND := InsertEvent(2, 2, 10)

  lemma OneExpires()
    ensures FirstExpired(Run([FIRST, SECOND, ExpireEvent(20)]).entries, Entry(2, 2, 10, true))
  {
    RunSnoc([], FIRST);
    RunSnoc([FIRST], SECOND);
    RunSnoc([FIRST, SECOND], ExpireEvent(20));
    assert [] + [FIRST] == [FIRST] && [FIRST] + [SECOND] == [FIRST, SECOND];
    assert [FIRST, SECOND] + [ExpireEvent(20)] == [FIRST, SECOND, ExpireEvent(20)];
    var one := Run([FIRST]).entries;
    assert FirstInvalid(one) == 1;
  }

  /** A run after which a lookup does not find the mapping just inserted: an earlier entry has expired, the new
      mapping takes its place, and the old one for the address, further down, still answers. */
  lemma NewMappingNotFound()
    ensures var events := [FIRST, SECOND, ExpireEvent(20), InsertEvent(3, 2, 20)];
            Lookup(Run(events).entries, 2) == Some(Entry(2, 2, 10, true))
  {
    var before := [FIRST, SECOND, ExpireEvent(20)];
    RunSnoc(before, InsertEvent(3, 2, 20));
    assert before + [InsertEvent(3, 2, 20)] == [FIRST, SECOND, ExpireEvent(20), InsertEvent(3, 2, 20)];
    OneExpires();
    LaterEntryAnswers(Run(before).entries, Entry(2, 2, 10, true), 3, 20);
  }

  // ---- in place

  class ArpCache {
    var requests: seq<Request>
    const entries: array<Entry>
    var nextId: nat
    ghost var queued: seq<Packet>
    ghost var handed: seq<Packet>
    ghost var dropped: seq<Packet>
    ghost var inserted: set<(Ip, Mac)>

    ghost function View(): Cache
      reads this, entries
    {
      Cache(requests, entries[..], nextId, queued, handed, dropped, inserted)
    }

    constructor ()
      ensures View() == Init() && fresh(entries)
    {
      requests, nextId, queued, handed, dropped, inserted := [], 0, [], [], [], {};
      entries := new Entry[SR_ARPCACHE_SZ](_ => NO_ENTRY);
      new;
      assert entries[..] == seq(SR_ARPCACHE_SZ, _ => NO_ENTRY);
    }

    method FindRequest(ip: Ip) returns (k: nat)
      ensures k == Find(requests, ByIp(ip))
    {
      k := 0;
      assert requests[0..] == requests;
      while k < |requests| && requests[k].ip != ip
        invariant k <= |requests| && Find(requests, ByIp(ip)) == k + Find(requests[k..], ByIp(ip))
      {
        assert requests[k..][1..] == requests[k + 1..];
        k := k + 1;
      }
    }

    method FindPointer(id: nat) returns (k: nat)
      ensures k == Find(requests, ById(id))
    {
      k := 0;
      assert requests[0..] == requests;
      while k < |requests| && requests[k].id != id
        invariant k <= |requests| && Find(requests, ById(id)) == k + Find(requests[k..], ById(id))
      {
        assert requests[k..][1..] == requests[k + 1..];
        k := k + 1;
      }
    }

    method LookupIp(ip: Ip) returns (entry: Option<Entry>)
      ensures entry == Lookup(entries[..], ip)
    {
      entry := None;
      for i := 0 to entries.Length
        invariant entry == Lookup(entries[..i], ip)
      {
        assert entries[..i + 1][..i] == entries[..i];
        if entries[i].valid && entries[i].ip == ip {
          entry := Some(entries[i]);
        }
      }
      assert entries[..entries.Length] == entries[..];
    }

    method QueueRequest(ip: Ip, packet: Option<Packet>) returns (id: nat)
      requires packet.Some? ==> packet.value.ip == ip
      modifies this
      ensures View() == QueueReq(old(View()), ip, packet)
      ensures var k := Find(requests, ByIp(ip)); k < |requests| && requests[k].id == id
    {
      var k := EnsureRequest(ip);
      id := requests[k].id;
      if packet.Some? {
        PushKeepsPlace(requests, k, [packet.value] + requests[k].packets);
        requests := requests[k := requests[k].(packets := [packet.value] + requests[k].packets)];
        queued := queued + [packet.value];
      }
    }

    /** The request for an address, made if there is none. */
    method EnsureRequest(ip: Ip) returns (k: nat)
      modifies this`requests, this`nextId
      ensures View() == WithRequest(old(View()), ip)
      ensures k == Find(requests, ByIp(ip)) < |requests|
    {
      k := FindRequest(ip);
      if k == |requests| {
        requests := [Request(nextId, ip, [])] + requests;
        nextId := nextId + 1;
        k := 0;
      }
    }

    method InsertMapping(mac: Mac, ip: Ip, now: Time) returns (r: Option<Request>)
      modifies this, entries
      ensures View() == Insert(old(View()), mac, ip, now) && r == Answered(old(View()), ip)
    {
      r := TakeRequest(ip);
      StoreMapping(mac, ip, now);
      inserted := inserted + {(ip, mac)};
    }

    /** The first loop: find the request and unlink it. */
    method TakeRequest(ip: Ip) returns (r: Option<Request>)
      modifies this`requests, this`handed
      ensures r == Answered(old(View()), ip)
      ensures var k := Find(old(requests), ByIp(ip));
              if k < |old(requests)| then requests == Unlink(old(requests), k) &&
                   handed == old(handed) + old(requests)[k].packets
              else requests == old(requests) && handed == old(handed)
    {
      var k := FindRequest(ip);
      if k == |requests| {
        return None;
      }
      r := Some(requests[k]);
      handed := handed + requests[k].packets;
      requests := requests[..k] + requests[k + 1..];
    }

    /** The second loop: the first invalid entry takes the mapping, if there is one. */
    method StoreMapping(mac: Mac, ip: Ip, now: Time)
      modifies entries
      ensures entries[..] == StoreEntry(old(entries[..]), mac, ip, now)
    {
      var i := 0;
      assert entries[0..] == entries[..];
      while i < entries.Length && entries[i].valid
        invariant i <= entries.Length && FirstInvalid(entries[..]) == i + FirstInvalid(entries[i..])
      {
        assert entries[i..][1..] == entries[i + 1..];
        i := i + 1;
      }
      if i < entries.Length {
        entries[i] := Entry(mac, ip, now, true);
      }
    }

    method DestroyRequest(id: nat)
      modifies this
      ensures View() == Destroy(old(View()), id)
    {
      var k := FindPointer(id);
      if k < |requests| {
        dropped := dropped + requests[k].packets;
        requests := requests[..k] + requests[k + 1..];
      }
    }

    method ExpireEntries(now: Time)
      modifies entries
      ensures entries[..] == Expire(old(entries[..]), now)
    {
      ghost var was := entries[..];
      for i := 0 to entries.Length
        invariant forall j :: 0 <= j < i ==> entries[j] == Expire(was, now)[j]
        invariant forall j :: i <= j < entries.Length ==> entries[j] == was[j]
      {
        if entries[i].valid && now - entries[i].added > SR_ARPCACHE_TO {
          entries[i] := entries[i].(valid := false);
        }
      }
    }
  }

  lemma PushKeepsPlace(requests: seq<Request>, k: nat, packets: seq<Packet>)
    requires k < |requests| && k == Find(requests, ByIp(requests[k].ip))
    ensures Find(requests[k := requests[k].(packets := packets)], ByIp(requests[k].ip)) == k
  {
    var updated := requests[k := requests[k].(packets := packets)];
    var j := Find(updated, ByIp(requests[k].ip));
    assert updated[k].ip == requests[k].ip;
    assert forall i :: 0 <= i < k ==> updated[i].ip != requests[k].ip;
  }
}
