/** Project-4/pox/pox/lib/epoll_select.py: `select` on top of an epoll object, updated by differences. */
module EpollSelect {
  datatype Fd = Fd(number: int)
  type Mask = bv16

  const EPOLLIN: Mask := 1
  const EPOLLPRI: Mask := 2
  const EPOLLOUT: Mask := 4
  const EPOLLERR: Mask := 8
  const EPOLLHUP: Mask := 16
  const EPOLLRDNORM: Mask := 64
  const EPOLLRDBAND: Mask := 128
  const EPOLLWRNORM: Mask := 256
  const EPOLLWRBAND: Mask := 512

  const READ: Mask := EPOLLIN | EPOLLPRI
  const WRITE: Mask := EPOLLOUT

  /** What a caller puts in its lists: a descriptor itself, or an object that answers to `fileno`. */
  datatype Obj = Raw(fd: Fd) | Wrapped(fd: Fd, id: int)

  /** `kernel` is the interest list of the epoll object. */
  datatype State = State(
    fdToObj: map<Fd, Obj>, registered: map<Fd, Mask>, kernel: map<Fd, Mask>,
    lastrl: seq<Obj>, lastrlSet: set<Fd>, lastwl: seq<Obj>, lastwlSet: set<Fd>)

  const INIT := State(map[], map[], map[], [], {}, [], {})

  function Fds(l: seq<Obj>): set<Fd> { set o | o in l :: o.fd }

  /** `fd_to_obj` after the loop over a list: the last object with a descriptor stays. */
  function Remember(m: map<Fd, Obj>, l: seq<Obj>): map<Fd, Obj> {
    if l == [] then m else Remember(m, l[..|l| - 1])[l[|l| - 1].fd := l[|l| - 1]]
  }

  /** The mask an entry of `modify` starts from. */
  function Base(changes: map<Fd, Mask>, registered: map<Fd, Mask>, fd: Fd): Mask {
    if fd in changes then changes[fd] else if fd in registered then registered[fd] else 0
  }

  /** The bits of an operation set in a mask, or cleared. */
  function SetBits(mask: Mask, op: Mask, on: bool): Mask { if on then mask | op else mask & !op }

  /** An operation added to the masks of some descriptors, or taken out of them. */
  function Updated(changes: map<Fd, Mask>, registered: map<Fd, Mask>, fds: set<Fd>, op: Mask, on: bool): map<Fd, Mask> {
    map fd | fd in changes.Keys + fds ::
      if fd in fds then SetBits(Base(changes, registered, fd), op, on) else changes[fd]
  }

  /** `modify` after `modify_table`: new descriptors gain the operation, expired ones lose it. */
  function Changes(changes: map<Fd, Mask>, registered: map<Fd, Mask>,
                     was: set<Fd>, now: set<Fd>, op: Mask): map<Fd, Mask> {
    Updated(Updated(changes, registered, now - was, op, true), registered, was - now, op, false)
  }

  function Scheduled(s: State, rl: seq<Obj>, wl: seq<Obj>): map<Fd, Mask> {
    var changes := if rl != s.lastrl then Changes(map[], s.registered, s.lastrlSet, Fds(rl), READ) else map[];
    if wl != s.lastwl then Changes(changes, s.registered, s.lastwlSet, Fds(wl), WRITE) else changes
  }

  /** A table after the scheduled modifications: a mask of 0 takes the descriptor out. */
  function Applied(table: map<Fd, Mask>, changes: map<Fd, Mask>): map<Fd, Mask> {
    map fd | fd in table.Keys + changes.Keys && (fd in changes ==> changes[fd] != 0) ::
      if fd in changes then changes[fd] else table[fd]
  }

  function AfterSelect(s: State, rl: seq<Obj>, wl: seq<Obj>): State {
    var changes := Scheduled(s, rl, wl);
    var objs := if rl != s.lastrl then Remember(s.fdToObj, rl) else s.fdToObj;
    State(if wl != s.lastwl then Remember(objs, wl) else objs,
          Applied(s.registered, changes), Applied(s.kernel, changes), rl,
          if rl != s.lastrl then Fds(rl) else s.lastrlSet, wl,
          if wl != s.lastwl then Fds(wl) else s.lastwlSet)
  }

  // ---- the simple view

  /** What plain `select` would watch a descriptor for. */
  function MaskFor(reading: bool, writing: bool): Mask {
    (if reading then READ else 0) | (if writing then WRITE else 0)
  }

  /** The table an implementation without memory would build from the two lists. */
  function Wanted(rl: seq<Obj>, wl: seq<Obj>): map<Fd, Mask> {
    map fd | fd in Fds(rl) + Fds(wl) :: MaskFor(fd in Fds(rl), fd in Fds(wl))
  }

  predicate Inv(s: State) {
    && s.lastrlSet == Fds(s.lastrl) && s.lastwlSet == Fds(s.lastwl)
    && s.registered == Wanted(s.lastrl, s.lastwl)
    && s.kernel == s.registered
    && (forall fd :: fd in s.registered ==> fd in s.fdToObj)
    && (forall fd :: fd in s.fdToObj ==> s.fdToObj[fd].fd == fd)
  }

  /** One descriptor through both tables: what it was watched for, and what is scheduled. */
  lemma MaskAfter(r: bool, w: bool, r': bool, w': bool)
    ensures var afterRead := if r' && !r then MaskFor(r, w) | READ else if r && !r' then MaskFor(r, w) & !READ
                             else MaskFor(r, w);
            && afterRead == MaskFor(r', w)
            && (if w' && !w then afterRead | WRITE
               else if w && !w' then afterRead & !WRITE else afterRead) == MaskFor(r', w')
    ensures MaskFor(r, w) == 0 <==> !r && !w
  {
  }

  function Watched(s: State, fd: Fd): Mask { MaskFor(fd in s.lastrlSet, fd in s.lastwlSet) }

  /** What is scheduled for a descriptor is exactly what the new lists want of it; and it is scheduled
      whenever that differs from what it is registered for. */
  lemma ScheduledIsWanted(s: State, rl: seq<Obj>, wl: seq<Obj>, fd: Fd)
    requires Inv(s)
    ensures var m, want := Scheduled(s, rl, wl), MaskFor(fd in Fds(rl), fd in Fds(wl));
            && (fd in m ==> m[fd] == want && (fd in s.registered || want != 0))
            && (fd !in m ==> want == Watched(s, fd))
  {
    MaskAfter(fd in s.lastrlSet, fd in s.lastwlSet, fd in Fds(rl), fd in Fds(wl));
  }

  /** The branch that "should never happen" does not. */
  lemma NeverNeither(s: State, rl: seq<Obj>, wl: seq<Obj>, fd: Fd)
    requires Inv(s) && fd in Scheduled(s, rl, wl) && Scheduled(s, rl, wl)[fd] == 0
    ensures fd in s.registered
  {
    ScheduledIsWanted(s, rl, wl, fd);
  }

  lemma AppliedIsWanted(s: State, rl: seq<Obj>, wl: seq<Obj>)
    requires Inv(s)
    ensures Applied(s.registered, Scheduled(s, rl, wl)) == Wanted(rl, wl)
  {
    var m, after, want := Scheduled(s, rl, wl), Applied(s.registered, Scheduled(s, rl, wl)), Wanted(rl, wl);
    forall fd ensures (fd in after <==> fd in want) && (fd in after ==> after[fd] == want[fd]) {
      ScheduledIsWanted(s, rl, wl, fd);
      MaskAfter(fd in s.lastrlSet, fd in s.lastwlSet, fd in Fds(rl), fd in Fds(wl));
      MaskAfter(fd in Fds(rl), fd in Fds(wl), false, false);
    }
  }

  lemma {:induction false} RememberKeys(m: map<Fd, Obj>, l: seq<Obj>, fd: Fd)
    requires forall k :: k in m ==> m[k].fd == k
    ensures fd in Remember(m, l) <==> fd in m || fd in Fds(l)
    ensures fd in Remember(m, l) ==> Remember(m, l)[fd].fd == fd
    decreases |l|
  {
    if l != [] {
      var front, last := l[..|l| - 1], l[|l| - 1];
      assert l == front + [last];
      RememberKeys(m, front, fd);
    }
  }

  lemma RememberAll(m: map<Fd, Obj>, l: seq<Obj>)
    requires forall k :: k in m ==> m[k].fd == k
    ensures var m' := Remember(m, l);
            && m'.Keys == m.Keys + Fds(l)
            && forall k :: k in m' ==> m'[k].fd == k
  {
    forall fd ensures fd in Remember(m, l) <==> fd in m || fd in Fds(l) {
      RememberKeys(m, l, fd);
    }
    forall fd | fd in Remember(m, l) ensures Remember(m, l)[fd].fd == fd {
      RememberKeys(m, l, fd);
    }
  }

  /** Every descriptor of the two lists has an object, whether the list has changed or not. */
  lemma ObjectsKnown(s: State, rl: seq<Obj>, wl: seq<Obj>)
    requires Inv(s)
    ensures var m := AfterSelect(s, rl, wl).fdToObj;
            && (forall fd :: fd in Fds(rl) + Fds(wl) ==> fd in m)
            && (forall fd :: fd in m ==> m[fd].fd == fd)
  {
    var objs := if rl != s.lastrl then Remember(s.fdToObj, rl) else s.fdToObj;
    RememberAll(s.fdToObj, rl);
    RememberAll(objs, wl);
    forall fd | fd in Fds(rl) + Fds(wl) ensures fd in AfterSelect(s, rl, wl).fdToObj {
      if fd in Fds(s.lastrl) + Fds(s.lastwl) {
        assert fd in s.registered;
      }
    }
  }

  /** After every call, the registered descriptors and their masks, and the interest list of the epoll object,
      are exactly what the two current lists ask for. */
  lemma SelectKeepsInv(s: State, rl: seq<Obj>, wl: seq<Obj>)
    requires Inv(s)
    ensures Inv(AfterSelect(s, rl, wl)) && AfterSelect(s, rl, wl).registered == Wanted(rl, wl)
  {
    AppliedIsWanted(s, rl, wl);
    ObjectsKnown(s, rl, wl);
  }

  function Run(calls: seq<(seq<Obj>, seq<Obj>)>): State {
    if calls == [] then INIT
    else
      var last := calls[|calls| - 1];
      AfterSelect(Run(calls[..|calls| - 1]), last.0, last.1)
  }

  /** Over any sequence of calls the incremental table is the simple one. */
  lemma {:induction false} RunIsSimple(calls: seq<(seq<Obj>, seq<Obj>)>)
    requires calls != []
    ensures var s, last := Run(calls), calls[|calls| - 1];
            Inv(s) && s.registered == Wanted(last.0, last.1) && s.kernel == s.registered
    decreases |calls|
  {
    var front, last := calls[..|calls| - 1], calls[|calls| - 1];
    if front != [] {
      RunIsSimple(front);
    }
    SelectKeepsInv(Run(front), last.0, last.1);
  }

  // ---- the result

  datatype Ready = Ready(fd: Fd, mask: Mask)

  /** What an epoll object may report: descriptors of its interest list, with events asked for or errors. */
  predicate PollResult(kernel: map<Fd, Mask>, events: seq<Ready>) {
    forall e :: e in events ==> e.fd in kernel && e.mask & !(kernel[e.fd] | EPOLLERR | EPOLLHUP) == 0
  }

  const READABLE: Mask := EPOLLIN | EPOLLPRI | EPOLLRDNORM | EPOLLRDBAND
  const WRITABLE: Mask := EPOLLOUT | EPOLLWRNORM | EPOLLWRBAND
  const BROKEN: Mask := EPOLLERR | EPOLLHUP

  /** The objects of the events that have one of the given bits. */
  function Chosen(objs: map<Fd, Obj>, events: seq<Ready>, bits: Mask): seq<Obj>
    requires forall e :: e in events ==> e.fd in objs
  {
    if events == [] then []
    else
      var e := events[|events| - 1];
      Chosen(objs, events[..|events| - 1], bits) + (if e.mask & bits != 0 then [objs[e.fd]] else [])
  }

  lemma {:induction false} ChosenFrom(objs: map<Fd, Obj>, events: seq<Ready>, bits: Mask, o: Obj)
    requires forall e :: e in events ==> e.fd in objs
    ensures o in Chosen(objs, events, bits) <==> exists e :: e in events && e.mask & bits != 0 && objs[e.fd] == o
    decreases |events|
  {
    if events != [] {
      var front, last := events[..|events| - 1], events[|events| - 1];
      assert events == front + [last];
      ChosenFrom(objs, front, bits, o);
    }
  }

  /** What comes back as readable has a descriptor of the caller's read list, and likewise for writing. */
  lemma ReturnedWereAskedFor(s: State, rl: seq<Obj>, wl: seq<Obj>, events: seq<Ready>, o: Obj)
    requires Inv(s) && PollResult(AfterSelect(s, rl, wl).kernel, events)
    ensures var m := AfterSelect(s, rl, wl).fdToObj;
            && (forall e :: e in events ==> e.fd in m)
            && (o in Chosen(m, events, READABLE) ==> o.fd in Fds(rl))
            && (o in Chosen(m, events, WRITABLE) ==> o.fd in Fds(wl))
  {
    SelectKeepsInv(s, rl, wl);
    var s' := AfterSelect(s, rl, wl);
    ChosenFrom(s'.fdToObj, events, READABLE, o);
    ChosenFrom(s'.fdToObj, events, WRITABLE, o);
    forall e | e in events
      ensures e.mask & READABLE != 0 ==> e.fd in Fds(rl)
      ensures e.mask & WRITABLE != 0 ==> e.fd in Fds(wl)
    {
    }
  }

  /** Of several objects with one descriptor the last in the list is remembered. */
  lemma {:induction false} LastIsRemembered(m: map<Fd, Obj>, l: seq<Obj>, k: nat)
    requires k < |l| && forall j :: k < j < |l| ==> l[j].fd != l[k].fd
    ensures l[k].fd in Remember(m, l) && Remember(m, l)[l[k].fd] == l[k]
    decreases |l|
  {
    if k < |l| - 1 {
      LastIsRemembered(m, l[..|l| - 1], k);
    }
  }

  /** EPOLLIN, EPOLLPRI, EPOLLRDNORM or EPOLLRDBAND. */
  predicate CanRead(mask: Mask) { mask & 1 != 0 || mask & 2 != 0 || mask & 64 != 0 || mask & 128 != 0 }

  /** EPOLLOUT, EPOLLWRNORM or EPOLLWRBAND. */
  predicate CanWrite(mask: Mask) { mask & 4 != 0 || mask & 256 != 0 || mask & 512 != 0 }

  /** EPOLLERR or EPOLLHUP. */
  predicate Failed(mask: Mask) { mask & 8 != 0 || mask & 16 != 0 }

  lemma BitsSplit(mask: Mask)
    ensures CanRead(mask) <==> mask & READABLE != 0
    ensures CanWrite(mask) <==> mask & WRITABLE != 0
    ensures Failed(mask) <==> mask & BROKEN != 0
  {
  }

  /** The objects returned in each list are exactly those of the events that say so. */
  lemma ReadyIsReturned(objs: map<Fd, Obj>, events: seq<Ready>, o: Obj)
    requires forall e :: e in events ==> e.fd in objs
    ensures o in Chosen(objs, events, READABLE) <==> exists e :: e in events && objs[e.fd] == o && CanRead(e.mask)
    ensures o in Chosen(objs, events, WRITABLE) <==> exists e :: e in events && objs[e.fd] == o && CanWrite(e.mask)
    ensures o in Chosen(objs, events, BROKEN) <==> exists e :: e in events && objs[e.fd] == o && Failed(e.mask)
  {
    ChosenFrom(objs, events, READABLE, o);
    ChosenFrom(objs, events, WRITABLE, o);
    ChosenFrom(objs, events, BROKEN, o);
    forall e | e in events
      ensures CanRead(e.mask) <==> e.mask & READABLE != 0
      ensures CanWrite(e.mask) <==> e.mask & WRITABLE != 0
      ensures Failed(e.mask) <==> e.mask & BROKEN != 0
    {
      BitsSplit(e.mask);
    }
  }

  /** After a call the epoll object watches exactly the descriptors of the two lists: those to read for EPOLLIN and
      EPOLLPRI, those to write for EPOLLOUT. */
  lemma KernelWatches(s: State, rl: seq<Obj>, wl: seq<Obj>, fd: Fd)
    requires Inv(s)
    ensures var k := AfterSelect(s, rl, wl).kernel;
            var asRead := exists o :: o in rl && o.fd == fd;
            var asWrite := exists o :: o in wl && o.fd == fd;
            && (fd in k <==> asRead || asWrite)
            && (fd in k ==> k[fd] == if asRead then (if asWrite then 7 else 3) else 4)
  {
    SelectKeepsInv(s, rl, wl);
    assert fd in Fds(rl) <==> exists o :: o in rl && o.fd == fd;
    assert fd in Fds(wl) <==> exists o :: o in wl && o.fd == fd;
  }

  /** The caller uses one object for each descriptor. */
  predicate OneObjectEach(objs: map<Fd, Obj>, l: seq<Obj>) {
    forall o :: o in l ==> o.fd in objs && objs[o.fd] == o
  }

  predicate Within(m: map<Fd, Obj>, objs: map<Fd, Obj>) {
    forall fd :: fd in m ==> fd in objs && objs[fd] == m[fd]
  }

  lemma {:induction false} RememberWithin(m: map<Fd, Obj>, l: seq<Obj>, objs: map<Fd, Obj>)
    requires Within(m, objs) && OneObjectEach(objs, l)
    ensures Within(Remember(m, l), objs)
    decreases |l|
  {
    if l != [] {
      RememberWithin(m, l[..|l| - 1], objs);
      assert l[|l| - 1] in l;
    }
  }

  /** Then what comes back are the very objects of the lists given. */
  lemma ReturnedAreTheCallers(s: State, rl: seq<Obj>, wl: seq<Obj>, events: seq<Ready>, o: Obj, objs: map<Fd, Obj>)
    requires Inv(s) && PollResult(AfterSelect(s, rl, wl).kernel, events)
    requires Within(s.fdToObj, objs) && OneObjectEach(objs, rl) && OneObjectEach(objs, wl)
    ensures var m := AfterSelect(s, rl, wl).fdToObj;
            && Within(m, objs)
            && (forall e :: e in events ==> e.fd in m)
            && (o in Chosen(m, events, READABLE) ==> o in rl)
            && (o in Chosen(m, events, WRITABLE) ==> o in wl)
  {
    var m := AfterSelect(s, rl, wl).fdToObj;
    ObjectsWithin(s, rl, wl, objs);
    ReturnedWereAskedFor(s, rl, wl, events, o);
    ObjectsKnown(s, rl, wl);
    ChosenInList(m, events, READABLE, o, rl, objs);
    ChosenInList(m, events, WRITABLE, o, wl, objs);
  }

  lemma ObjectsWithin(s: State, rl: seq<Obj>, wl: seq<Obj>, objs: map<Fd, Obj>)
    requires Within(s.fdToObj, objs) && OneObjectEach(objs, rl) && OneObjectEach(objs, wl)
    ensures Within(AfterSelect(s, rl, wl).fdToObj, objs)
  {
    RememberWithin(s.fdToObj, rl, objs);
    RememberWithin(if rl != s.lastrl then Remember(s.fdToObj, rl) else s.fdToObj, wl, objs);
  }

  lemma ChosenInList(m: map<Fd, Obj>, events: seq<Ready>, bits: Mask, o: Obj, l: seq<Obj>, objs: map<Fd, Obj>)
    requires forall e :: e in events ==> e.fd in m
    requires forall fd :: fd in m ==> m[fd].fd == fd
    requires Within(m, objs) && OneObjectEach(objs, l)
    requires o in Chosen(m, events, bits) ==> o.fd in Fds(l)
    ensures o in Chosen(m, events, bits) ==> o in l
  {
    if o in Chosen(m, events, bits) {
      ChosenFrom(m, events, bits, o);
      var x :| x in l && x.fd == o.fd;
    }
  }

  // ---- select itself

  datatype Lists = Lists(rl: seq<Obj>, wl: seq<Obj>, xl: seq<Obj>)

  class EpollSelect {
    var fdToObj: map<Fd, Obj>
    var registered: map<Fd, Mask>
    var kernel: map<Fd, Mask>
    var lastrl: seq<Obj>
    var lastrlSet: set<Fd>
    var lastwl: seq<Obj>
    var lastwlSet: set<Fd>

    ghost function View(): State
      reads this
    {
      State(fdToObj, registered, kernel, lastrl, lastrlSet, lastwl, lastwlSet)
    }

    constructor ()
      ensures View() == INIT
    {
      fdToObj, registered, kernel, lastrl, lastrlSet, lastwl, lastwlSet := map[], map[], map[], [], {}, [], {};
    }

    /** The first loop of `modify_table`. */
    method NoteObjects(l: seq<Obj>) returns (fds: set<Fd>)
      modifies this`fdToObj
      ensures fds == Fds(l) && fdToObj == Remember(old(fdToObj), l)
    {
      fds := {};
      for k := 0 to |l|
        invariant fds == Fds(l[..k]) && fdToObj == Remember(old(fdToObj), l[..k])
      {
        assert l[..k + 1] == l[..k] + [l[k]];
        assert l[..k + 1][..k] == l[..k];
        fdToObj := fdToObj[l[k].fd := l[k]];
        fds := fds + {l[k].fd};
      }
      assert l[..|l|] == l;
    }

    method ChangeOne(changes: map<Fd, Mask>, fd: Fd, op: Mask, on: bool) returns (r: map<Fd, Mask>)
      ensures r == changes[fd := SetBits(Base(changes, registered, fd), op, on)]
    {
      r := changes;
      if fd !in r {
        r := r[fd := if fd in registered then registered[fd] else 0];
      }
      r := r[fd := SetBits(r[fd], op, on)];
    }

    /** The loop over the new descriptors, or the one over the expired. */
    method ChangeEach(changes: map<Fd, Mask>, fds: set<Fd>, op: Mask, on: bool) returns (r: map<Fd, Mask>)
      ensures r == Updated(changes, registered, fds, op, on)
    {
      r := changes;
      var todo := fds;
      ghost var done: set<Fd> := {};
      while todo != {}
        invariant todo + done == fds && todo !! done
        invariant r == Updated(changes, registered, done, op, on)
      {
        var fd :| fd in todo;
        UpdatedNext(changes, registered, done, fd, op, on);
        r := ChangeOne(r, fd, op, on);
        todo, done := todo - {fd}, done + {fd};
      }
      assert done == fds;
    }

    method ModifyTable(l: seq<Obj>, was: set<Fd>, op: Mask, changes: map<Fd, Mask>)
      returns (now: set<Fd>, r: map<Fd, Mask>)
      modifies this`fdToObj
      ensures now == Fds(l) && fdToObj == Remember(old(fdToObj), l)
      ensures r == Changes(changes, registered, was, now, op)
    {
      now := NoteObjects(l);
      r := ChangeEach(changes, now - was, op, true);
      r := ChangeEach(r, was - now, op, false);
    }

    /** Both lists against the ones remembered. */
    method Schedule(rl: seq<Obj>, wl: seq<Obj>) returns (changes: map<Fd, Mask>)
      modifies this
      ensures changes == Scheduled(old(View()), rl, wl)
      ensures registered == old(registered) && kernel == old(kernel)
      ensures var s := AfterSelect(old(View()), rl, wl);
              && fdToObj == s.fdToObj && lastrl == rl && lastwl == wl
              && lastrlSet == s.lastrlSet && lastwlSet == s.lastwlSet
    {
      changes := map[];
      if rl != lastrl {
        lastrlSet, changes := ModifyTable(rl, lastrlSet, READ, changes);
        lastrl := rl;
      }
      if wl != lastwl {
        lastwlSet, changes := ModifyTable(wl, lastwlSet, WRITE, changes);
        lastwl := wl;
      }
    }

    /** The modifications, carried out on the epoll object and the table; the assertion cannot fail. */
    method Execute(changes: map<Fd, Mask>)
      requires kernel == registered
      requires forall fd :: fd in changes && changes[fd] == 0 ==> fd in registered
      modifies this`registered, this`kernel
      ensures registered == Applied(old(registered), changes) && kernel == Applied(old(kernel), changes)
    {
      var todo := changes.Keys;
      ghost var done: set<Fd> := {};
      ghost var was := registered;
      while todo != {}
        invariant todo + done == changes.Keys && todo !! done
        invariant kernel == registered == Applied(was, OnKeys(changes, done))
      {
        var fd :| fd in todo;
        ExecuteNext(was, changes, done, fd);
        if fd in registered {
          if changes[fd] == 0 {
            kernel := kernel - {fd};
            registered := registered - {fd};
          } else {
            kernel := kernel[fd := changes[fd]];
            registered := registered[fd := changes[fd]];
          }
        } else if changes[fd] == 0 {
          assert false;
        } else {
          kernel := kernel[fd := changes[fd]];
          registered := registered[fd := changes[fd]];
        }
        todo, done := todo - {fd}, done + {fd};
      }
      assert OnKeys(changes, done) == changes;
    }

    method Convert(events: seq<Ready>, bits: Mask) returns (r: seq<Obj>)
      requires forall e :: e in events ==> e.fd in fdToObj
      ensures r == Chosen(fdToObj, events, bits)
    {
      r := [];
      for k := 0 to |events|
        invariant r == Chosen(fdToObj, events[..k], bits)
      {
        assert events[..k + 1][..k] == events[..k];
        if events[k].mask & bits != 0 {
          r := r + [fdToObj[events[k].fd]];
        }
      }
      assert events[..|events|] == events;
    }

    /** `events` is what the epoll object answers once the modifications are made. */
    method Select(rl: seq<Obj>, wl: seq<Obj>, xl: seq<Obj>, events: seq<Ready>) returns (r: Lists)
      requires Inv(View()) && PollResult(AfterSelect(View(), rl, wl).kernel, events)
      modifies this
      ensures View() == AfterSelect(old(View()), rl, wl) && Inv(View())
      ensures forall e :: e in events ==> e.fd in fdToObj
      ensures r == Lists(Chosen(fdToObj, events, READABLE), Chosen(fdToObj, events, WRITABLE),
                         Chosen(fdToObj, events, BROKEN))
    {
      ghost var was := View();
      SelectKeepsInv(was, rl, wl);
      ObjectsKnown(was, rl, wl);
      var changes := Schedule(rl, wl);
      forall fd | fd in changes && changes[fd] == 0 ensures fd in registered {
        NeverNeither(was, rl, wl, fd);
      }
      Execute(changes);
      var readable := Convert(events, READABLE);
      var writable := Convert(events, WRITABLE);
      var broken := Convert(events, BROKEN);
      return Lists(readable, writable, broken);
    }
  }

  lemma UpdatedNext(changes: map<Fd, Mask>, registered: map<Fd, Mask>, done: set<Fd>, fd: Fd, op: Mask, on: bool)
    requires fd !in done
    ensures var t := Updated(changes, registered, done, op, on);
            && Base(t, registered, fd) == Base(changes, registered, fd)
            && Updated(changes, registered, done + {fd}, op, on)
               == t[fd := SetBits(Base(changes, registered, fd), op, on)]
  {
  }

  function OnKeys(m: map<Fd, Mask>, keys: set<Fd>): map<Fd, Mask> {
    map fd | fd in m && fd in keys :: m[fd]
  }

  lemma ExecuteNext(table: map<Fd, Mask>, changes: map<Fd, Mask>, done: set<Fd>, fd: Fd)
    requires fd in changes && fd !in done
    ensures var t := Applied(table, OnKeys(changes, done));
            && (fd in t <==> fd in table)
            && Applied(table, OnKeys(changes, done + {fd}))
               == if changes[fd] == 0 then t - {fd} else t[fd := changes[fd]]
  {
  }
}
