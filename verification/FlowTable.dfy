/**
 Project-4/pox/pox/openflow/flow_table.py: the sorted table, the flow modifications a switch applies to it,
 and which entry a packet hits.
 */
module FlowTable {
  import opened Wrappers
  import opened OfMatch
  import opened OfActions
  import opened OfFlowMod

  type Time = int

  const OFPFF_CHECK_OVERLAP: bv16 := 2
  const OFPP_NONE: bv16 := 65535
  const ADD: bv16 := 0
  const MODIFY: bv16 := 1
  const MODIFY_STRICT: bv16 := 2
  const DELETE: bv16 := 3
  const DELETE_STRICT: bv16 := 4

  /** `born` numbers the calls of `add_entry`: it stands for the identity and the age of the object. */
  datatype Entry = Entry(
    born: nat, fields: Match, priority: bv16, cookie: bv64, idleTimeout: bv16, hardTimeout: bv16,
    actions: seq<Action>, buffer: Buffer, created: Time, lastTouched: Time)

  datatype Table = Table(entries: seq<Entry>, added: nat)

  /** What `process_flow_mod` returns or raises. */
  datatype Outcome = Added | Modified(entries: seq<Entry>) | Removed(entries: seq<Entry>)
    | NotImplemented | UnknownCommand

  predicate IsWildcarded(m: Match) { m.wildcards & ALL != 0 }

  /** The key of the sort, highest first: exact matches come before every priority. */
  function Key(e: Entry): int { if IsWildcarded(e.fields) then e.priority as int else 65537 }

  /** The place of a new entry among sorted ones: after all that are at least as high. */
  function Insert(t: seq<Entry>, e: Entry): seq<Entry> {
    if t == [] then [e] else if Key(t[0]) >= Key(e) then [t[0]] + Insert(t[1..], e) else [e] + t
  }

  /** `list.sort(reverse=True)`, which is stable. */
  function Sort(t: seq<Entry>): seq<Entry> {
    if t == [] then [] else Insert(Sort(t[..|t| - 1]), t[|t| - 1])
  }

  /** What selects entries: `is_matched_by`, strictly or not, and `is_expired`. */
  datatype Test = Strict(fields: Match, priority: bv16) | Contained(fields: Match) | Expired(now: Time)

  predicate Passes(test: Test, e: Entry) {
    match test
    case Strict(fields, priority) => Same(e.fields, fields) && e.priority == priority
    case Contained(fields) => Matches(fields, e.fields, true)
    case Expired(now) =>
      || (e.hardTimeout as int > 0 && now - e.created > e.hardTimeout as int)
      || (e.idleTimeout as int > 0 && now - e.lastTouched > e.idleTimeout as int)
  }

  /** The entries that pass, in order; or those that do not. */
  function Select(t: seq<Entry>, test: Test, passing: bool): seq<Entry> {
    if t == [] then [] else (if Passes(test, t[0]) == passing then [t[0]] else []) + Select(t[1..], test, passing)
  }

  /** `list.remove`: the first occurrence. */
  function Remove(t: seq<Entry>, e: Entry): seq<Entry> {
    if t == [] then [] else if t[0] == e then t[1..] else [t[0]] + Remove(t[1..], e)
  }

  // ---- the sort is the stable sort

  predicate Descending(t: seq<Entry>) {
    forall i, j :: 0 <= i < j < |t| ==> Key(t[i]) >= Key(t[j])
  }

  function WithKey(t: seq<Entry>, k: int): seq<Entry> {
    if t == [] then [] else (if Key(t[0]) == k then [t[0]] else []) + WithKey(t[1..], k)
  }

  lemma {:induction false} InsertElements(t: seq<Entry>, e: Entry)
    ensures multiset(Insert(t, e)) == multiset(t) + multiset{e}
    decreases |t|
  {
    if t != [] {
      assert t == [t[0]] + t[1..];
      if Key(t[0]) >= Key(e) {
        InsertElements(t[1..], e);
      }
    }
  }

  lemma InsertMember(t: seq<Entry>, e: Entry, x: Entry)
    ensures x in Insert(t, e) <==> x in t || x == e
  {
    InsertElements(t, e);
    assert x in Insert(t, e) <==> x in multiset(Insert(t, e));
    assert x in t <==> x in multiset(t);
  }

  lemma {:induction false} InsertDescending(t: seq<Entry>, e: Entry)
    requires Descending(t)
    ensures Descending(Insert(t, e))
    decreases |t|
  {
    if t != [] && Key(t[0]) >= Key(e) {
      InsertDescending(t[1..], e);
      var r := Insert(t[1..], e);
      forall j | 0 <= j < |r| ensures Key(t[0]) >= Key(r[j]) {
        InsertMember(t[1..], e, r[j]);
      }
    }
  }

  lemma {:induction false} InsertStable(t: seq<Entry>, e: Entry, k: int)
    requires Descending(t)
    ensures WithKey(Insert(t, e), k) == WithKey(t + [e], k)
    decreases |t|
  {
    if t != [] {
      assert (t + [e])[1..] == t[1..] + [e];
      if Key(t[0]) >= Key(e) {
        InsertStable(t[1..], e, k);
      } else {
        LowerKeys(t, e, k);
      }
    }
  }

  /** An entry above all the others may stand before or after them: only its own key sees it. */
  lemma {:induction false} LowerKeys(t: seq<Entry>, e: Entry, k: int)
    requires forall i :: 0 <= i < |t| ==> Key(t[i]) < Key(e)
    ensures WithKey([e] + t, k) == WithKey(t + [e], k)
    decreases |t|
  {
    assert ([e] + t)[1..] == t;
    if t != [] {
      assert (t + [e])[1..] == t[1..] + [e] && ([e] + t[1..])[1..] == t[1..];
      LowerKeys(t[1..], e, k);
      if k == Key(e) {
        NoSuchKey(t, k);
      }
    }
  }

  lemma {:induction false} NoSuchKey(t: seq<Entry>, k: int)
    requires forall i :: 0 <= i < |t| ==> Key(t[i]) != k
    ensures WithKey(t, k) == []
    decreases |t|
  {
    if t != [] {
      NoSuchKey(t[1..], k);
    }
  }

  lemma WithKeyAppend(t: seq<Entry>, u: seq<Entry>, e: Entry, k: int)
    requires WithKey(t, k) == WithKey(u, k)
    ensures WithKey(t + [e], k) == WithKey(u + [e], k)
  {
    WithKeySnoc(t, e, k);
    WithKeySnoc(u, e, k);
  }

  lemma {:induction false} WithKeySnoc(t: seq<Entry>, e: Entry, k: int)
    ensures WithKey(t + [e], k) == WithKey(t, k) + (if Key(e) == k then [e] else [])
    decreases |t|
  {
    if t != [] {
      assert (t + [e])[1..] == t[1..] + [e];
      WithKeySnoc(t[1..], e, k);
    }
  }

  /** Sorting orders the entries, keeps them all, and keeps the order of those with equal keys. */
  lemma {:induction false} SortIsStable(t: seq<Entry>, k: int)
    ensures Descending(Sort(t)) && multiset(Sort(t)) == multiset(t) && WithKey(Sort(t), k) == WithKey(t, k)
    decreases |t|
  {
    if t != [] {
      var front, e := t[..|t| - 1], t[|t| - 1];
      assert t == front + [e];
      SortIsStable(front, k);
      InsertElements(Sort(front), e);
      InsertDescending(Sort(front), e);
      InsertStable(Sort(front), e, k);
      WithKeyAppend(Sort(front), front, e, k);
    }
  }

  lemma {:induction false} InsertLast(t: seq<Entry>, e: Entry)
    requires forall i :: 0 <= i < |t| ==> Key(t[i]) >= Key(e)
    ensures Insert(t, e) == t + [e]
    decreases |t|
  {
    if t != [] {
      InsertLast(t[1..], e);
      assert t + [e] == [t[0]] + (t[1..] + [e]);
    }
  }

  lemma {:induction false} SortSorted(t: seq<Entry>)
    requires Descending(t)
    ensures Sort(t) == t
    decreases |t|
  {
    if t != [] {
      var front, e := t[..|t| - 1], t[|t| - 1];
      SortSorted(front);
      InsertLast(front, e);
    }
  }

  // ---- process_flow_mod

  function FromFlowMod(fm: FlowMod, born: nat, now: Time): Entry {
    Entry(born, fm.fields, fm.priority, fm.cookie, fm.idleTimeout, fm.hardTimeout, fm.actions, fm.buffer, now, now)
  }

  function AddEntry(s: Table, e: Entry): Table { Table(Sort(s.entries + [e]), s.added + 1) }

  /** The entries that pass get new actions, in place. */
  function SetActions(t: seq<Entry>, test: Test, actions: seq<Action>): seq<Entry> {
    if t == [] then []
    else [if Passes(test, t[0]) then t[0].(actions := actions) else t[0]] + SetActions(t[1..], test, actions)
  }

  predicate Supported(fm: FlowMod) { fm.flags & OFPFF_CHECK_OVERLAP == 0 && fm.outPort == OFPP_NONE }

  /** The table after the command; DELETE is applied as strictly as DELETE_STRICT. */
  function Process(s: Table, fm: FlowMod, now: Time): Table {
    var e, strict := FromFlowMod(fm, s.added, now), Strict(fm.fields, fm.priority);
    if !Supported(fm) then s
    else if fm.command == ADD then AddEntry(s.(entries := Select(s.entries, strict, false)), e)
    else if fm.command == MODIFY || fm.command == MODIFY_STRICT then
      var test := if fm.command == MODIFY_STRICT then strict else Contained(fm.fields);
      if Select(s.entries, test, true) == [] then AddEntry(s, e)
      else s.(entries := SetActions(s.entries, test, fm.actions))
    else if fm.command == DELETE || fm.command == DELETE_STRICT then s.(entries := Select(s.entries, strict, false))
    else s
  }

  function Answer(s: Table, fm: FlowMod): Outcome {
    var strict := Strict(fm.fields, fm.priority);
    if !Supported(fm) then NotImplemented
    else if fm.command == ADD then Added
    else if fm.command == MODIFY || fm.command == MODIFY_STRICT then
      var test := if fm.command == MODIFY_STRICT then strict else Contained(fm.fields);
      if Select(s.entries, test, true) == [] then Added
      else Modified(Select(SetActions(s.entries, test, fm.actions), test, true))
    else if fm.command == DELETE || fm.command == DELETE_STRICT then Removed(Select(s.entries, strict, true))
    else UnknownCommand
  }

  // ---- the invariant

  /** `a` stands before `b`: higher, or as high and older; and the two differ in match or priority. */
  predicate Above(a: Entry, b: Entry) {
    && (Key(a) > Key(b) || (Key(a) == Key(b) && a.born < b.born))
    && !(Same(a.fields, b.fields) && a.priority == b.priority)
  }

  predicate AboveAll(a: Entry, t: seq<Entry>) { forall x :: x in t ==> Above(a, x) }

  predicate Ordered(t: seq<Entry>) {
    t != [] ==> AboveAll(t[0], t[1..]) && Ordered(t[1..])
  }

  predicate Inv(s: Table) {
    Ordered(s.entries) && forall e :: e in s.entries ==> e.born < s.added
  }

  lemma {:induction false} OrderedAt(t: seq<Entry>, i: nat, j: nat)
    requires Ordered(t) && i < j < |t|
    ensures Above(t[i], t[j])
    decreases |t|
  {
    if i > 0 {
      OrderedAt(t[1..], i - 1, j - 1);
    }
  }

  lemma OrderedDescends(t: seq<Entry>)
    requires Ordered(t)
    ensures Descending(t)
  {
    forall i, j | 0 <= i < j < |t| ensures Key(t[i]) >= Key(t[j]) {
      OrderedAt(t, i, j);
    }
  }

  lemma {:induction false} SelectMember(t: seq<Entry>, test: Test, passing: bool, e: Entry)
    ensures e in Select(t, test, passing) <==> e in t && Passes(test, e) == passing
    decreases |t|
  {
    if t != [] {
      SelectMember(t[1..], test, passing, e);
    }
  }

  lemma {:induction false} SelectOrdered(t: seq<Entry>, test: Test, passing: bool)
    requires Ordered(t)
    ensures Ordered(Select(t, test, passing))
    decreases |t|
  {
    if t != [] {
      SelectOrdered(t[1..], test, passing);
      var r := Select(t[1..], test, passing);
      forall x | x in r ensures Above(t[0], x) {
        SelectMember(t[1..], test, passing, x);
      }
      assert ([t[0]] + r)[1..] == r;
      assert [] + r == r;
    }
  }

  /** What keeps the order when a new entry goes in: it is younger, and none has its match and priority. */
  predicate Newcomer(t: seq<Entry>, e: Entry) {
    forall x :: x in t ==> x.born < e.born && !(Same(x.fields, e.fields) && x.priority == e.priority)
  }

  lemma {:induction false} InsertOrdered(t: seq<Entry>, e: Entry)
    requires Ordered(t) && Newcomer(t, e)
    ensures Ordered(Insert(t, e))
    decreases |t|
  {
    if t != [] {
      if Key(t[0]) >= Key(e) {
        InsertOrdered(t[1..], e);
        var r := Insert(t[1..], e);
        forall x | x in r ensures Above(t[0], x) {
          InsertMember(t[1..], e, x);
        }
        assert ([t[0]] + r)[1..] == r;
      } else {
        HigherThanAll(t, e);
        assert ([e] + t)[1..] == t;
      }
    }
  }

  lemma HigherThanAll(t: seq<Entry>, e: Entry)
    requires Ordered(t) && Newcomer(t, e) && t != [] && Key(t[0]) < Key(e)
    ensures AboveAll(e, t)
  {
    forall x | x in t ensures Above(e, x) {
      var i :| 0 <= i < |t| && t[i] == x;
      if i > 0 {
        OrderedAt(t, 0, i);
      }
    }
  }

  lemma SortIsInsert(t: seq<Entry>, e: Entry)
    requires Descending(t)
    ensures Sort(t + [e]) == Insert(t, e)
  {
    var u := t + [e];
    assert u[..|u| - 1] == t;
    SortSorted(t);
  }

  lemma AddKeepsInv(s: Table, e: Entry)
    requires Inv(s) && e.born == s.added && Newcomer(s.entries, e)
    ensures Inv(AddEntry(s, e)) && AddEntry(s, e).entries == Insert(s.entries, e)
  {
    OrderedDescends(s.entries);
    SortIsInsert(s.entries, e);
    InsertOrdered(s.entries, e);
    forall x | x in Insert(s.entries, e) ensures x.born < s.added + 1 {
      InsertMember(s.entries, e, x);
    }
  }

  lemma {:induction false} SetActionsMember(t: seq<Entry>, test: Test, actions: seq<Action>, x: Entry)
    requires x in SetActions(t, test, actions)
    ensures exists y :: y in t && x == (if Passes(test, y) then y.(actions := actions) else y)
    decreases |t|
  {
    var r := SetActions(t[1..], test, actions);
    if x in r {
      SetActionsMember(t[1..], test, actions, x);
      var y :| y in t[1..] && x == (if Passes(test, y) then y.(actions := actions) else y);
      assert y in t;
    } else {
      assert t[0] in t;
    }
  }

  lemma {:induction false} SetActionsOrdered(t: seq<Entry>, test: Test, actions: seq<Action>)
    requires Ordered(t)
    ensures Ordered(SetActions(t, test, actions))
    decreases |t|
  {
    if t != [] {
      var r := SetActions(t[1..], test, actions);
      var head := if Passes(test, t[0]) then t[0].(actions := actions) else t[0];
      SetActionsOrdered(t[1..], test, actions);
      forall x | x in r ensures Above(head, x) {
        SetActionsMember(t[1..], test, actions, x);
      }
      assert ([head] + r)[1..] == r;
    }
  }

  lemma StrictGone(t: seq<Entry>, fm: FlowMod, e: Entry)
    requires Same(e.fields, fm.fields) && e.priority == fm.priority && forall x :: x in t ==> x.born < e.born
    ensures Newcomer(Select(t, Strict(fm.fields, fm.priority), false), e)
  {
    var strict := Strict(fm.fields, fm.priority);
    forall x | x in Select(t, strict, false)
      ensures x.born < e.born && !(Same(x.fields, e.fields) && x.priority == e.priority) {
      SelectMember(t, strict, false, x);
    }
  }

  /** Equal matches contain each other, so when nothing is contained nothing equal is in the table. */
  lemma NothingPasses(t: seq<Entry>, test: Test, e: Entry)
    requires test == Strict(e.fields, e.priority) || test == Contained(e.fields)
    requires Select(t, test, true) == [] && forall x :: x in t ==> x.born < e.born
    ensures Newcomer(t, e)
  {
    forall x | x in t ensures !(Same(x.fields, e.fields) && x.priority == e.priority) {
      SelectMember(t, test, true, x);
    }
  }

  lemma SelectKeepsInv(s: Table, test: Test, passing: bool)
    requires Inv(s)
    ensures Inv(s.(entries := Select(s.entries, test, passing)))
  {
    SelectOrdered(s.entries, test, passing);
    forall e | e in Select(s.entries, test, passing) ensures e.born < s.added {
      SelectMember(s.entries, test, passing, e);
    }
  }

  lemma SetActionsKeepsInv(s: Table, test: Test, actions: seq<Action>)
    requires Inv(s)
    ensures Inv(s.(entries := SetActions(s.entries, test, actions)))
  {
    SetActionsOrdered(s.entries, test, actions);
    forall e | e in SetActions(s.entries, test, actions) ensures e.born < s.added {
      SetActionsMember(s.entries, test, actions, e);
    }
  }

  lemma AddCommandKeepsInv(s: Table, fm: FlowMod, now: Time)
    requires Inv(s)
    ensures Inv(AddEntry(s.(entries := Select(s.entries, Strict(fm.fields, fm.priority), false)),
                FromFlowMod(fm, s.added, now)))
  {
    var strict, e := Strict(fm.fields, fm.priority), FromFlowMod(fm, s.added, now);
    SelectKeepsInv(s, strict, false);
    StrictGone(s.entries, fm, e);
    AddKeepsInv(s.(entries := Select(s.entries, strict, false)), e);
  }

  lemma ModifyAsAddKeepsInv(s: Table, fm: FlowMod, now: Time, test: Test)
    requires Inv(s) && (test == Strict(fm.fields, fm.priority) || test == Contained(fm.fields))
    requires Select(s.entries, test, true) == []
    ensures Inv(AddEntry(s, FromFlowMod(fm, s.added, now)))
  {
    var e := FromFlowMod(fm, s.added, now);
    NothingPasses(s.entries, test, e);
    AddKeepsInv(s, e);
  }

  lemma ProcessKeepsInv(s: Table, fm: FlowMod, now: Time)
    requires Inv(s)
    ensures Inv(Process(s, fm, now))
  {
    var strict := Strict(fm.fields, fm.priority);
    if Supported(fm) {
      if fm.command == ADD {
        AddCommandKeepsInv(s, fm, now);
      } else if fm.command == MODIFY || fm.command == MODIFY_STRICT {
        var test := if fm.command == MODIFY_STRICT then strict else Contained(fm.fields);
        if Select(s.entries, test, true) == [] {
          ModifyAsAddKeepsInv(s, fm, now, test);
        } else {
          SetActionsKeepsInv(s, test, fm.actions);
        }
      } else if fm.command == DELETE || fm.command == DELETE_STRICT {
        SelectKeepsInv(s, strict, false);
      }
    }
  }

  // ---- what the commands do to the table

  /** ADD leaves the new entry and every old one that does not have its match and priority. */
  lemma AddReplaces(s: Table, fm: FlowMod, now: Time, x: Entry)
    requires Inv(s) && Supported(fm) && fm.command == ADD
    ensures x in Process(s, fm, now).entries
            <==> x == FromFlowMod(fm, s.added, now)
                 || (x in s.entries && !(Same(x.fields, fm.fields) && x.priority == fm.priority))
  {
    var strict, e := Strict(fm.fields, fm.priority), FromFlowMod(fm, s.added, now);
    var rest := s.(entries := Select(s.entries, strict, false));
    SelectKeepsInv(s, strict, false);
    StrictGone(s.entries, fm, e);
    AddKeepsInv(rest, e);
    InsertMember(rest.entries, e, x);
    SelectMember(s.entries, strict, false, x);
  }

  /** Both DELETE commands leave exactly the entries that differ in match or priority. */
  lemma DeleteLeaves(s: Table, fm: FlowMod, now: Time, x: Entry)
    requires Supported(fm) && (fm.command == DELETE || fm.command == DELETE_STRICT)
    ensures x in Process(s, fm, now).entries
       <==> x in s.entries && !(Same(x.fields, fm.fields) && x.priority == fm.priority)
  {
    SelectMember(s.entries, Strict(fm.fields, fm.priority), false, x);
  }

  // ---- runs

  /** A flow modification, an expiry check, or a packet counted by the entry at an index. */
  datatype Event = FlowModEvent(fm: FlowMod, now: Time) | ExpireEvent(now: Time) | TouchEvent(index: nat, now: Time)

  function Touch(t: seq<Entry>, index: nat, now: Time): seq<Entry> {
    if index < |t| then t[index := t[index].(lastTouched := now)] else t
  }

  function Step(s: Table, event: Event): Table {
    match event
    case FlowModEvent(fm, now) => Process(s, fm, now)
    case ExpireEvent(now) => s.(entries := Select(s.entries, Expired(now), false))
    case TouchEvent(index, now) => s.(entries := Touch(s.entries, index, now))
  }

  function Run(events: seq<Event>): Table {
    if events == [] then Table([], 0) else Step(Run(events[..|events| - 1]), events[|events| - 1])
  }

  lemma TouchMember(t: seq<Entry>, index: nat, now: Time, x: Entry)
    requires x in Touch(t, index, now)
    ensures x in t || exists y :: y in t && x == y.(lastTouched := now)
  {
    var u := Touch(t, index, now);
    var k :| 0 <= k < |u| && u[k] == x;
    assert t[k] in t;
  }

  lemma {:induction false} TouchOrdered(t: seq<Entry>, index: nat, now: Time)
    requires Ordered(t)
    ensures Ordered(Touch(t, index, now))
    decreases |t|
  {
    if t != [] && index < |t| {
      var u := Touch(t, index, now);
      if index == 0 {
        assert u[1..] == t[1..];
      } else {
        assert u[1..] == Touch(t[1..], index - 1, now);
        TouchOrdered(t[1..], index - 1, now);
        forall x | x in u[1..] ensures Above(t[0], x) {
          TouchMember(t[1..], index - 1, now, x);
        }
      }
    }
  }

  lemma TouchKeepsInv(s: Table, index: nat, now: Time)
    requires Inv(s)
    ensures Inv(s.(entries := Touch(s.entries, index, now)))
  {
    var t, u := s.entries, Touch(s.entries, index, now);
    TouchOrdered(t, index, now);
    forall e | e in u ensures e.born < s.added {
      var k :| 0 <= k < |u| && u[k] == e;
      assert t[k] in t;
    }
  }

  lemma StepKeepsInv(s: Table, event: Event)
    requires Inv(s)
    ensures Inv(Step(s, event))
  {
    match event
    case FlowModEvent(fm, now) => ProcessKeepsInv(s, fm, now);
    case ExpireEvent(now) => SelectKeepsInv(s, Expired(now), false);
    case TouchEvent(index, now) => TouchKeepsInv(s, index, now);
  }

  /** After any sequence of commands, supported or not, expiries and packets the table is sorted by effective
      priority and age, and no two entries share match and priority. */
  lemma {:induction false} RunKeepsInv(events: seq<Event>)
    ensures Inv(Run(events))
    decreases |events|
  {
    if events != [] {
      RunKeepsInv(events[..|events| - 1]);
      StepKeepsInv(Run(events[..|events| - 1]), events[|events| - 1]);
    }
  }

  // ---- which entry a packet hits

  /** `entry_for_packet`. */
  function Hit(t: seq<Entry>, packet: Match): Option<Entry> {
    if t == [] then None else if Accepts(t[0].fields, packet) then Some(t[0]) else Hit(t[1..], packet)
  }

  lemma {:induction false} HitSound(t: seq<Entry>, packet: Match)
    ensures match Hit(t, packet)
            case None => forall x :: x in t ==> !Accepts(x.fields, packet)
            case Some(e) => e in t && Accepts(e.fields, packet)
    decreases |t|
  {
    if t != [] {
      HitSound(t[1..], packet);
      forall x | x in t && Hit(t, packet).None? ensures !Accepts(x.fields, packet) {
        assert x == t[0] || x in t[1..];
      }
    }
  }

  lemma {:induction false} HitAbove(t: seq<Entry>, packet: Match, x: Entry)
    requires Ordered(t) && Hit(t, packet).Some? && x in t && Accepts(x.fields, packet)
    ensures var e := Hit(t, packet).value; e == x || Above(e, x)
    decreases |t|
  {
    if !Accepts(t[0].fields, packet) {
      HitAbove(t[1..], packet, x);
    }
  }

  lemma PriorityBound(e: Entry)
    ensures e.priority as int < 65537
  {
  }

  /** In any table a run reaches, the entry a packet hits is one that accepts it, and any other that does has
      a lower effective priority or the same and is younger; an exact match beats every wildcarded one. */
  lemma HitIsBest(events: seq<Event>, packet: Match, x: Entry)
    requires x in Run(events).entries && Accepts(x.fields, packet)
    ensures var h := Hit(Run(events).entries, packet);
            && h.Some? && h.value in Run(events).entries && Accepts(h.value.fields, packet)
            && (h.value == x || Key(h.value) > Key(x) || (Key(h.value) == Key(x) && h.value.born < x.born))
            && (!IsWildcarded(x.fields) ==> !IsWildcarded(h.value.fields))
  {
    var t := Run(events).entries;
    RunKeepsInv(events);
    HitSound(t, packet);
    HitAbove(t, packet, x);
    PriorityBound(Hit(t, packet).value);
  }

  /** A new entry takes over exactly the packets it accepts that hit nothing or something lower. */
  lemma {:induction false} HitAfterInsert(t: seq<Entry>, e: Entry, packet: Match)
    requires Descending(t)
    ensures var h := Hit(t, packet);
            Hit(Insert(t, e), packet)
            == if Accepts(e.fields, packet) && (h.None? || Key(h.value) < Key(e)) then Some(e) else h
    decreases |t|
  {
    if t != [] {
      if Key(t[0]) >= Key(e) {
        HitAfterInsert(t[1..], e, packet);
        var r := Insert(t[1..], e);
        assert ([t[0]] + r)[1..] == r;
      } else {
        assert ([e] + t)[1..] == t;
        HitSound(t, packet);
      }
    }
  }

  lemma {:induction false} HitAfterSetActions(t: seq<Entry>, test: Test, actions: seq<Action>, packet: Match)
    ensures var h := Hit(t, packet);
            Hit(SetActions(t, test, actions), packet)
            == if h.Some? && Passes(test, h.value) then Some(h.value.(actions := actions)) else h
    decreases |t|
  {
    if t != [] {
      HitAfterSetActions(t[1..], test, actions, packet);
      var head := if Passes(test, t[0]) then t[0].(actions := actions) else t[0];
      var r := SetActions(t[1..], test, actions);
      assert ([head] + r)[1..] == r;
    }
  }

  /** MODIFY leaves every packet to the entry it hit before, and gives the new actions only to packets the
      command's own match accepts. */
  lemma ModifyRedirects(s: Table, fm: FlowMod, now: Time, packet: Match)
    requires Supported(fm) && fm.command == MODIFY && Select(s.entries, Contained(fm.fields), true) != []
    ensures var h, h' := Hit(s.entries, packet), Hit(Process(s, fm, now).entries, packet);
            && (h.Some? <==> h'.Some?)
            && (h.Some? ==> h'.value == h.value
                            || (h'.value == h.value.(actions := fm.actions) && Accepts(fm.fields, packet)))
  {
    var h := Hit(s.entries, packet);
    HitAfterSetActions(s.entries, Contained(fm.fields), fm.actions, packet);
    HitSound(s.entries, packet);
    if h.Some? && Passes(Contained(fm.fields), h.value) {
      ContainmentIsSound(fm.fields, h.value.fields, packet);
    }
  }

  // ---- DELETE and the standard

  /** What section 4.6 of the OpenFlow Switch Specification 1.0.0 asks of DELETE: every entry the match contains
      goes. */
  function StandardDelete(t: seq<Entry>, fm: FlowMod): seq<Entry> { Select(t, Contained(fm.fields), false) }

  lemma {:induction false} SelectAgrees(t: seq<Entry>, a: Test, b: Test, passing: bool)
    requires forall x :: x in t ==> (Passes(a, x) <==> Passes(b, x))
    ensures Select(t, a, passing) == Select(t, b, passing)
    decreases |t|
  {
    if t != [] {
      SelectAgrees(t[1..], a, b, passing);
    }
  }

  /** The program's DELETE does what the standard asks exactly when every entry the match contains has that
      very match and the command's priority. */
  lemma DeleteMeetsStandard(s: Table, fm: FlowMod, now: Time)
    requires Supported(fm) && fm.command == DELETE
    ensures Process(s, fm, now).entries == StandardDelete(s.entries, fm)
            <==> forall x :: x in s.entries && Matches(fm.fields, x.fields, true) ==>
                               Same(x.fields, fm.fields) && x.priority == fm.priority
  {
    var strict, contained := Strict(fm.fields, fm.priority), Contained(fm.fields);
    if forall x :: x in s.entries && Passes(contained, x) ==> Passes(strict, x) {
      forall x | x in s.entries ensures Passes(strict, x) <==> Passes(contained, x) {
      }
      SelectAgrees(s.entries, strict, contained, false);
    } else {
      var x :| x in s.entries && Passes(contained, x) && !Passes(strict, x);
      SelectMember(s.entries, strict, false, x);
      SelectMember(s.entries, contained, false, x);
    }
  }

  /** And it can differ: deleting with everything wildcarded leaves an entry of another priority in place. */
  lemma DeleteFallsShort(fm: FlowMod, e: Entry, now: Time)
    requires Supported(fm) && fm.command == DELETE && fm.fields == ANYTHING
             && e.fields == ANYTHING && e.priority != fm.priority
    ensures Process(Table([e], 1), fm, now).entries == [e] && StandardDelete([e], fm) == []
  {
    var strict, contained := Strict(fm.fields, fm.priority), Contained(fm.fields);
    assert [e][1..] == [];
    assert !Passes(strict, e) && Passes(contained, e);
    assert Select([e], strict, false) == [e] + Select([], strict, false);
    assert Select([e], contained, false) == [] + Select([], contained, false);
  }

  // ---- one by one

  function RemoveAll(t: seq<Entry>, flows: seq<Entry>): seq<Entry>
    decreases |flows|
  {
    if flows == [] then t else RemoveAll(Remove(t, flows[0]), flows[1..])
  }

  lemma {:induction false} RemoveAllSkips(h: Entry, t: seq<Entry>, flows: seq<Entry>)
    requires h !in flows
    ensures RemoveAll([h] + t, flows) == [h] + RemoveAll(t, flows)
    decreases |flows|
  {
    if flows != [] {
      assert ([h] + t)[1..] == t;
      RemoveAllSkips(h, Remove(t, flows[0]), flows[1..]);
    }
  }

  /** Removing the selected entries one by one leaves the others in place. */
  lemma {:induction false} RemoveAllSelected(t: seq<Entry>, test: Test)
    ensures RemoveAll(t, Select(t, test, true)) == Select(t, test, false)
    decreases |t|
  {
    if t != [] {
      var h, rest := t[0], t[1..];
      var flows := Select(rest, test, true);
      assert t == [h] + rest;
      RemoveAllSelected(rest, test);
      if Passes(test, h) {
        assert ([h] + flows)[1..] == flows;
      } else {
        SelectMember(rest, test, true, h);
        RemoveAllSkips(h, rest, flows);
        assert [] + flows == flows;
      }
    }
  }

  lemma {:induction false} SelectSnoc(t: seq<Entry>, e: Entry, test: Test, passing: bool)
    ensures Select(t + [e], test, passing)
       == Select(t, test, passing) + (if Passes(test, e) == passing then [e] else [])
    decreases |t|
  {
    if t != [] {
      assert (t + [e])[1..] == t[1..] + [e];
      SelectSnoc(t[1..], e, test, passing);
      var first := if Passes(test, t[0]) == passing then [t[0]] else [];
      var last := if Passes(test, e) == passing then [e] else [];
      assert first + (Select(t[1..], test, passing) + last) == first + Select(t[1..], test, passing) + last;
    }
  }

  lemma SelectNext(t: seq<Entry>, k: nat, test: Test)
    requires k < |t|
    ensures Select(t[..k + 1], test, true) == Select(t[..k], test, true) + (if Passes(test, t[k]) then [t[k]] else [])
  {
    assert t[..k + 1] == t[..k] + [t[k]];
    SelectSnoc(t[..k], t[k], test, true);
  }

  /** One turn of the MODIFY loop: `t` is the table with its first `k` entries done. */
  lemma SetActionsNext(t: seq<Entry>, k: nat, test: Test, actions: seq<Action>, e: Entry)
    requires k < |t| && e == if Passes(test, t[k]) then t[k].(actions := actions) else t[k]
    ensures t[k := e][..k + 1] + SetActions(t[k := e][k + 1..], test, actions)
       == t[..k] + SetActions(t[k..], test, actions)
    ensures t[k := e][..k] == t[..k]
  {
    var rest := SetActions(t[k + 1..], test, actions);
    assert t[k..][1..] == t[k + 1..] && t[k := e][k + 1..] == t[k + 1..];
    assert t[k := e][..k + 1] == t[..k] + [e];
    assert t[..k] + [e] + rest == t[..k] + ([e] + rest);
  }

  class SwitchFlowTable {
    var table: seq<Entry>
    var added: nat

    function View(): Table
      reads this
    {
      Table(table, added)
    }

    constructor ()
      ensures View() == Table([], 0)
    {
      table, added := [], 0;
    }

    method Add(e: Entry)
      modifies this
      ensures View() == AddEntry(old(View()), e)
    {
      table := table + [e];
      table := Sort(table);
      added := added + 1;
    }

    method MatchingEntries(test: Test) returns (r: seq<Entry>)
      ensures r == Select(table, test, true)
    {
      r := [];
      for k := 0 to |table|
        invariant r == Select(table[..k], test, true)
      {
        SelectNext(table, k, test);
        if Passes(test, table[k]) {
          r := r + [table[k]];
        }
      }
      assert table[..|table|] == table;
    }

    /** `remove_matching_entries` and `remove_expired_entries`. */
    method RemovePassing(test: Test) returns (removed: seq<Entry>)
      modifies this`table
      ensures table == Select(old(table), test, false) && removed == Select(old(table), test, true)
    {
      removed := MatchingEntries(test);
      assert removed[0..] == removed;
      for k := 0 to |removed|
        invariant RemoveAll(table, removed[k..]) == RemoveAll(old(table), removed)
      {
        assert removed[k..][1..] == removed[k + 1..];
        table := Remove(table, removed[k]);
      }
      RemoveAllSelected(old(table), test);
    }

    /** The loop of the MODIFY commands. */
    method ModifyPassing(test: Test, actions: seq<Action>) returns (modified: seq<Entry>)
      modifies this`table
      ensures table == SetActions(old(table), test, actions)
      ensures modified == Select(table, test, true)
    {
      modified := [];
      ghost var goal := SetActions(table, test, actions);
      assert table[..0] == [] && table[0..] == table && [] + goal == goal;
      for k := 0 to |table|
        invariant |table| == |old(table)|
        invariant table[..k] + SetActions(table[k..], test, actions) == goal
        invariant modified == Select(table[..k], test, true)
      {
        var e := table[k];
        if Passes(test, e) {
          e := e.(actions := actions);
        }
        SetActionsNext(table, k, test, actions, e);
        table := table[k := e];
        SelectNext(table, k, test);
        if Passes(test, e) {
          modified := modified + [e];
        }
      }
      assert table[..|table|] == table && table[|table|..] == [] && table + [] == table;
    }

    method ProcessFlowMod(fm: FlowMod, now: Time) returns (answer: Outcome)
      modifies this
      ensures View() == Process(old(View()), fm, now)
      ensures answer == Answer(old(View()), fm)
    {
      if fm.flags & OFPFF_CHECK_OVERLAP != 0 || fm.outPort != OFPP_NONE {
        return NotImplemented;
      }
      var strict := Strict(fm.fields, fm.priority);
      if fm.command == ADD {
        var _ := RemovePassing(strict);
        Add(FromFlowMod(fm, added, now));
        return Added;
      } else if fm.command == MODIFY || fm.command == MODIFY_STRICT {
        var test := if fm.command == MODIFY_STRICT then strict else Contained(fm.fields);
        answer := Modify(fm, now, test);
      } else if fm.command == DELETE || fm.command == DELETE_STRICT {
        var removed := RemovePassing(strict);
        return Removed(removed);
      } else {
        return UnknownCommand;
      }
    }

    method Modify(fm: FlowMod, now: Time, test: Test) returns (answer: Outcome)
      requires !test.Expired?
      modifies this
      ensures var s := old(View());
              if Select(s.entries, test, true) == [] then
                View() == AddEntry(s, FromFlowMod(fm, s.added, now)) && answer == Added
              else View() == s.(entries := SetActions(s.entries, test, fm.actions))
                   && answer == Modified(Select(table, test, true))
    {
      ghost var was := table;
      var modified := ModifyPassing(test, fm.actions);
      SetActionsCount(was, test, fm.actions);
      if |modified| == 0 {
        NothingSet(was, test, fm.actions);
        Add(FromFlowMod(fm, added, now));
        return Added;
      }
      return Modified(modified);
    }

    method RemoveExpiredEntries(now: Time) returns (removed: seq<Entry>)
      modifies this`table
      ensures View() == Step(old(View()), ExpireEvent(now))
      ensures removed == Select(old(table), Expired(now), true)
    {
      removed := RemovePassing(Expired(now));
    }

    method EntryForPacket(packet: Match) returns (r: Option<Entry>)
      ensures r == Hit(table, packet)
    {
      assert table[0..] == table;
      for k := 0 to |table|
        invariant Hit(table[k..], packet) == Hit(table, packet)
      {
        if Accepts(table[k].fields, packet) {
          return Some(table[k]);
        }
        assert table[k..][1..] == table[k + 1..];
      }
      return None;
    }
  }

  lemma {:induction false} SetActionsCount(t: seq<Entry>, test: Test, actions: seq<Action>)
    requires !test.Expired?
    ensures |Select(SetActions(t, test, actions), test, true)| == |Select(t, test, true)|
    decreases |t|
  {
    if t != [] {
      SetActionsCount(t[1..], test, actions);
      var head := if Passes(test, t[0]) then t[0].(actions := actions) else t[0];
      var r := SetActions(t[1..], test, actions);
      assert ([head] + r)[1..] == r;
    }
  }

  lemma {:induction false} NothingSet(t: seq<Entry>, test: Test, actions: seq<Action>)
    requires Select(t, test, true) == []
    ensures SetActions(t, test, actions) == t
    decreases |t|
  {
    if t != [] {
      NothingSet(t[1..], test, actions);
    }
  }
}
