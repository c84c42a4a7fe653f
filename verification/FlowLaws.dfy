/** What the flow table owes its users, told command by command in terms of the messages and the entries alone. */
module FlowLaws {
  import opened Wrappers
  import opened OfMatch
  import opened OfFlowMod
  import opened FlowTable

  // ---- what is installed

  /** The entry a command asks for: everything it says, and the time it came. */
  predicate Installed(e: Entry, fm: FlowMod, now: Time) {
    && e.fields == fm.fields && e.priority == fm.priority && e.cookie == fm.cookie
    && e.idleTimeout == fm.idleTimeout && e.hardTimeout == fm.hardTimeout
    && e.actions == fm.actions && e.buffer == fm.buffer
    && e.created == now && e.lastTouched == now
  }

  predicate Allowed(fm: FlowMod) { fm.flags & 2 == 0 && fm.outPort == 0xFFFF }

  predicate Exactly(m: Match) { m.wildcards & 0x3F_FFFF == 0 }

  /** An entry with match `a` and priority `p` goes before one with `b` and `q`, whatever their age. */
  predicate Outranks(a: Match, p: bv16, b: Match, q: bv16) {
    if Exactly(a) || Exactly(b) then Exactly(a) && !Exactly(b) else p as int > q as int
  }

  predicate SameRule(e: Entry, fm: FlowMod) { Same(e.fields, fm.fields) && e.priority == fm.priority }

  lemma OutranksIsKey(a: Entry, b: Entry)
    ensures Outranks(a.fields, a.priority, b.fields, b.priority) <==> Key(a) > Key(b)
  {
    PriorityBound(a);
    PriorityBound(b);
  }

  lemma InsertedIsHit(s: Table, e: Entry, packet: Match)
    requires Inv(s) && e.born == s.added && Newcomer(s.entries, e) && Accepts(e.fields, packet)
    requires forall x :: x in s.entries && Accepts(x.fields, packet) ==>
                           Outranks(e.fields, e.priority, x.fields, x.priority)
    ensures Hit(AddEntry(s, e).entries, packet) == Some(e)
  {
    AddKeepsInv(s, e);
    OrderedDescends(s.entries);
    HitAfterInsert(s.entries, e, packet);
    HitSound(s.entries, packet);
    var h := Hit(s.entries, packet);
    if h.Some? {
      OutranksIsKey(e, h.value);
    }
  }

  /** After ADD a packet the command's match accepts is treated as the command says, unless an entry of another rule
      that does not rank lower accepts it too. */
  lemma AddInstalls(s: Table, fm: FlowMod, now: Time, packet: Match)
    requires Inv(s) && Allowed(fm) && fm.command == 0 && Accepts(fm.fields, packet)
    requires forall x :: x in s.entries && Accepts(x.fields, packet) ==>
                           SameRule(x, fm) || Outranks(fm.fields, fm.priority, x.fields, x.priority)
    ensures var h := Hit(Process(s, fm, now).entries, packet); h.Some? && Installed(h.value, fm, now)
  {
    var strict, e := Strict(fm.fields, fm.priority), FromFlowMod(fm, s.added, now);
    var rest := s.(entries := Select(s.entries, strict, false));
    SelectKeepsInv(s, strict, false);
    StrictGone(s.entries, fm, e);
    forall x | x in rest.entries && Accepts(x.fields, packet)
      ensures Outranks(e.fields, e.priority, x.fields, x.priority)
    {
      SelectMember(s.entries, strict, false, x);
    }
    InsertedIsHit(rest, e, packet);
  }

  /** The rules a MODIFY or MODIFY_STRICT is for. */
  predicate Concerns(fm: FlowMod, x: Entry) {
    if fm.command == 2 then SameRule(x, fm) else Matches(fm.fields, x.fields, true)
  }

  predicate Modifies(fm: FlowMod) { fm.command == 1 || fm.command == 2 }

  lemma ConcernsIsPasses(fm: FlowMod, t: seq<Entry>)
    requires Modifies(fm)
    ensures var test := if fm.command == MODIFY_STRICT then Strict(fm.fields, fm.priority) else Contained(fm.fields);
            && (forall x :: Concerns(fm, x) <==> Passes(test, x))
            && (Select(t, test, true) == [] <==> forall x :: x in t ==> !Concerns(fm, x))
  {
    var test := if fm.command == MODIFY_STRICT then Strict(fm.fields, fm.priority) else Contained(fm.fields);
    if x :| x in t && Concerns(fm, x) {
      SelectMember(t, test, true, x);
    } else if Select(t, test, true) != [] {
      SelectMember(t, test, true, Select(t, test, true)[0]);
    }
  }

  /** A MODIFY of either kind that concerns no rule adds one. */
  lemma ModifyInstalls(s: Table, fm: FlowMod, now: Time, packet: Match)
    requires Inv(s) && Allowed(fm) && Modifies(fm) && Accepts(fm.fields, packet)
    requires forall x :: x in s.entries ==> !Concerns(fm, x)
    requires forall x :: x in s.entries && Accepts(x.fields, packet) ==>
                           Outranks(fm.fields, fm.priority, x.fields, x.priority)
    ensures var h := Hit(Process(s, fm, now).entries, packet); h.Some? && Installed(h.value, fm, now)
    ensures Answer(s, fm) == Added
  {
    var test := if fm.command == MODIFY_STRICT then Strict(fm.fields, fm.priority) else Contained(fm.fields);
    var e := FromFlowMod(fm, s.added, now);
    ConcernsIsPasses(fm, s.entries);
    NothingPasses(s.entries, test, e);
    InsertedIsHit(s, e, packet);
  }

  /** A MODIFY that concerns some rule gives its actions to every packet that hits one, and changes nothing else. */
  lemma ModifyUpdates(s: Table, fm: FlowMod, now: Time, packet: Match)
    requires Allowed(fm) && Modifies(fm) && exists x :: x in s.entries && Concerns(fm, x)
    ensures var h, h' := Hit(s.entries, packet), Hit(Process(s, fm, now).entries, packet);
            if h.None? then h'.None?
            else h' == Some(if Concerns(fm, h.value) then h.value.(actions := fm.actions) else h.value)
  {
    var test := if fm.command == MODIFY_STRICT then Strict(fm.fields, fm.priority) else Contained(fm.fields);
    ConcernsIsPasses(fm, s.entries);
    HitAfterSetActions(s.entries, test, fm.actions, packet);
  }

  /** Flags and ports the switch does not support, and unknown commands, change nothing. */
  lemma RefusedChangesNothing(s: Table, fm: FlowMod, now: Time)
    requires !Allowed(fm) || fm.command > 4
    ensures Process(s, fm, now) == s && Answer(s, fm) == if !Allowed(fm) then NotImplemented else UnknownCommand
  {
  }

  // ---- what is reported

  /** DELETE of either kind reports exactly the entries that go. */
  lemma DeleteReports(s: Table, fm: FlowMod, now: Time, x: Entry)
    requires Allowed(fm) && (fm.command == 3 || fm.command == 4)
    ensures Answer(s, fm).Removed?
    ensures x in Answer(s, fm).entries <==> x in s.entries && SameRule(x, fm)
    ensures x in Process(s, fm, now).entries <==> x in s.entries && !SameRule(x, fm)
  {
    SelectMember(s.entries, Strict(fm.fields, fm.priority), true, x);
    SelectMember(s.entries, Strict(fm.fields, fm.priority), false, x);
  }

  /** MODIFY reports exactly the entries it concerns, as they are afterwards. */
  lemma ModifyReports(s: Table, fm: FlowMod, now: Time, x: Entry)
    requires Allowed(fm) && Modifies(fm) && exists y :: y in s.entries && Concerns(fm, y)
    ensures Answer(s, fm).Modified?
    ensures x in Answer(s, fm).entries <==> x in Process(s, fm, now).entries && Concerns(fm, x)
  {
    var test := if fm.command == MODIFY_STRICT then Strict(fm.fields, fm.priority) else Contained(fm.fields);
    ConcernsIsPasses(fm, s.entries);
    SelectMember(SetActions(s.entries, test, fm.actions), test, true, x);
  }

  // ---- which entry wins, and for how long

  /** The entry a packet hits goes before every other that accepts it: by being exact, then by priority, then by age. */
  lemma HitWins(events: seq<Event>, packet: Match, x: Entry)
    requires x in Run(events).entries && Accepts(x.fields, packet)
    ensures var h := Hit(Run(events).entries, packet);
            h.Some? &&
            (h.value == x || Outranks(h.value.fields, h.value.priority, x.fields, x.priority)
             || (!Outranks(x.fields, x.priority, h.value.fields, h.value.priority) && h.value.born < x.born))
  {
    HitIsBest(events, packet, x);
    var h := Hit(Run(events).entries, packet).value;
    OutranksIsKey(h, x);
    OutranksIsKey(x, h);
  }

  /** A timeout of zero is none; otherwise it is over once more than that many seconds have passed. */
  predicate Over(timeout: bv16, since: Time, now: Time) { timeout != 0 && now - since > timeout as int }

  /** Expiry leaves exactly the entries whose hard timeout since their creation and whose idle timeout since their last
      packet are not over. */
  lemma ExpiryLeaves(s: Table, now: Time, x: Entry)
    ensures x in Step(s, ExpireEvent(now)).entries
       <==> x in s.entries && !Over(x.hardTimeout, x.created, now) && !Over(x.idleTimeout, x.lastTouched, now)
  {
    SelectMember(s.entries, Expired(now), false, x);
    TimeoutIsInt(x.hardTimeout);
    TimeoutIsInt(x.idleTimeout);
  }

  lemma TimeoutIsInt(t: bv16)
    ensures t as int > 0 <==> t != 0
  {
  }

  /** A packet counted by an entry puts off its idle timeout, but not the hard one. */
  lemma PacketDefersIdle(s: Table, index: nat, t: Time, now: Time)
    requires index < |s.entries|
    ensures var x := s.entries[index].(lastTouched := t);
            x in Step(Step(s, TouchEvent(index, t)), ExpireEvent(now)).entries
            <==> !Over(x.hardTimeout, x.created, now) && !Over(x.idleTimeout, t, now)
  {
    var touched := Step(s, TouchEvent(index, t));
    assert touched.entries[index] == s.entries[index].(lastTouched := t);
    ExpiryLeaves(touched, now, touched.entries[index]);
  }
}
