/**
 The client's own data structure: an array of 64 slots updated in place by the entry points and
 callbacks of src/client/notifications.c. `Valid` ties the table to the recency list, and each
 method is proved to take exactly one step of NotificationProtocol.
 */
module NotificationTable {
  import opened Common
  import opened NotificationProtocol
  import opened NotificationInvariants

  datatype Slot = Vacant | Occupied(notice: Notice) {
    function Serial(): nat { if Vacant? then 0 else notice.serial }
    function Id(): nat { if Vacant? then 0 else notice.id }
  }

  /** `place` says in which slot each serial was shown. */
  ghost predicate Represents(slots: seq<Slot>, q: seq<Notice>, place: map<nat, nat>) {
    && |slots| == LIMIT
    && (forall e :: e in q ==>
          e.serial in place && place[e.serial] < LIMIT && slots[place[e.serial]] == Occupied(e))
    && (forall i :: 0 <= i < LIMIT && slots[i].Occupied? ==>
          slots[i].notice in q && place[slots[i].notice.serial] == i)
  }

  /** Every serial given out so far has its slot. */
  ghost predicate Placed(place: map<nat, nat>, serial: nat) {
    forall x :: 0 < x <= serial ==> x in place && place[x] < LIMIT
  }

  lemma RepresentsRemove(slots: seq<Slot>, q: seq<Notice>, place: map<nat, nat>, serial: nat, k: nat)
    requires Represents(slots, q, place) && QueueOk(q, serial) && k < |q|
    ensures Represents(slots[place[q[k].serial] := Vacant], Remove(q, k), place)
  {
    RemoveMembers(q, k);
    RemoveIsClean(q, serial, k);
    assert q[k] in q;
  }

  lemma RepresentsAll(slots: seq<Slot>, q: seq<Notice>, place: map<nat, nat>)
    requires Represents(slots, q, place)
    ensures |slots| == LIMIT
  {
  }

  lemma RepresentsAppend(slots: seq<Slot>, q: seq<Notice>, place: map<nat, nat>, serial: nat, i: nat, e: Notice)
    requires Represents(slots, q, place) && QueueOk(q, serial) && i < LIMIT
    requires slots[i].Vacant? && e.serial > serial
    ensures Represents(slots[i := Occupied(e)], q + [e], place[e.serial := i])
  {
  }

  lemma RepresentsUpdate(slots: seq<Slot>, q: seq<Notice>, place: map<nat, nat>, serial: nat, k: nat, e: Notice)
    requires Represents(slots, q, place) && QueueOk(q, serial) && k < |q| && e.serial == q[k].serial
    ensures Represents(slots[place[e.serial] := Occupied(e)], q[k := e], place)
  {
    assert q[k] in q;
    var r := q[k := e];
    assert r[k] == e;
    forall o | o in r ensures o == e || (o in q && o.serial != e.serial) {
      var j :| 0 <= j < |r| && r[j] == o;
    }
    forall o | o in q && o.serial != e.serial ensures o in r {
      var j :| 0 <= j < |q| && q[j] == o;
      assert r[j] == o;
    }
  }

  /** The place of each notice in the list, as a set of slot numbers. */
  ghost function Places(q: seq<Notice>, place: map<nat, nat>): (r: set<nat>)
    requires forall e :: e in q ==> e.serial in place
  {
    set e | e in q :: place[e.serial]
  }

  lemma {:induction false} PlacesCount(q: seq<Notice>, place: map<nat, nat>)
    requires forall e :: e in q ==> e.serial in place
    requires forall i, j :: 0 <= i < j < |q| ==> place[q[i].serial] != place[q[j].serial]
    ensures |Places(q, place)| == |q|
  {
    if q != [] {
      var p := q[..|q| - 1];
      var last := q[|q| - 1];
      PlacesCount(p, place);
      assert q == p + [last];
      assert Places(q, place) == Places(p, place) + {place[last.serial]};
    }
  }

  ghost function SlotNumbers(n: nat): (r: set<nat>)
    ensures forall i: nat :: i in r <==> i < n
    ensures |r| == n
  {
    if n == 0 then {} else SlotNumbers(n - 1) + {n - 1}
  }

  lemma SubsetCount(a: set<nat>, b: set<nat>)
    requires a <= b
    ensures |b| == |a| + |b - a|
  {
    assert b == a + (b - a);
  }

  lemma PlacesAreSlots(slots: seq<Slot>, q: seq<Notice>, place: map<nat, nat>, serial: nat)
    requires Represents(slots, q, place) && QueueOk(q, serial)
    ensures |Places(q, place)| == |q| && Places(q, place) <= SlotNumbers(|slots|)
    ensures forall i :: 0 <= i < LIMIT ==> (i in Places(q, place) <==> slots[i].Occupied?)
  {
    forall i, j | 0 <= i < j < |q| ensures place[q[i].serial] != place[q[j].serial] {
      assert q[i] in q && q[j] in q;
    }
    PlacesCount(q, place);
    forall i | 0 <= i < LIMIT && slots[i].Occupied? ensures i in Places(q, place) {
      assert slots[i].notice in q;
    }
  }

  lemma CountVacancies(slots: seq<Slot>, places: set<nat>)
    requires places <= SlotNumbers(|slots|)
    requires forall i :: 0 <= i < |slots| ==> (i in places <==> slots[i].Occupied?)
    ensures |places| < |slots| <==> exists i :: 0 <= i < |slots| && slots[i].Vacant?
  {
    var free := SlotNumbers(|slots|) - places;
    SubsetCount(places, SlotNumbers(|slots|));
    if i :| 0 <= i < |slots| && slots[i].Vacant? {
      assert i in free;
    } else {
      assert free == {};
    }
  }

  /** The list is full exactly when no slot is free. */
  lemma FullWhenNoVacancy(slots: seq<Slot>, q: seq<Notice>, place: map<nat, nat>, serial: nat)
    requires Represents(slots, q, place) && QueueOk(q, serial)
    ensures |q| < LIMIT <==> exists i :: 0 <= i < LIMIT && slots[i].Vacant?
  {
    PlacesAreSlots(slots, q, place, serial);
    hide Places, QueueOk, SlotNumbers;
    CountVacancies(slots, Places(q, place));
  }

  lemma SendCounts(s: State, serials: set<nat>)
    requires s.owner.Some?
    ensures Send(s, serials).refs >= s.refs
  {
  }

  lemma SendNothing(s: State, serials: set<nat>)
    requires s.owner.Some? && forall e :: e in s.queue && e.pending ==> e.serial !in serials
    ensures Send(s, serials) == s
  {
    assert Due(s.queue, serials) == {};
    assert MarkSent(s.queue, serials) == s.queue;
  }

  lemma SendOne(s: State, k: nat)
    requires QueueOk(s.queue, s.serial) && s.owner.Some? && k < |s.queue| && s.queue[k].pending
    ensures var e := s.queue[k];
      Send(s, {e.serial}) == s.(queue := s.queue[k := e.(pending := false, image := None)],
         notified := s.notified + multiset{Message(s, e)},
         calls := s.calls + multiset{Delivery(s.generation, e.serial)},
         refs := s.refs + 1)
  {
    var e := s.queue[k];
    assert e in s.queue;
    forall o | o in Due(s.queue, {e.serial}) ensures o == e {
      SameSerial(s.queue, s.serial, o, e);
    }
    assert Due(s.queue, {e.serial}) == {e};
    assert Messages(s, {e}) == {Message(s, e)};
    assert Deliveries(s.generation, {e}) == {Delivery(s.generation, e.serial)};
    assert MarkSent(s.queue, {e.serial}) == s.queue[k := e.(pending := false, image := None)];
  }

  lemma DueLater(s: State, serials: set<nat>, x: nat)
    requires QueueOk(s.queue, s.serial) && s.owner.Some? && x !in serials
    ensures Due(Send(s, serials).queue, {x}) == Due(s.queue, {x})
    ensures MarkSent(Send(s, serials).queue, {x}) == MarkSent(s.queue, serials + {x})
  {
    var r := MarkSent(s.queue, serials);
    forall e | e in Due(r, {x}) ensures e in Due(s.queue, {x}) {
      var o := MarkedFrom(s.queue, serials, e);
    }
    forall e | e in Due(s.queue, {x}) ensures e in Due(r, {x}) {
      var i :| 0 <= i < |s.queue| && s.queue[i] == e;
      assert r[i] == e;
    }
  }

  lemma MessagesOfBoth(s: State, a: set<Notice>, b: set<Notice>)
    requires s.owner.Some? && forall e, o :: e in a && o in b ==> e.serial != o.serial
    ensures multiset(Messages(s, a)) + multiset(Messages(s, b)) == multiset(Messages(s, a + b))
  {
    assert Messages(s, a) + Messages(s, b) == Messages(s, a + b);
    SumOfDisjoint(Messages(s, a), Messages(s, b));
  }

  lemma DeliveriesOfBoth(generation: nat, a: set<Notice>, b: set<Notice>)
    requires forall e, o :: e in a && o in b ==> e.serial != o.serial
    ensures multiset(Deliveries(generation, a)) + multiset(Deliveries(generation, b))
         == multiset(Deliveries(generation, a + b))
    ensures |Deliveries(generation, a)| + |Deliveries(generation, b)| == |Deliveries(generation, a + b)|
  {
    assert Deliveries(generation, a) + Deliveries(generation, b) == Deliveries(generation, a + b);
    SumOfDisjoint(Deliveries(generation, a), Deliveries(generation, b));
  }

  lemma NotDue(s: State, v: Notice)
    requires QueueOk(s.queue, s.serial) && s.owner.Some? && v in s.queue && !v.pending
    ensures Send(s, {v.serial}) == s
  {
    forall e | e in s.queue && e.serial == v.serial ensures e == v {
      SameSerial(s.queue, s.serial, e, v);
    }
    SendNothing(s, {v.serial});
  }

  /** Sending a few notices and then one more is sending them all. */
  lemma SendMore(s: State, serials: set<nat>, x: nat)
    requires QueueOk(s.queue, s.serial) && s.owner.Some? && x !in serials
    ensures Send(Send(s, serials), {x}) == Send(s, serials + {x})
  {
    DueLater(s, serials, x);
    DueBoth(s.queue, serials, x);
    hide QueueOk, Due, MarkSent, Messages, Deliveries, Message;
    var t := Send(s, serials);
    var a, b := Due(s.queue, serials), Due(s.queue, {x});
    SameMessages(s, t, b);
    MessagesOfBoth(s, a, b);
    DeliveriesOfBoth(s.generation, a, b);
  }

  lemma DueBoth(q: seq<Notice>, serials: set<nat>, x: nat)
    requires x !in serials
    ensures Due(q, serials + {x}) == Due(q, serials) + Due(q, {x})
    ensures forall e, o :: e in Due(q, serials) && o in Due(q, {x}) ==> e.serial != o.serial
  {
  }

  lemma SameMessages(s: State, t: State, due: set<Notice>)
    requires s.owner.Some? && t.owner == s.owner && t.generation == s.generation && t.caps == s.caps
    ensures Messages(t, due) == Messages(s, due)
  {
  }

  lemma SumOfDisjoint<T>(a: set<T>, b: set<T>)
    requires a !! b
    ensures multiset(a) + multiset(b) == multiset(a + b)
    ensures |a + b| == |a| + |b|
  {
  }

  /** A notice at the end of the list, sent at once when the daemon is ready. */
  ghost function Appended(s: State, e: Notice): State
    requires s.ready ==> s.owner.Some?
  {
    var t := s.(queue := s.queue + [e], serial := s.serial + 1);
    if s.ready then Send(t, {e.serial}) else t
  }

  lemma OwnerKept(s: State, chat: string)
    ensures var t := EvictStep(DismissStep(s, chat)); t == s.(queue := t.queue, closed := t.closed)
  {
  }

  lemma LiveHasReferences(s: State)
    requires Inv(s) && !s.stopped
    ensures s.refs > 0
  {
  }

  lemma QueueIsOk(s: State)
    requires Inv(s)
    ensures QueueOk(s.queue, s.serial)
    ensures s.ready ==> s.owner.Some?
  {
  }

  lemma ShowIsAppended(s: State, chat: string, summary: string, body: string, image: Option<seq<int>>)
    requires Inv(s) && !s.stopped
    ensures Inv(ShowStep(s, chat, summary, body, image))
    ensures var t := EvictStep(DismissStep(s, chat));
      (t.ready ==> t.owner.Some?)
      && Appended(t, NewNotice(t, chat, summary, body, image)) == ShowStep(s, chat, summary, body, image)
  {
    hide Core, DismissStep, EvictStep, Send, NothingWaits;
    ShowKeepsInv(s, chat, summary, body, image);
    OwnerKept(s, chat);
  }

  /** The slot of the k-th notice of the list, or none. */
  ghost predicate IsAt(q: seq<Notice>, place: map<nat, nat>, k: nat, i: nat) {
    k < |q| && q[k].serial in place && place[q[k].serial] == i
  }

  lemma ChatSlot(slots: seq<Slot>, q: seq<Notice>, place: map<nat, nat>, serial: nat, chat: string, i: nat)
    requires Represents(slots, q, place) && QueueOk(q, serial) && i < LIMIT
    ensures slots[i].Occupied? && slots[i].notice.chat == chat <==> IsAt(q, place, FindChat(q, chat), i)
    ensures IsAt(q, place, FindChat(q, chat), i) ==> slots[i].notice == q[FindChat(q, chat)]
  {
    var k := FindChat(q, chat);
    if k < |q| {
      assert q[k] in q;
    }
    if slots[i].Occupied? && slots[i].notice.chat == chat {
      var j :| 0 <= j < |q| && q[j] == slots[i].notice;
    }
  }

  lemma SerialSlot(slots: seq<Slot>, q: seq<Notice>, place: map<nat, nat>, serial: nat, x: nat)
    requires Represents(slots, q, place) && QueueOk(q, serial) && x in place && place[x] < LIMIT
    ensures var k := FindSerial(q, x);
      && (k < |q| ==> IsAt(q, place, k, place[x]) && slots[place[x]] == Occupied(q[k]))
      && (slots[place[x]].Serial() == x && x != 0 ==> k < |q|)
  {
    var k := FindSerial(q, x);
    if k < |q| {
      assert q[k] in q;
    }
    if slots[place[x]].Serial() == x && x != 0 {
      assert slots[place[x]].notice in q;
      var j :| 0 <= j < |q| && q[j] == slots[place[x]].notice;
    }
  }

  lemma IdSlot(slots: seq<Slot>, q: seq<Notice>, place: map<nat, nat>, serial: nat, id: nat, i: nat)
    requires Represents(slots, q, place) && QueueOk(q, serial) && i < LIMIT
    ensures slots[i].Occupied? && id != 0 && slots[i].notice.id == id <==> IsAt(q, place, FindId(q, id), i)
    ensures IsAt(q, place, FindId(q, id), i) ==> slots[i] == Occupied(q[FindId(q, id)])
  {
    var k := FindId(q, id);
    if k < |q| {
      assert q[k] in q;
    }
    if slots[i].Occupied? && id != 0 && slots[i].notice.id == id {
      var j :| 0 <= j < |q| && q[j] == slots[i].notice;
    }
  }

  lemma OldestSlot(slots: seq<Slot>, q: seq<Notice>, place: map<nat, nat>, serial: nat, i: nat)
    requires Represents(slots, q, place) && QueueOk(q, serial) && q != [] && i < LIMIT
    requires slots[i].Occupied? && forall j :: 0 <= j < LIMIT ==> slots[i].Serial() <= slots[j].Serial()
    ensures IsAt(q, place, 0, i)
  {
    assert q[0] in q;
    var j := place[q[0].serial];
    assert slots[j] == Occupied(q[0]);
    var k :| 0 <= k < |q| && q[k] == slots[i].notice;
  }

  /** The notifications the first `n` slots name to the daemon. */
  ghost function FirstHandles(slots: seq<Slot>, n: nat, generation: nat): set<Handle>
    requires n <= |slots|
  {
    set i | 0 <= i < n && slots[i].Id() != 0 :: Handle(generation, slots[i].Id())
  }

  lemma AllHandles(s: State, slots: seq<Slot>, place: map<nat, nat>)
    requires Represents(slots, s.queue, place)
    ensures FirstHandles(slots, LIMIT, s.generation) == HeldHandles(s)
  {
    var all := FirstHandles(slots, LIMIT, s.generation);
    forall h | h in HeldHandles(s) ensures h in all {
      var e :| e in s.queue && e.id != 0 && h == Handle(s.generation, e.id);
      assert slots[place[e.serial]].Id() == e.id;
    }
  }

  lemma CallFacts(s: State, c: Call)
    requires Inv(s) && c in s.calls
    ensures s.refs > 0 && QueueOk(s.queue, s.serial)
    ensures c.generation == s.generation ==> s.owner.Some?
    ensures c.Delivery? ==> 0 < c.serial <= s.serial
  {
    assert |s.calls| > 0;
  }

  /** The serials of the first `n` slots. */
  ghost function SlotSerials(slots: seq<Slot>, n: nat): set<nat>
    requires n <= |slots|
  {
    set i | 0 <= i < n && slots[i].Occupied? :: slots[i].notice.serial
  }

  lemma NextSlotSerial(slots: seq<Slot>, q: seq<Notice>, place: map<nat, nat>, serial: nat, i: nat)
    requires Represents(slots, q, place) && i < LIMIT
    ensures slots[i].Occupied? ==> slots[i].notice.serial !in SlotSerials(slots, i)
    ensures SlotSerials(slots, i + 1) ==
      if slots[i].Occupied? then SlotSerials(slots, i) + {slots[i].notice.serial} else SlotSerials(slots, i)
  {
  }

  lemma SendStarts(s: State, slots: seq<Slot>, place: map<nat, nat>)
    requires Represents(slots, s.queue, place) && QueueOk(s.queue, s.serial) && s.owner.Some?
    ensures |slots| == LIMIT
    ensures Send(s, SlotSerials(slots, 0)) == s && SlotSerials(slots, LIMIT) == Serials(s.queue)
    ensures Send(s, Serials(s.queue)).refs >= s.refs
  {
    assert SlotSerials(slots, 0) == {};
    SendNothing(s, {});
    AllSlotSerials(slots, s.queue, place);
    SendCounts(s, Serials(s.queue));
  }

  /** Sending the notice of slot `i` after those of the slots before it. */
  lemma SendSlot(s: State, slots: seq<Slot>, place: map<nat, nat>, i: nat)
    requires Represents(slots, s.queue, place) && QueueOk(s.queue, s.serial) && s.owner.Some? && i < LIMIT
    ensures var t := Send(s, SlotSerials(slots, i));
      && QueueOk(t.queue, t.serial) && t.owner == s.owner && t.ready == s.ready
      && Send(s, SlotSerials(slots, i + 1)) == if slots[i].Occupied? then Send(t, {slots[i].notice.serial}) else t
  {
    NextSlotSerial(slots, s.queue, place, s.serial, i);
    MarkKeepsQueue(s.queue, s.serial, SlotSerials(slots, i));
    if slots[i].Occupied? {
      SendMore(s, SlotSerials(slots, i), slots[i].notice.serial);
    }
  }

  lemma AllSlotSerials(slots: seq<Slot>, q: seq<Notice>, place: map<nat, nat>)
    requires Represents(slots, q, place)
    ensures SlotSerials(slots, LIMIT) == Serials(q)
  {
    forall x | x in Serials(q) ensures x in SlotSerials(slots, LIMIT) {
      var e :| e in q && e.serial == x;
      assert slots[place[x]] == Occupied(e);
    }
  }

  class Notifications {
    var refs: nat
    var serial: nat
    var generation: nat
    var stopped: bool
    var ready: bool
    var caps: Caps
    var owner: Option<string>
    const notices: array<Slot>

    // What this object has put on the bus and passed to the action callback.
    var calls: multiset<Call>
    var notified: multiset<Notify>
    var closed: set<Handle>
    var invoked: seq<(string, string)>

    // The recency list the table implements, and where each serial was put.
    ghost var queue: seq<Notice>
    ghost var place: map<nat, nat>

    // What the daemon has shown of itself.
    ghost var owners: map<nat, string>
    ghost var delivered: set<Handle>
    ghost var reported: set<Handle>

    ghost function Abs(): State
      reads this
    {
      State(queue, serial, generation, owner, ready, caps, stopped, refs,
            calls, notified, closed, invoked, owners, delivered, reported)
    }

    ghost predicate Table()
      reads this, notices
    {
      Represents(notices[..], queue, place)
    }

    ghost predicate Valid()
      reads this, notices
    {
      Table() && Placed(place, serial) && Inv(Abs())
    }

    constructor ()
      ensures Valid() && fresh(notices) && Abs() == START
    {
      refs, serial, generation := 1, 0, 0;
      stopped, ready, caps, owner := false, false, NO_CAPS, None;
      notices := new Slot[LIMIT](_ => Vacant);
      calls, notified, closed, invoked := multiset{}, multiset{}, {}, [];
      queue, place, owners, delivered, reported := [], map[], map[], {}, {};
    }

    /** close_id: a one-way CloseNotification to the current owner. */
    method CloseId(id: nat)
      modifies this`closed
      ensures Abs() == NotificationProtocol.CloseId(old(Abs()), id)
    {
      if id != 0 && owner.Some? {
        closed := closed + {Handle(generation, id)};
      }
    }

    /** clear_notice on the slot that holds the k-th notice of the list. */
    method Clear(slot: nat, ghost k: nat)
      requires Table() && QueueOk(queue, serial) && k < |queue| && slot == place[queue[k].serial] < LIMIT
      modifies this`queue, notices
      ensures Table() && Abs() == old(Abs()).(queue := Remove(old(queue), k))
      ensures notices[..] == old(notices[..])[slot := Vacant]
    {
      RepresentsRemove(notices[..], queue, place, serial, k);
      notices[slot] := Vacant;
      queue := Remove(queue, k);
    }

    /** The part of send_notice that puts the k-th notice on the bus. */
    method Transmit(slot: nat, ghost k: nat)
      requires Table() && QueueOk(queue, serial) && owner.Some?
      requires slot < LIMIT && IsAt(queue, place, k, slot)
      modifies this`calls, this`notified, this`refs, this`queue, notices
      ensures Table()
      ensures forall i :: 0 <= i < LIMIT && i != slot ==> notices[i] == old(notices[i])
      ensures queue == old(queue[k := queue[k].(pending := false, image := None)])
      ensures notified == old(notified) + multiset{Message(old(Abs()), old(queue[k]))}
      ensures calls == old(calls) + multiset{Delivery(generation, old(queue[k].serial))}
      ensures refs == old(refs) + 1
    {
      assert queue[k] in queue;
      ghost var shown := queue[k].(pending := false, image := None);
      RepresentsUpdate(notices[..], queue, place, serial, k, shown);
      assert notices[..][slot] == Occupied(queue[k]);
      hide QueueOk, Represents;
      var v := notices[slot].notice;
      var call := Delivery(generation, v.serial);
      notified := notified + multiset{Notify(call, owner.value, v.summary, v.body, caps.markup, caps.actions,
                                             if caps.images then v.image else None)};
      calls, refs := calls + multiset{call}, refs + 1;
      notices[slot] := Occupied(v.(pending := false, image := None));
      queue := queue[k := shown];
      assert notices[..] == old(notices[..])[slot := Occupied(shown)];
    }

    method SendPending(slot: nat, ghost k: nat)
      requires Table() && QueueOk(queue, serial) && owner.Some?
      requires slot < LIMIT && IsAt(queue, place, k, slot) && queue[k].pending
      modifies this`calls, this`notified, this`refs, this`queue, notices
      ensures Table()
      ensures forall i :: 0 <= i < LIMIT && i != slot ==> notices[i] == old(notices[i])
      ensures Abs() == Send(old(Abs()), {old(queue[k].serial)})
    {
      SendOne(Abs(), k);
      hide Send, QueueOk, Represents;
      Transmit(slot, k);
    }

    method SendNotice(slot: nat)
      requires slot < LIMIT && Table() && QueueOk(queue, serial) && (ready ==> owner.Some?)
      modifies this`calls, this`notified, this`refs, this`queue, notices
      ensures Table()
      ensures forall i :: 0 <= i < LIMIT && i != slot ==> notices[i] == old(notices[i])
      ensures Abs() == if ready && old(notices[slot]).Occupied?
                       then Send(old(Abs()), {old(notices[slot]).notice.serial}) else old(Abs())
    {
      var v := notices[slot];
      if ready && v.Occupied? {
        assert v.notice in queue && v.notice.serial in place && place[v.notice.serial] == slot;
        ghost var k :| 0 <= k < |queue| && queue[k] == v.notice;
        ghost var before := Abs();
        hide QueueOk, Represents, Send;
        if v.notice.pending {
          SendPending(slot, k);
        } else {
          NotDue(before, v.notice);
        }
      }
    }

    method Dismiss(chat: string)
      requires Valid() && !stopped
      modifies this`closed, this`queue, notices
      ensures Valid() && Abs() == DismissStep(old(Abs()), chat)
    {
      DismissKeepsInv(Abs(), chat);
      ghost var q, k := queue, FindChat(queue, chat);
      var i := 0;
      while i < LIMIT
        invariant i <= LIMIT && Table()
        invariant Abs() == if exists j :: 0 <= j < i && IsAt(q, place, k, j) then DismissStep(old(Abs()), chat)
                           else old(Abs())
        invariant forall j :: i <= j < LIMIT ==> notices[j] == old(notices[j])
      {
        ChatSlot(old(notices[..]), q, place, serial, chat, i);
        hide QueueOk, Inv, Represents;
        var v := notices[i];
        if v.Occupied? && v.notice.chat == chat {
          CloseId(v.notice.id);
          Clear(i, k);
        }
        i := i + 1;
      }
      ghost var j := if k < |q| then place[q[k].serial] else LIMIT;
      assert k < |q| ==> q[k] in q && IsAt(q, place, k, j);
    }

    /** The slot a new notice takes: the first free one, or else that of the oldest notice. */
    method FindSlot() returns (slot: nat)
      requires Valid()
      ensures slot < LIMIT
      ensures if |queue| < LIMIT then notices[slot].Vacant? else IsAt(queue, place, 0, slot)
    {
      FullWhenNoVacancy(notices[..], queue, place, serial);
      slot := 0;
      var i := 0;
      while i < LIMIT
        invariant i <= LIMIT && (slot == 0 || slot < i)
        invariant forall j :: 0 <= j < i ==> notices[j].Occupied?
        invariant forall j :: 0 <= j < i ==> notices[slot].Serial() <= notices[j].Serial()
      {
        if notices[i].Vacant? {
          slot := i;
          assert notices[..][i].Vacant?;
          return;
        }
        if notices[i].Serial() < notices[slot].Serial() {
          slot := i;
        }
        i := i + 1;
      }
      OldestSlot(notices[..], queue, place, serial, slot);
    }

    method Show(chat: string, summary: string, body: string, image: Option<seq<int>>, utf8: bool)
      requires Valid() && !stopped
      modifies this, notices
      ensures Valid()
      ensures Abs() == if utf8 then ShowStep(old(Abs()), chat, summary, body, image) else old(Abs())
    {
      if utf8 {
        ShowIsAppended(Abs(), chat, summary, body, image);
        MakeRoom(Abs(), chat);
        hide Inv, Represents, ShowStep, Appended, NewNotice, DismissStep, EvictStep;
        Dismiss(chat);
        var slot := FindSlot();
        Evict(slot);
        ReplaceChat(slot, chat, summary, body, image);
      }
    }

    /** Fills the freed slot and sends the notice when the daemon is ready. */
    method ReplaceChat(slot: nat, chat: string, summary: string, body: string, image: Option<seq<int>>)
      requires Table() && slot < LIMIT && notices[slot].Vacant? && Inv(Abs()) && |queue| < LIMIT
      requires forall o :: o in queue ==> o.chat != chat
      requires Placed(place, serial)
      modifies this`queue, this`place, this`serial, this`calls, this`notified, this`refs, notices
      ensures Table() && Placed(place, serial)
      ensures Abs() == Appended(old(Abs()), NewNotice(old(Abs()), chat, summary, body, image))
    {
      hide Inv, QueueOk, Represents, Send;
      QueueIsOk(Abs());
      AppendKeepsQueue(queue, serial, NewNotice(Abs(), chat, summary, body, image));
      Insert(slot, chat, summary, body, image);
      assert Placed(place, serial);
      hide Placed;
      SendNotice(slot);
    }

    /** Frees the slot found by FindSlot, asking the daemon to close what it held. */
    method Evict(slot: nat)
      requires Valid() && !stopped && slot < LIMIT
      requires if |queue| < LIMIT then notices[slot].Vacant? else IsAt(queue, place, 0, slot)
      modifies this`closed, this`queue, notices
      ensures Valid() && notices[slot].Vacant?
      ensures Abs() == EvictStep(old(Abs()))
    {
      EvictKeepsInv(Abs());
      var v := notices[slot];
      CloseId(v.Id());
      if v.Occupied? {
        assert v.notice == queue[0];
        Clear(slot, 0);
        assert Remove(old(queue), 0) == old(queue)[1..];
      }
    }

    method Insert(slot: nat, chat: string, summary: string, body: string, image: Option<seq<int>>)
      requires Table() && QueueOk(queue, serial) && slot < LIMIT && notices[slot].Vacant?
      modifies this`queue, this`place, this`serial, notices
      ensures place == old(place)[serial := slot]
      ensures Table() && notices[slot] == Occupied(NewNotice(old(Abs()), chat, summary, body, image))
      ensures Abs() == old(Abs()).(queue := old(queue) + [NewNotice(old(Abs()), chat, summary, body, image)],
                                   serial := old(serial) + 1)
    {
      hide Represents, QueueOk;
      RepresentsAll(notices[..], queue, place);
      ghost var before, slots := Abs(), notices[..];
      var wanted := if ready && !caps.images then None else image;
      serial := serial + 1;
      var v := Notice(chat, summary, body, wanted, None, 0, serial, true);
      assert v == NewNotice(before, chat, summary, body, image);
      RepresentsAppend(slots, queue, place, old(serial), slot, v);
      notices[slot] := Occupied(v);
      queue := queue + [v];
      place := place[serial := slot];
      hide NewNotice;
      assert notices[..] == slots[slot := Occupied(v)];
    }

    /** release: the object is gone when the last reference is. */
    method Release()
      requires refs > 0 && Table()
      modifies this`refs, this`queue, notices
      ensures Table() && Abs() == NotificationProtocol.Release(old(Abs()))
    {
      refs := refs - 1;
      if refs == 0 {
        ClearAll();
      }
    }

    /** The end of every reply callback. */
    method Finish(c: Call)
      requires refs > 0 && Table()
      modifies this`refs, this`queue, this`calls, notices
      ensures Table()
      ensures var s := old(Abs()); Abs() == NotificationProtocol.Release(s.(calls := s.calls - multiset{c}))
    {
      hide Represents;
      calls := calls - multiset{c};
      Release();
    }

    method ClearAll()
      requires notices.Length == LIMIT
      modifies this`queue, notices
      ensures Table() && queue == []
    {
      var i := 0;
      while i < LIMIT
        invariant i <= LIMIT
        invariant forall j :: 0 <= j < i ==> notices[j].Vacant?
      {
        notices[i] := Vacant;
        i := i + 1;
      }
      queue := [];
    }

    method Appeared(name: string)
      requires Valid() && !stopped && owner.None?
      modifies this
      ensures Valid() && Abs() == AppearedStep(old(Abs()), name)
    {
      hide Inv, Placed, Represents;
      AppearedKeepsInv(Abs(), name);
      generation := generation + 1;
      ready := false;
      owner := Some(name);
      owners := owners[generation := name];
      calls, refs := calls + multiset{GetCapabilities(generation)}, refs + 1;
      assert Abs() == AppearedStep(old(Abs()), name);
    }

    method Vanished()
      requires Valid() && !stopped
      modifies this, notices
      ensures Valid() && Abs() == VanishedStep(old(Abs()))
    {
      assert notices.Length == LIMIT;
      hide Inv, Represents, Placed;
      VanishedKeepsInv(Abs());
      generation := generation + 1;
      ready := false;
      owner := None;
      ClearAll();
    }

    /** zc_notifications_free: the last call of the owner. */
    method Free()
      requires Valid() && !stopped
      modifies this, notices
      ensures Valid() && Abs() == FreeStep(old(Abs()))
    {
      hide Inv, Represents, Placed;
      FreeKeepsInv(Abs());
      ghost var s := Abs();
      assert refs > 0 by { LiveHasReferences(s); }
      stopped := true;
      CloseHeld();
      Release();
      assert Abs() == FreeStep(s);
    }

    method CloseHeld()
      requires Table()
      modifies this`closed
      ensures closed == if owner.Some? then old(closed) + HeldHandles(old(Abs())) else old(closed)
    {
      AllHandles(Abs(), notices[..], place);
      var i := 0;
      while i < LIMIT
        invariant i <= LIMIT
        invariant closed == if owner.Some? then old(closed) + FirstHandles(notices[..], i, generation) else old(closed)
      {
        CloseId(notices[i].Id());
        i := i + 1;
      }
    }

    /** The callback of GetCapabilities. */
    method Capabilities(c: Call, reply: Option<Caps>)
      requires Valid() && c.GetCapabilities? && c in calls
      modifies this, notices
      ensures Valid() && Abs() == CapabilitiesStep(old(Abs()), c, reply)
    {
      hide Inv, Represents, QueueOk, ReadyStep, Placed, NotificationProtocol.Release;
      ghost var s := Abs();
      QueueIsOk(s);
      CallFacts(s, c);
      CapabilitiesKeepsInv(s, c, reply);
      if !stopped && c.generation == generation {
        BecomeReady(reply);
      }
      Finish(c);
    }

    method BecomeReady(reply: Option<Caps>)
      requires Table() && QueueOk(queue, serial) && owner.Some?
      modifies this`caps, this`ready, this`calls, this`notified, this`refs, this`queue, notices
      ensures Table() && Abs() == ReadyStep(old(Abs()), reply)
    {
      hide Send, QueueOk, Represents;
      caps := if reply.Some? then reply.value else NO_CAPS;
      ready := true;
      SendAll();
    }

    method SendAll()
      requires Table() && QueueOk(queue, serial) && ready && owner.Some?
      modifies this`calls, this`notified, this`refs, this`queue, notices
      ensures Table() && refs >= old(refs)
      ensures Abs() == Send(old(Abs()), Serials(old(queue)))
    {
      hide QueueOk, Represents, Send, SlotSerials, Serials;
      ghost var s, slots := Abs(), notices[..];
      SendStarts(s, slots, place);
      var i := 0;
      while i < LIMIT
        invariant i <= LIMIT && Table()
        invariant Abs() == Send(s, SlotSerials(slots, i))
        invariant forall j :: i <= j < LIMIT ==> notices[j] == slots[j]
      {
        SendSlot(s, slots, place, i);
        SendNotice(i);
        i := i + 1;
      }
    }

    /** Rewrites the notice in `slot`, keeping its serial. */
    method Rewrite(slot: nat, v: Notice, ghost k: nat)
      requires Table() && QueueOk(queue, serial)
      requires slot < LIMIT && IsAt(queue, place, k, slot) && v.serial == queue[k].serial
      modifies this`queue, notices
      ensures Table() && Abs() == old(Abs()).(queue := old(queue)[k := v])
    {
      RepresentsUpdate(notices[..], queue, place, serial, k, v);
      hide QueueOk, Represents;
      notices[slot] := Occupied(v);
      queue := queue[k := v];
      assert notices[..] == old(notices[..])[slot := Occupied(v)];
    }

    /** The callback of Notify: `slot` is where the notice was when it was sent. */
    method Notified(c: Call, slot: nat, reply: Option<nat>)
      requires Valid() && c.Delivery? && c in calls && c.serial in place && place[c.serial] == slot < LIMIT
      requires reply.Some? ==> reply.value != 0 && Fresh(Abs(), c.generation, reply.value)
      modifies this, notices
      ensures Valid() && Abs() == NotifyReplyStep(old(Abs()), c, reply)
    {
      hide Inv, Represents, QueueOk, Fresh, ResolveStep, Placed;
      QueueIsOk(Abs());
      CallFacts(Abs(), c);
      NotifyReplyKeepsInv(Abs(), c, reply);
      Resolve(c, slot, reply);
      Finish(c);
    }

    method Resolve(c: Call, slot: nat, reply: Option<nat>)
      requires Table() && QueueOk(queue, serial) && c.Delivery? && 0 < c.serial
      requires c.serial in place && place[c.serial] == slot < LIMIT
      modifies this`queue, this`closed, this`delivered, notices
      ensures Table() && Abs() == ResolveStep(old(Abs()), c, reply)
    {
      ghost var k := FindSerial(queue, c.serial);
      SerialSlot(notices[..], queue, place, serial, c.serial);
      assert notices.Length == LIMIT;
      hide Represents, QueueOk, FindSerial;
      var v := notices[slot];
      if reply.Some? {
        delivered := delivered + {Handle(c.generation, reply.value)};
        if !stopped && c.generation == generation {
          if v.Occupied? && v.notice.serial == c.serial {
            Rewrite(slot, v.notice.(id := reply.value), k);
          } else {
            CloseId(reply.value);
          }
        }
      } else if c.generation == generation && v.Serial() == c.serial {
        Clear(slot, k);
      }
    }

    /** signal_received: at most one notice answers to the id. */
    method SignalReceived(sender: string, kind: SignalKind, id: nat, value: string)
      requires Valid() && !stopped
      modifies this, notices
      ensures Valid() && Abs() == SignalStep(old(Abs()), sender, kind, id, value)
    {
      hide Inv, Represents, QueueOk, Placed, FindId, AnswerIdStep;
      SignalKeepsInv(Abs(), sender, kind, id, value);
      QueueIsOk(Abs());
      if owner == Some(sender) && !kind.Other? {
        if kind.NotificationClosed? {
          reported := reported + {Handle(generation, id)};
        }
        AnswerId(kind, id, value);
      }
    }

    /** Looks for the notice the daemon calls `id`. */
    method AnswerId(kind: SignalKind, id: nat, value: string)
      requires Table() && QueueOk(queue, serial)
      modifies this`queue, this`invoked, notices
      ensures Table() && Abs() == AnswerIdStep(old(Abs()), kind, id, value)
    {
      ghost var k := FindId(queue, id);
      if k < |queue| {
        assert queue[k] in queue;
        assert IsAt(queue, place, k, place[queue[k].serial]);
      }
      var i := 0;
      while i < LIMIT
        invariant i <= LIMIT && notices[..] == old(notices[..])
        invariant Abs() == old(Abs())
        invariant forall j :: 0 <= j < i ==> !IsAt(queue, place, k, j)
      {
        IdSlot(notices[..], queue, place, serial, id, i);
        hide Represents, QueueOk;
        var v := notices[i];
        if v.Occupied? && id != 0 && v.notice.id == id {
          Answer(i, kind, value, k);
          return;
        }
        i := i + 1;
      }
    }

    /** What a signal does to the notice it names. The action callback may come back into the object. */
    method Answer(slot: nat, kind: SignalKind, value: string, ghost k: nat)
      requires Table() && QueueOk(queue, serial) && slot < LIMIT
      requires IsAt(queue, place, k, slot) && notices[slot] == Occupied(queue[k])
      modifies this`queue, this`invoked, notices
      ensures Table()
      ensures Abs() == AnswerStep(old(Abs()), kind, k, value)
    {
      assert notices.Length == LIMIT;
      hide Represents, QueueOk;
      var v := notices[slot].notice;
      if kind.ActivationToken? {
        Rewrite(slot, v.(token := Some(value)), k);
      } else if kind.ActionInvoked? {
        if value == "default" {
          invoked := invoked + [(v.chat, if v.token.Some? then v.token.value else "")];
        }
      } else if kind.NotificationClosed? {
        Clear(slot, k);
      }
    }
  }
}
