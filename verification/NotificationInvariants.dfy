/** Every step of the notification client keeps its invariant. */
module NotificationInvariants {
  import opened Common
  import opened NotificationProtocol

  // ----- Removing a notice -----

  lemma RemoveMembers(q: seq<Notice>, k: nat)
    requires k < |q|
    ensures forall e :: e in Remove(q, k) ==> e in q
    ensures forall e :: e in q && e != q[k] ==> e in Remove(q, k)
  {
    var r := Remove(q, k);
    forall e | e in q && e != q[k] ensures e in r {
      var i :| 0 <= i < |q| && q[i] == e;
      assert r[if i < k then i else i - 1] == e;
    }
  }

  /** Where position `i` of the shortened queue was before. */
  function Before(k: nat, i: nat): nat {
    if i < k then i else i + 1
  }

  lemma RemoveKeepsQueue(q: seq<Notice>, serial: nat, k: nat)
    requires QueueOk(q, serial) && k < |q|
    ensures QueueOk(Remove(q, k), serial)
  {
    RemoveMembers(q, k);
    var r := Remove(q, k);
    hide Remove;
    forall i, j | 0 <= i < j < |r|
      ensures r[i].serial < r[j].serial
      ensures r[i].chat != r[j].chat
      ensures r[i].id != 0 ==> r[i].id != r[j].id
    {
      assert r[i] == q[Before(k, i)];
      assert r[j] == q[Before(k, j)];
    }
  }

  lemma RemoveIsClean(q: seq<Notice>, serial: nat, k: nat)
    requires QueueOk(q, serial) && k < |q|
    ensures forall e :: e in Remove(q, k) ==>
      e.chat != q[k].chat && e.serial != q[k].serial && (e.id != 0 ==> e.id != q[k].id)
  {
    var r := Remove(q, k);
    forall e | e in r
      ensures e.chat != q[k].chat && e.serial != q[k].serial && (e.id != 0 ==> e.id != q[k].id)
    {
      var i :| 0 <= i < |r| && r[i] == e;
      assert q[Before(k, i)] == e;
    }
  }

  lemma RemoveKeepsHeld(q: seq<Notice>, k: nat, id: nat)
    requires k < |q| && q[k].id != id
    ensures Held(Remove(q, k), id) <==> Held(q, id)
  {
    RemoveMembers(q, k);
    if Held(q, id) {
      var e :| e in q && e.id == id;
      assert e in Remove(q, k);
    }
  }

  /** A notice may go once the daemon was asked to close it, said so, or never named it. */
  lemma RemoveKeepsAccounted(s: State, k: nat, closed: set<Handle>, reported: set<Handle>)
    requires Core(s) && !s.stopped && k < |s.queue|
    requires s.closed <= closed <= s.closed + {Handle(s.generation, s.queue[k].id)}
    requires s.reported <= reported
    requires s.queue[k].id != 0 ==> Handle(s.generation, s.queue[k].id) in closed + reported
    ensures Accounted(s.generation, Remove(s.queue, k), s.delivered, closed, reported)
  {
    RemoveIsClean(s.queue, s.serial, k);
    var r := Remove(s.queue, k);
    forall h | h in s.delivered && h.generation == s.generation && h !in reported
      ensures Held(r, h.id) <==> h !in closed
    {
      if h.id != s.queue[k].id {
        RemoveKeepsHeld(s.queue, k, h.id);
      }
    }
  }

  lemma RemoveKeepsCore(s: State, k: nat, closed: set<Handle>, reported: set<Handle>)
    requires Core(s) && k < |s.queue|
    requires s.closed <= closed <= s.closed + {Handle(s.generation, s.queue[k].id)}
    requires closed == s.closed || s.queue[k].id != 0
    requires s.reported <= reported
    requires s.queue[k].id != 0 ==> Handle(s.generation, s.queue[k].id) in closed + reported
    ensures Core(s.(queue := Remove(s.queue, k), closed := closed, reported := reported))
  {
    RemoveKeepsQueue(s.queue, s.serial, k);
    RemoveMembers(s.queue, k);
    assert s.queue[k] in s.queue;
    if !s.stopped {
      RemoveKeepsAccounted(s, k, closed, reported);
    }
  }

  lemma DismissKeepsInv(s: State, chat: string)
    requires Inv(s) && !s.stopped
    ensures var t := DismissStep(s, chat); Inv(t) && t == s.(queue := t.queue, closed := t.closed)
    ensures forall e :: e in DismissStep(s, chat).queue ==> e.chat != chat && e in s.queue
  {
    var k := FindChat(s.queue, chat);
    if k < |s.queue| {
      CloseAndRemove(s, k);
      RemoveIsClean(s.queue, s.serial, k);
      RemoveMembers(s.queue, k);
    }
  }

  lemma CloseAndRemove(s: State, k: nat)
    requires Core(s) && k < |s.queue|
    ensures Core(CloseId(s, s.queue[k].id).(queue := Remove(s.queue, k)))
  {
    assert s.queue[k] in s.queue;
    RemoveKeepsCore(s, k, CloseId(s, s.queue[k].id).closed, s.reported);
  }

  lemma EvictKeepsInv(s: State)
    requires Inv(s) && !s.stopped
    ensures var t := EvictStep(s); Inv(t) && |t.queue| < LIMIT && t == s.(queue := t.queue, closed := t.closed)
    ensures forall e :: e in EvictStep(s).queue ==> e in s.queue
  {
    if |s.queue| >= LIMIT {
      CloseAndRemove(s, 0);
      RemoveMembers(s.queue, 0);
      assert Remove(s.queue, 0) == s.queue[1..];
    }
  }

  // ----- Showing a notice -----

  lemma AppendKeepsQueue(q: seq<Notice>, serial: nat, e: Notice)
    requires QueueOk(q, serial) && |q| < LIMIT
    requires e.id == 0 && e.serial == serial + 1
    requires forall o :: o in q ==> o.chat != e.chat
    ensures QueueOk(q + [e], serial + 1)
  {
    var r := q + [e];
    forall o | o in r ensures 0 < o.serial <= serial + 1 {}
    forall i, j | 0 <= i < j < |r|
      ensures r[i].serial < r[j].serial && r[i].chat != r[j].chat && (r[i].id != 0 ==> r[i].id != r[j].id)
    {
      assert r[i] in q;
    }
  }

  lemma AppendKeepsHeld(q: seq<Notice>, e: Notice, id: nat)
    requires e.id != id
    ensures Held(q + [e], id) <==> Held(q, id)
  {
    if Held(q, id) {
      var o :| o in q && o.id == id;
      assert o in q + [e];
    }
  }

  lemma AppendKeepsCore(s: State, e: Notice)
    requires Core(s) && !s.stopped && |s.queue| < LIMIT
    requires e.pending && e.id == 0 && e.serial == s.serial + 1
    requires forall o :: o in s.queue ==> o.chat != e.chat
    ensures Core(s.(queue := s.queue + [e], serial := e.serial))
  {
    AppendKeepsQueue(s.queue, s.serial, e);
    var q := s.queue + [e];
    assert forall o :: o in q <==> o in s.queue || o == e;
    assert Accounted(s.generation, q, s.delivered, s.closed, s.reported) by {
      forall h | h in s.delivered && h.generation == s.generation && h !in s.reported
        ensures Held(q, h.id) <==> h !in s.closed
      {
        AppendKeepsHeld(s.queue, e, h.id);
      }
    }
  }

  // ----- Sending -----

  /** Each notice after sending, traced back to what it was. */
  lemma MarkedFrom(q: seq<Notice>, serials: set<nat>, e: Notice) returns (o: Notice)
    requires e in MarkSent(q, serials)
    ensures o in q && o.serial == e.serial && o.id == e.id && o.chat == e.chat
    ensures if o in Due(q, serials) then e == o.(pending := false, image := None) else e == o
  {
    var i :| 0 <= i < |q| && MarkSent(q, serials)[i] == e;
    o := q[i];
  }

  lemma MarkKeepsQueue(q: seq<Notice>, serial: nat, serials: set<nat>)
    requires QueueOk(q, serial)
    ensures QueueOk(MarkSent(q, serials), serial)
    ensures forall id :: Held(MarkSent(q, serials), id) <==> Held(q, id)
  {
    var r := MarkSent(q, serials);
    assert forall i :: 0 <= i < |q| ==> r[i].serial == q[i].serial && r[i].chat == q[i].chat && r[i].id == q[i].id;
    forall e | e in r ensures 0 < e.serial <= serial {
      var o := MarkedFrom(q, serials, e);
    }
    forall id ensures Held(r, id) <==> Held(q, id) {
      if Held(q, id) {
        var i :| 0 <= i < |q| && q[i].id == id;
        assert r[i] in r;
      }
      if Held(r, id) {
        var e :| e in r && e.id == id;
        var o := MarkedFrom(q, serials, e);
      }
    }
  }

  lemma SameSerial(q: seq<Notice>, serial: nat, e: Notice, o: Notice)
    requires QueueOk(q, serial) && e in q && o in q && e.serial == o.serial
    ensures e == o
  {
    var i :| 0 <= i < |q| && q[i] == e;
    var j :| 0 <= j < |q| && q[j] == o;
  }

  /** A message new on the bus belongs to one of the notices that were due. */
  lemma NewMessage(s: State, serials: set<nat>, m: Notify) returns (e: Notice)
    requires s.owner.Some? && OnceOk(s.notified, s.serial, s.queue)
    requires m in Send(s, serials).notified && m !in s.notified
    ensures e in Due(s.queue, serials) && m == Message(s, e)
    ensures Send(s, serials).notified[m] == 1
  {
    e :| e in Due(s.queue, serials) && m == Message(s, e);
  }

  lemma OldMessage(s: State, serials: set<nat>, m: Notify)
    requires s.owner.Some? && OnceOk(s.notified, s.serial, s.queue)
    requires m in s.notified
    ensures Send(s, serials).notified[m] == 1
  {
    if e :| e in Due(s.queue, serials) && m == Message(s, e) {
      assert Announced(s.notified, e.serial);
    }
  }

  lemma SendKeepsOnce(s: State, serials: set<nat>)
    requires s.owner.Some? && QueueOk(s.queue, s.serial) && OnceOk(s.notified, s.serial, s.queue)
    ensures var t := Send(s, serials); OnceOk(t.notified, t.serial, t.queue)
  {
    var t := Send(s, serials);
    forall m | m in t.notified ensures 0 < m.call.serial <= t.serial && t.notified[m] == 1 {
      if m in s.notified {
        OldMessage(s, serials, m);
      } else {
        var e := NewMessage(s, serials, m);
      }
    }
    forall m, n | m in t.notified && n in t.notified && m.call.serial == n.call.serial ensures m == n {
      if m !in s.notified {
        var e := NewMessage(s, serials, m);
        assert !Announced(s.notified, e.serial);
        var o := NewMessage(s, serials, n);
        SameSerial(s.queue, s.serial, e, o);
      } else if n !in s.notified {
        var o := NewMessage(s, serials, n);
      }
    }
    forall e | e in t.queue && e.pending ensures e.id == 0 && !Announced(t.notified, e.serial) {
      var o := MarkedFrom(s.queue, serials, e);
      if m :| m in t.notified && m.call.serial == e.serial {
        if m !in s.notified {
          var d := NewMessage(s, serials, m);
          SameSerial(s.queue, s.serial, d, o);
        }
      }
    }
  }

  lemma SendKeepsAnnounced(s: State, serials: set<nat>, c: Call)
    requires OnceOk(s.notified, s.serial, s.queue) && CallsOk(s.calls, s.notified, s.generation, s.owners, s.queue)
    requires s.owner.Some? && c.Delivery? && c in Send(s, serials).calls
    ensures Send(s, serials).calls[c] == 1 && Announced(Send(s, serials).notified, c.serial)
  {
    hide MarkSent;
    var t := Send(s, serials);
    var due := Due(s.queue, serials);
    if e :| e in due && c == Delivery(s.generation, e.serial) {
      assert !Announced(s.notified, e.serial);
      assert Message(s, e) in t.notified;
    } else {
      var m :| m in s.notified && m.call.serial == c.serial;
      assert m in t.notified;
    }
  }

  lemma SendKeepsNamed(s: State, serials: set<nat>, e: Notice)
    requires QueueOk(s.queue, s.serial) && OnceOk(s.notified, s.serial, s.queue)
    requires CallsOk(s.calls, s.notified, s.generation, s.owners, s.queue)
    requires s.owner.Some? && e in MarkSent(s.queue, serials) && Delivery(s.generation, e.serial) in Send(s, serials).calls
    ensures !e.pending && e.id == 0
  {
    var due := Due(s.queue, serials);
    var o := MarkedFrom(s.queue, serials, e);
    hide MarkSent, QueueOk;
    if Delivery(s.generation, e.serial) !in s.calls {
      var d :| d in due && d.serial == e.serial;
      SameSerial(s.queue, s.serial, d, o);
    }
  }

  lemma SendKeepsCalls(s: State, serials: set<nat>)
    requires Core(s) && s.owner.Some?
    ensures var t := Send(s, serials); CallsOk(t.calls, t.notified, t.generation, t.owners, t.queue)
  {
    hide Core, Send, QueueOk, OwnerOk, OnceOk, RefsOk, LedgerOk, Accounted, Announced;
    CoreParts(s);
    var t := Send(s, serials);
    SendKeepsOwners(s, serials);
    SentCallsFit(s, serials);
  }

  lemma SentCallsFit(s: State, serials: set<nat>)
    requires QueueOk(s.queue, s.serial) && OnceOk(s.notified, s.serial, s.queue)
    requires CallsOk(s.calls, s.notified, s.generation, s.owners, s.queue) && s.owner.Some?
    ensures var t := Send(s, serials);
            && (forall c :: c in t.calls && c.Delivery? ==> t.calls[c] == 1 && Announced(t.notified, c.serial))
            && (forall e :: e in t.queue && Delivery(t.generation, e.serial) in t.calls ==> !e.pending && e.id == 0)
  {
    hide QueueOk, OnceOk, CallsOk, Announced, Due, Deliveries, Messages, MarkSent;
    var t := Send(s, serials);
    forall c | c in t.calls && c.Delivery? ensures t.calls[c] == 1 && Announced(t.notified, c.serial) {
      SendKeepsAnnounced(s, serials, c);
    }
    forall e | e in t.queue && Delivery(t.generation, e.serial) in t.calls ensures !e.pending && e.id == 0 {
      SendKeepsNamed(s, serials, e);
    }
  }

  lemma CoreParts(s: State)
    requires Core(s)
    ensures QueueOk(s.queue, s.serial) && OnceOk(s.notified, s.serial, s.queue) && OwnerOk(s.generation, s.owner, s.owners)
    ensures CallsOk(s.calls, s.notified, s.generation, s.owners, s.queue)
  {
  }

  lemma SendKeepsOwners(s: State, serials: set<nat>)
    requires CallsOk(s.calls, s.notified, s.generation, s.owners, s.queue) && OwnerOk(s.generation, s.owner, s.owners) && s.owner.Some?
    ensures var t := Send(s, serials);
            t.owners == s.owners && t.generation == s.generation && forall c :: c in t.calls ==> c.generation in t.owners
  {
    hide MarkSent, Messages, Announced;
    var t := Send(s, serials);
    forall c | c in t.calls ensures c.generation in t.owners {
      assert c in s.calls || c in Deliveries(s.generation, Due(s.queue, serials));
    }
  }

  lemma SendKeepsCore(s: State, serials: set<nat>)
    requires Core(s) && s.owner.Some? && !s.stopped
    ensures Core(Send(s, serials))
    ensures Send(s, serials).ready == s.ready && Send(s, serials).owner == s.owner
    ensures forall e :: e in Send(s, serials).queue && e.pending ==> e in s.queue && e.serial !in serials
  {
    var t := Send(s, serials);
    SendKeepsOnce(s, serials);
    SendKeepsCalls(s, serials);
    MarkKeepsQueue(s.queue, s.serial, serials);
    forall e | e in t.queue
      ensures e.pending ==> e in s.queue && e.serial !in serials
      ensures e.id != 0 ==> Handle(s.generation, e.id) in s.delivered
    {
      var o := MarkedFrom(s.queue, serials, e);
    }
  }

  // ----- The steps -----

  /** Dropping notices touches nothing but the queue and the list of closed notifications. */
  lemma MakeRoom(s: State, chat: string)
    requires Inv(s) && !s.stopped
    ensures var t := EvictStep(DismissStep(s, chat));
      && Inv(t) && |t.queue| < LIMIT
      && t == s.(queue := t.queue, closed := t.closed)
      && forall e :: e in t.queue ==> e.chat != chat
  {
    hide Inv, DismissStep, EvictStep;
    DismissKeepsInv(s, chat);
    EvictKeepsInv(DismissStep(s, chat));
  }

  lemma QueueKeepsCore(s: State, chat: string, summary: string, body: string, image: Option<seq<int>>)
    requires Inv(s) && !s.stopped
    ensures var t := QueueStep(s, chat, summary, body, image);
      && Core(t)
      && (s.ready ==> forall o :: o in t.queue && o.pending ==> o.serial == s.serial + 1)
      && t == s.(queue := t.queue, closed := t.closed, serial := s.serial + 1)
  {
    hide Core, DismissStep, EvictStep;
    MakeRoom(s, chat);
    AppendKeepsCore(EvictStep(DismissStep(s, chat)), NewNotice(s, chat, summary, body, image));
  }

  lemma ShowKeepsInv(s: State, chat: string, summary: string, body: string, image: Option<seq<int>>)
    requires Inv(s) && !s.stopped
    ensures Inv(ShowStep(s, chat, summary, body, image))
  {
    hide Core, QueueStep, Send;
    QueueKeepsCore(s, chat, summary, body, image);
    if s.ready {
      SendKeepsCore(QueueStep(s, chat, summary, body, image), {s.serial + 1});
    }
  }

  lemma FreeKeepsInv(s: State)
    requires Inv(s) && !s.stopped
    ensures Inv(FreeStep(s))
  {
  }

  lemma AppearedKeepsInv(s: State, name: string)
    requires Inv(s) && !s.stopped && s.owner.None?
    ensures Inv(AppearedStep(s, name))
  {
    forall e | e in s.queue ensures e.id == 0 {}
    forall h | h in s.delivered ensures h.generation <= s.generation {}
    forall e | e in s.queue ensures Delivery(s.generation + 1, e.serial) !in s.calls {}
  }

  lemma VanishedKeepsInv(s: State)
    requires Inv(s) && !s.stopped
    ensures Inv(VanishedStep(s))
  {
    forall h | h in s.delivered ensures h.generation <= s.generation {}
  }

  lemma AnsweredKeepsCore(s: State, c: Call)
    requires Core(s) && c in s.calls
    ensures Core(Release(s.(calls := s.calls - multiset{c})))
  {
    var calls := s.calls - multiset{c};
    assert |calls| == |s.calls| - 1;
    assert forall d :: d in calls ==> d in s.calls;
    assert forall d :: d in calls && d.Delivery? ==> calls[d] == 1;
  }

  lemma CapabilitiesKeepsInv(s: State, c: Call, caps: Option<Caps>)
    requires Inv(s) && c in s.calls
    ensures Inv(CapabilitiesStep(s, c, caps))
  {
    OwnerOfCall(s, c);
    hide Core, ReadyStep, NothingWaits;
    NothingWaitsInNone();
    if !s.stopped && c.generation == s.generation {
      ReadyKeepsCore(s, c, caps);
      AnsweredKeepsCore(ReadyStep(s, caps), c);
    } else {
      AnsweredKeepsCore(s, c);
    }
  }

  lemma NothingWaitsInNone()
    ensures NothingWaits([])
  {
  }

  lemma ReadyKeepsCore(s: State, c: Call, caps: Option<Caps>)
    requires Core(s) && !s.stopped && s.owner.Some? && c in s.calls
    ensures var t := ReadyStep(s, caps);
            Core(t) && NothingWaits(t.queue) && t.owner.Some? && c in t.calls
  {
    hide QueueOk, OwnerOk, OnceOk, CallsOk, RefsOk, LedgerOk, Accounted;
    var known := s.(ready := true, caps := if caps.Some? then caps.value else NO_CAPS);
    SendKeepsCore(known, Serials(known.queue));
  }

  lemma OwnerOfCall(s: State, c: Call)
    requires Inv(s) && c in s.calls
    ensures c.generation == s.generation ==> s.owner.Some?
    ensures Core(s) && s.refs > 0
  {
    assert c.generation in s.owners;
  }

  lemma UpdateKeepsQueue(q: seq<Notice>, serial: nat, k: nat, e: Notice)
    requires QueueOk(q, serial) && k < |q|
    requires e.serial == q[k].serial && e.chat == q[k].chat
    requires e.id != 0 ==> forall j :: 0 <= j < |q| && j != k ==> q[j].id != e.id
    ensures QueueOk(q[k := e], serial)
    ensures forall o :: o in q[k := e] ==> o in q || o == e
  {
    var r := q[k := e];
    forall o | o in r ensures (o in q || o == e) && 0 < o.serial <= serial {
      assert q[k] in q;
    }
  }

  lemma UpdateKeepsHeld(q: seq<Notice>, k: nat, e: Notice, id: nat)
    requires k < |q| && (q[k].id == id <==> e.id == id)
    ensures Held(q[k := e], id) <==> Held(q, id)
  {
    if Held(q, id) {
      var j :| 0 <= j < |q| && q[j].id == id;
      assert q[k := e][j] in q[k := e];
    }
    if Held(q[k := e], id) {
      var j :| 0 <= j < |q| && q[k := e][j].id == id;
      assert q[j] in q;
    }
  }

  /** A token is all that a signal may change in a notice it keeps. */
  lemma IdIsItsOwn(q: seq<Notice>, serial: nat, k: nat)
    requires QueueOk(q, serial) && k < |q|
    ensures q[k].id != 0 ==> forall j :: 0 <= j < |q| && j != k ==> q[j].id != q[k].id
  {
  }

  lemma TokenKeepsCore(s: State, k: nat, token: Option<string>)
    requires Core(s) && k < |s.queue|
    ensures Core(s.(queue := s.queue[k := s.queue[k].(token := token)]))
  {
    hide QueueOk, OwnerOk, OnceOk, CallsOk, LedgerOk, Accounted, RefsOk;
    var e := s.queue[k].(token := token);
    IdIsItsOwn(s.queue, s.serial, k);
    UpdateKeepsQueue(s.queue, s.serial, k, e);
    LikeKeepsOnce(s.notified, s.serial, s.queue, k, e);
    LikeKeepsCalls(s.calls, s.notified, s.generation, s.owners, s.queue, k, e);
    LikeKeepsLedger(s.generation, s.owners, s.queue, s.delivered, s.closed, k, e);
    if !s.stopped { LikeKeepsAccounts(s.generation, s.queue, s.delivered, s.closed, s.reported, k, e); }
  }

  /** An updated notice that the daemon and its calls take for the same. */
  predicate Like(e: Notice, o: Notice) { e.id == o.id && e.serial == o.serial && e.pending == o.pending }

  lemma UpdatedFrom(q: seq<Notice>, k: nat, e: Notice, x: Notice) returns (o: Notice)
    requires k < |q| && Like(e, q[k]) && x in q[k := e]
    ensures o in q && Like(x, o)
  {
    var i :| 0 <= i < |q| && q[k := e][i] == x;
    o := q[i];
  }

  lemma LikeKeepsOnce(sent: multiset<Notify>, serial: nat, q: seq<Notice>, k: nat, e: Notice)
    requires OnceOk(sent, serial, q) && k < |q| && Like(e, q[k])
    ensures OnceOk(sent, serial, q[k := e])
  {
    hide Announced;
    forall x | x in q[k := e] && x.pending ensures x.id == 0 && !Announced(sent, x.serial) {
      var o := UpdatedFrom(q, k, e, x);
    }
  }

  lemma LikeKeepsCalls(calls: multiset<Call>, sent: multiset<Notify>, generation: nat, owners: map<nat, string>,
                       q: seq<Notice>, k: nat, e: Notice)
    requires CallsOk(calls, sent, generation, owners, q) && k < |q| && Like(e, q[k])
    ensures CallsOk(calls, sent, generation, owners, q[k := e])
  {
    hide Announced;
    forall x | x in q[k := e] && Delivery(generation, x.serial) in calls ensures !x.pending && x.id == 0 {
      var o := UpdatedFrom(q, k, e, x);
    }
  }

  lemma LikeKeepsLedger(generation: nat, owners: map<nat, string>, q: seq<Notice>, delivered: set<Handle>, closed: set<Handle>,
                        k: nat, e: Notice)
    requires LedgerOk(generation, owners, q, delivered, closed) && k < |q| && Like(e, q[k])
    ensures LedgerOk(generation, owners, q[k := e], delivered, closed)
  {
    forall x | x in q[k := e] && x.id != 0 ensures Handle(generation, x.id) in delivered {
      var o := UpdatedFrom(q, k, e, x);
    }
  }

  lemma LikeKeepsAccounts(generation: nat, q: seq<Notice>, delivered: set<Handle>, closed: set<Handle>, reported: set<Handle>,
                          k: nat, e: Notice)
    requires Accounted(generation, q, delivered, closed, reported) && k < |q| && Like(e, q[k])
    ensures Accounted(generation, q[k := e], delivered, closed, reported)
  {
    hide Held;
    forall h | h in delivered ensures Held(q[k := e], h.id) <==> Held(q, h.id) {
      UpdateKeepsHeld(q, k, e, h.id);
    }
  }

  /** A reply that names its notice. */
  lemma NamedKeepsCore(s: State, c: Call, id: nat, k: nat)
    requires Core(s) && !s.stopped && c in s.calls && c.Delivery? && c.generation == s.generation
    requires id != 0 && Fresh(s, c.generation, id)
    requires k < |s.queue| && s.queue[k].serial == c.serial
    ensures var t := s.(delivered := s.delivered + {Handle(c.generation, id)},
                        queue := s.queue[k := s.queue[k].(id := id)]);
      Core(Release(t.(calls := t.calls - multiset{c})))
  {
    var old_ := s.queue[k];
    assert old_ in s.queue;
    assert c == Delivery(s.generation, old_.serial);
    var e := old_.(id := id);
    var q := s.queue[k := e];
    var delivered := s.delivered + {Handle(c.generation, id)};
    var calls := s.calls - multiset{c};
    assert Handle(s.generation, id) !in s.delivered;
    forall j | 0 <= j < |s.queue| ensures s.queue[j].id != id {
      assert s.queue[j] in s.queue;
    }
    UpdateKeepsQueue(s.queue, s.serial, k, e);
    assert Accounted(s.generation, q, delivered, s.closed, s.reported) by {
      forall h | h in delivered && h.generation == s.generation && h !in s.reported
        ensures Held(q, h.id) <==> h !in s.closed
      {
        if h.id == id {
          assert q[k] in q;
        } else {
          UpdateKeepsHeld(s.queue, k, e, h.id);
        }
      }
    }
    assert calls[c] == 0;
    assert CallsOk(calls, s.notified, s.generation, s.owners, q);
    assert |calls| == |s.calls| - 1;
  }

  lemma NotifyReplyKeepsInv(s: State, c: Call, id: Option<nat>)
    requires Inv(s) && c in s.calls && c.Delivery?
    requires id.Some? ==> id.value != 0 && Fresh(s, c.generation, id.value)
    ensures Inv(NotifyReplyStep(s, c, id))
  {
    assert c.generation in s.owners;
    hide QueueOk, OwnerOk, OnceOk, CallsOk, RefsOk, LedgerOk, Accounted, Fresh;
    var k := FindSerial(s.queue, c.serial);
    match id {
      case Some(v) =>
        var seen := s.(delivered := s.delivered + {Handle(c.generation, v)});
        if s.stopped || c.generation != s.generation {
          StaleKeepsCore(s, c, v);
          AnsweredKeepsCore(seen, c);
        } else if k < |s.queue| {
          NamedKeepsCore(s, c, v, k);
          UpdateKeepsNothingWaits(s.queue, k, s.queue[k].(id := v));
        } else {
          UnclaimedKeepsCore(s, c.generation, v);
          AnsweredKeepsCore(CloseId(seen, v), c);
        }
      case None =>
        if c.generation == s.generation && k < |s.queue| {
          FailedKeepsInv(s, c, k);
          AnsweredKeepsCore(s.(queue := Remove(s.queue, k)), c);
        } else {
          AnsweredKeepsCore(s, c);
        }
    }
  }

  /** A failed call forgets its notice, which the daemon never named. */
  lemma FailedKeepsInv(s: State, c: Call, k: nat)
    requires Inv(s) && c in s.calls && c.Delivery? && c.generation == s.generation
    requires k < |s.queue| && s.queue[k].serial == c.serial
    ensures Inv(s.(queue := Remove(s.queue, k)))
  {
    assert s.queue[k] in s.queue && c == Delivery(s.generation, s.queue[k].serial);
    RemoveKeepsCore(s, k, s.closed, s.reported);
    RemoveMembers(s.queue, k);
  }

  lemma StaleKeepsCore(s: State, c: Call, id: nat)
    requires Core(s) && c in s.calls && id != 0
    requires s.stopped || c.generation != s.generation
    ensures Core(s.(delivered := s.delivered + {Handle(c.generation, id)}))
  {
  }

  /** A reply for a notice that is gone is closed at once. */
  lemma UnclaimedKeepsCore(s: State, generation: nat, id: nat)
    requires Core(s) && !s.stopped && generation == s.generation && generation in s.owners
    requires id != 0 && Fresh(s, generation, id)
    ensures Core(CloseId(s.(delivered := s.delivered + {Handle(generation, id)}), id))
  {
    assert Handle(s.generation, id) !in s.delivered;
    assert !Held(s.queue, id);
  }

  lemma SignalKeepsInv(s: State, sender: string, kind: SignalKind, id: nat, value: string)
    requires Inv(s) && !s.stopped
    ensures Inv(SignalStep(s, sender, kind, id, value))
  {
    var k := FindId(s.queue, id);
    if s.owner == Some(sender) && k < |s.queue| {
      match kind {
        case ActivationToken =>
          TokenKeepsCore(s, k, Some(value));
          UpdateKeepsNothingWaits(s.queue, k, s.queue[k].(token := Some(value)));
        case NotificationClosed =>
          RemoveKeepsCore(s, k, s.closed, s.reported + {Handle(s.generation, id)});
          RemoveMembers(s.queue, k);
        case _ =>
      }
    }
  }

  lemma UpdateKeepsNothingWaits(q: seq<Notice>, k: nat, e: Notice)
    requires k < |q| && e.pending == q[k].pending
    ensures NothingWaits(q) ==> NothingWaits(q[k := e])
  {
    assert q[k] in q;
  }

  lemma NextKeepsInv(s: State, ev: Event)
    requires Inv(s) && Enabled(s, ev)
    ensures Inv(Next(s, ev))
  {
    match ev {
      case Show(chat, summary, body, image, utf8) =>
        if utf8 { ShowKeepsInv(s, chat, summary, body, image); }
      case Dismiss(chat) => DismissKeepsInv(s, chat);
      case Free => FreeKeepsInv(s);
      case Appeared(name) => AppearedKeepsInv(s, name);
      case Vanished => VanishedKeepsInv(s);
      case CapabilitiesReply(c, caps) => CapabilitiesKeepsInv(s, c, caps);
      case NotifyReply(c, id) => NotifyReplyKeepsInv(s, c, id);
      case Signal(sender, kind, id, value) => SignalKeepsInv(s, sender, kind, id, value);
    }
  }
}
