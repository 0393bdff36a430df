/** What holds of the notification client over every run. */
module NotificationTheorems {
  import opened Common
  import opened NotificationProtocol
  import opened NotificationInvariants

  /** A daemon gives no id twice, over all the generations in which it owned the name. */
  predicate IdsOnce(owners: map<nat, string>, delivered: set<Handle>) {
    forall g, h :: g in delivered && h in delivered && SameOwner(owners, g.generation, h.generation) && g.id == h.id ==> g == h
  }

  /** Each event has the step of its own. */
  lemma NextIs(s: State, ev: Event)
    requires Inv(s) && Enabled(s, ev)
    ensures match ev {
      case Show(chat, summary, body, image, utf8) => Next(s, ev) == if utf8 then ShowStep(s, chat, summary, body, image) else s
      case Dismiss(chat) => Next(s, ev) == DismissStep(s, chat)
      case Free => Next(s, ev) == FreeStep(s)
      case Appeared(name) => Next(s, ev) == AppearedStep(s, name)
      case Vanished => Next(s, ev) == VanishedStep(s)
      case CapabilitiesReply(c, caps) => Next(s, ev) == CapabilitiesStep(s, c, caps)
      case NotifyReply(c, reply) => Next(s, ev) == NotifyReplyStep(s, c, reply)
      case Signal(sender, kind, id, value) => Next(s, ev) == SignalStep(s, sender, kind, id, value)
    }
  {
    EventIsPossible(s, ev);
    hide Inv, ShowStep, DismissStep, FreeStep, AppearedStep, VanishedStep, CapabilitiesStep, NotifyReplyStep, SignalStep, Fresh;
  }

  /** What the steps ask for. */
  lemma EventIsPossible(s: State, ev: Event)
    requires Inv(s) && Enabled(s, ev)
    ensures s.ready ==> s.owner.Some?
    ensures s.refs > 0
    ensures ev.CapabilitiesReply? || ev.NotifyReply? ==> ev.call in s.calls && (ev.call.generation == s.generation ==> s.owner.Some?)
  {
    if ev.CapabilitiesReply? || ev.NotifyReply? { assert ev.call.generation in s.owners; }
  }

  /** Only a new owner and replies to Notify change what is known of the daemon. */
  predicate SameDaemon(s: State, t: State) { t.owners == s.owners && t.delivered == s.delivered }

  lemma ShowKeepsDaemon(s: State, chat: string, summary: string, body: string, image: Option<seq<int>>)
    requires s.ready ==> s.owner.Some?
    ensures SameDaemon(s, ShowStep(s, chat, summary, body, image))
  {
    hide QueueStep, MarkSent, Due, Messages, Deliveries;
  }

  lemma FreeKeepsDaemon(s: State)
    requires s.refs > 0
    ensures SameDaemon(s, FreeStep(s))
  {
    hide HeldHandles;
  }

  lemma CapabilitiesKeepsDaemon(s: State, c: Call, caps: Option<Caps>)
    requires s.refs > 0 && (!s.stopped && c.generation == s.generation ==> s.owner.Some?)
    ensures SameDaemon(s, CapabilitiesStep(s, c, caps))
  {
    hide ReadyStep, NotificationProtocol.Release;
    if !s.stopped && c.generation == s.generation { ReadyKeepsDaemon(s, caps); }
    var t := if !s.stopped && c.generation == s.generation then ReadyStep(s, caps) else s;
    ReleaseKeepsDaemon(t.(calls := t.calls - multiset{c}));
  }

  lemma ReleaseKeepsDaemon(s: State)
    requires s.refs > 0
    ensures SameDaemon(s, NotificationProtocol.Release(s))
  {
  }

  lemma ReadyKeepsDaemon(s: State, caps: Option<Caps>)
    requires s.owner.Some?
    ensures SameDaemon(s, ReadyStep(s, caps))
  {
    SendKeepsDaemon(s.(ready := true, caps := if caps.Some? then caps.value else NO_CAPS), Serials(s.queue));
    hide Send, Serials;
  }

  lemma SendKeepsDaemon(s: State, serials: set<nat>)
    requires s.owner.Some?
    ensures SameDaemon(s, Send(s, serials))
  {
    hide MarkSent, Due, Messages, Deliveries;
  }

  lemma SignalKeepsDaemon(s: State, sender: string, kind: SignalKind, id: nat, value: string)
    ensures SameDaemon(s, SignalStep(s, sender, kind, id, value))
  {
    hide FindId, Remove;
  }

  lemma StepKeepsDaemon(s: State, ev: Event)
    requires Inv(s) && Enabled(s, ev) && !ev.Appeared? && !ev.NotifyReply?
    ensures SameDaemon(s, Next(s, ev))
  {
    EventIsPossible(s, ev);
    hide Inv, Enabled, Next, ShowStep, DismissStep, FreeStep, CapabilitiesStep, NotifyReplyStep, SignalStep, AppearedStep;
    NextIs(s, ev);
    match ev {
      case Show(chat, summary, body, image, utf8) => ShowKeepsDaemon(s, chat, summary, body, image);
      case Free => FreeKeepsDaemon(s);
      case CapabilitiesReply(c, caps) => CapabilitiesKeepsDaemon(s, c, caps);
      case Signal(sender, kind, id, value) => SignalKeepsDaemon(s, sender, kind, id, value);
      case _ =>
    }
  }

  lemma ReplyDelivers(s: State, c: Call, reply: Option<nat>)
    requires s.refs > 0 && c.Delivery?
    ensures NotifyReplyStep(s, c, reply).owners == s.owners
    ensures NotifyReplyStep(s, c, reply).delivered ==
            if reply.Some? then s.delivered + {Handle(c.generation, reply.value)} else s.delivered
  {
    hide FindSerial, Remove;
  }

  lemma NextKeepsIdsOnce(s: State, ev: Event)
    requires Inv(s) && Enabled(s, ev) && IdsOnce(s.owners, s.delivered)
    ensures IdsOnce(Next(s, ev).owners, Next(s, ev).delivered)
  {
    KnownGenerations(s);
    EventIsPossible(s, ev);
    NextIs(s, ev);
    if ev.NotifyReply? {
      hide Inv, Next, NotifyReplyStep;
      ReplyDelivers(s, ev.call, ev.reply);
      if ev.reply.Some? { DeliveryKeepsIdsOnce(s, ev.call.generation, ev.reply.value); }
    } else if ev.Appeared? {
      hide Inv, Next;
    } else {
      hide Inv, Next, Enabled, IdsOnce;
      StepKeepsDaemon(s, ev);
    }
  }

  lemma DeliveryKeepsIdsOnce(s: State, generation: nat, id: nat)
    requires IdsOnce(s.owners, s.delivered) && Fresh(s, generation, id)
    ensures IdsOnce(s.owners, s.delivered + {Handle(generation, id)})
  {
  }

  lemma KnownGenerations(s: State)
    requires Inv(s)
    ensures forall h :: h in s.delivered ==> h.generation in s.owners && h.generation <= s.generation
  {
  }

  /** The state after a history of events, if the environment could produce that history. */
  ghost function Run(history: seq<Event>): (r: Option<State>)
    ensures r.Some? ==> Inv(r.value) && IdsOnce(r.value.owners, r.value.delivered)
  {
    if history == [] then Some(START)
    else
      var before := Run(history[..|history| - 1]);
      var ev := history[|history| - 1];
      if before.Some? && Enabled(before.value, ev) then
        NextKeepsInv(before.value, ev);
        NextKeepsIdsOnce(before.value, ev);
        Some(Next(before.value, ev))
      else None
  }

  ghost predicate Reachable(s: State) {
    exists history :: Run(history) == Some(s)
  }

  lemma ReachableInv(s: State)
    requires Reachable(s)
    ensures Inv(s) && IdsOnce(s.owners, s.delivered)
  {
    var history :| Run(history) == Some(s);
  }

  ghost predicate HeldOnce(q: seq<Notice>, id: nat) {
    exists k :: 0 <= k < |q| && q[k].id == id && forall j :: 0 <= j < |q| && q[j].id == id ==> j == k
  }

  lemma HeldIsHeldOnce(q: seq<Notice>, serial: nat, id: nat)
    requires QueueOk(q, serial) && Held(q, id) && id != 0
    ensures HeldOnce(q, id)
  {
    var k :| 0 <= k < |q| && q[k].id == id;
  }

  /** Until Free, what the current daemon shows is held by exactly one slot or was asked to close. */
  lemma NothingIsForgotten(s: State, h: Handle)
    requires Reachable(s) && !s.stopped
    requires h in s.delivered && h.generation == s.generation && h !in s.reported
    ensures h !in s.closed ==> HeldOnce(s.queue, h.id)
    ensures h in s.closed ==> forall e :: e in s.queue ==> e.id != h.id
  {
    ReachableInv(s);
    hide QueueOk, OnceOk, CallsOk, Run, Reachable;
    if h !in s.closed {
      HeldIsHeldOnce(s.queue, s.serial, h.id);
    } else {
      assert !Held(s.queue, h.id);
    }
  }

  /** An answer to an earlier owner's call, or anyone else's signal, changes no slot and sends nothing. */
  lemma EarlierOwnersAreIgnored(s: State, ev: Event)
    requires Reachable(s) && Enabled(s, ev)
    requires match ev {
      case CapabilitiesReply(c, _) => c.generation != s.generation
      case NotifyReply(c, _) => c.generation != s.generation
      case Signal(sender, _, _, _) => s.owner != Some(sender)
      case _ => false
    }
    ensures Inv(s)
    ensures KeepsSlots(s, Next(s, ev))
  {
    ReachableInv(s);
    EventIsPossible(s, ev);
    hide Inv, Enabled, Next, Reachable, CapabilitiesStep, NotifyReplyStep, SignalStep;
    NextIs(s, ev);
    match ev {
      case CapabilitiesReply(c, caps) => StaleCapabilities(s, c, caps);
      case NotifyReply(c, reply) => StaleReply(s, c, reply);
      case Signal(sender, kind, id, value) => ForeignSignal(s, sender, kind, id, value);
      case _ =>
    }
  }

  /** No slot changes while the object lives, and nothing goes out. */
  predicate KeepsSlots(s: State, t: State) {
    && (t.refs > 0 ==> t.queue == s.queue)
    && t.closed == s.closed && t.notified == s.notified && t.invoked == s.invoked && t.ready == s.ready
  }

  lemma StaleCapabilities(s: State, c: Call, caps: Option<Caps>)
    requires s.refs > 0 && c.generation != s.generation
    ensures KeepsSlots(s, CapabilitiesStep(s, c, caps))
  {
    hide ReadyStep;
  }

  lemma StaleReply(s: State, c: Call, reply: Option<nat>)
    requires s.refs > 0 && c.Delivery? && c.generation != s.generation
    ensures KeepsSlots(s, NotifyReplyStep(s, c, reply))
  {
    hide FindSerial, Remove, CloseId;
  }

  lemma ForeignSignal(s: State, sender: string, kind: SignalKind, id: nat, value: string)
    requires s.owner != Some(sender)
    ensures KeepsSlots(s, SignalStep(s, sender, kind, id, value))
  {
  }

  /** Nor does a signal of an owner that has returned, about a notification from before it left. */
  lemma EarlierTenuresAreIgnored(s: State, sender: string, kind: SignalKind, id: nat, value: string, g: Handle)
    requires Reachable(s) && Enabled(s, Signal(sender, kind, id, value))
    requires g in s.delivered && g.id == id && g.generation != s.generation && SameOwner(s.owners, g.generation, s.generation)
    ensures Inv(s)
    ensures KeepsSlots(s, Next(s, Signal(sender, kind, id, value)))
  {
    ReachableInv(s);
    EarlierIsNotHeld(s, g);
    hide Inv, Reachable, Next, Held, SignalStep, IdsOnce;
    NextIs(s, Signal(sender, kind, id, value));
    UnheldSignal(s, sender, kind, id, value);
  }

  lemma EarlierIsNotHeld(s: State, g: Handle)
    requires Inv(s) && IdsOnce(s.owners, s.delivered)
    requires g in s.delivered && g.generation != s.generation && SameOwner(s.owners, g.generation, s.generation)
    ensures !Held(s.queue, g.id)
  {
    assert forall e :: e in s.queue && e.id != 0 ==> Handle(s.generation, e.id) in s.delivered;
  }

  lemma UnheldSignal(s: State, sender: string, kind: SignalKind, id: nat, value: string)
    requires !Held(s.queue, id)
    ensures KeepsSlots(s, SignalStep(s, sender, kind, id, value))
  {
    hide FindId, AnswerStep;
    forall k | 0 <= k < |s.queue| ensures s.queue[k].id != id { assert s.queue[k] in s.queue; }
  }

  /**
   An id that the present owner of the name gave out, not reported closed and not asked to close, is
   held, by exactly one slot, exactly if it gave it out since it last appeared: `vanished` clears the
   slots without closing anything, and an owner that comes back is not asked either.
   */
  lemma HeldExactlySinceAppearing(s: State, h: Handle)
    requires Reachable(s) && !s.stopped && h in s.delivered && h !in s.reported && h !in s.closed
    requires SameOwner(s.owners, h.generation, s.generation)
    ensures HeldOnce(s.queue, h.id) <==> h.generation == s.generation
    ensures Held(s.queue, h.id) <==> h.generation == s.generation
  {
    ReachableInv(s);
    if h.generation == s.generation {
      NothingIsForgotten(s, h);
    } else {
      EarlierIsNotHeld(s, h);
    }
    hide Inv, Reachable, SameOwner;
    if HeldOnce(s.queue, h.id) {
      var k :| 0 <= k < |s.queue| && s.queue[k].id == h.id;
      assert s.queue[k] in s.queue;
    }
  }

  /** One owner leaves and comes back; its notification 5 is then neither held nor asked to close. */
  lemma ReturningOwnerIsForgotten(history: seq<Event>)
    requires history == [Appeared("a"), CapabilitiesReply(GetCapabilities(1), None), Show("chat", "", "", None, true),
                         NotifyReply(Delivery(1, 1), Some(5)), Vanished, Appeared("a")]
    ensures Run(history).Some?
    ensures var s := Run(history).value;
            && !s.stopped && s.owner == Some("a") && SameOwner(s.owners, 1, s.generation)
            && Handle(1, 5) in s.delivered && Handle(1, 5) !in s.reported && Handle(1, 5) !in s.closed && !Held(s.queue, 5)
  {
    hide Run, Inv, Next, ShowStep, CapabilitiesStep, NotifyReplyStep, Enabled, Held, SameOwner, IdsOnce;
    var s3 := ShownFirst(history);
    OnlyOneIsNamed(s3, Delivery(1, 1), 5);
    ReplyIsPossible(s3, Delivery(1, 1), 5);
    var s4 := RunMore(history, 3, s3);
    WatchIsPossible(s4, "a");
    var s5 := RunMore(history, 4, s4);
    var s6 := RunMore(history, 5, s5);
    assert history[..6] == history;
    Returned(s4, "a", 1, 5);
  }

  lemma ReplyIsPossible(s: State, c: Call, id: nat)
    requires c.Delivery? && c in s.calls && id != 0 && s.delivered == {}
    ensures Enabled(s, NotifyReply(c, Some(id)))
  {
  }

  lemma WatchIsPossible(s: State, name: string)
    requires !s.stopped
    ensures Enabled(s, Vanished) && Enabled(VanishedStep(s), Appeared(name))
  {
  }

  lemma Returned(s: State, name: string, generation: nat, id: nat)
    requires generation in s.owners && s.owners[generation] == name && generation <= s.generation
    ensures var t := AppearedStep(VanishedStep(s), name);
            !Held(t.queue, id) && SameOwner(t.owners, generation, t.generation)
  {
  }

  /** The first notice is shown to the first owner. */
  lemma ShownFirst(history: seq<Event>) returns (s3: State)
    requires |history| >= 3
    requires history[..3] == [Appeared("a"), CapabilitiesReply(GetCapabilities(1), None), Show("chat", "", "", None, true)]
    ensures Run(history[..3]) == Some(s3)
    ensures |s3.queue| == 1 && s3.queue[0].serial == 1 && s3.refs > 1 && s3.generation == 1 && !s3.stopped
    ensures Delivery(1, 1) in s3.calls && s3.closed == s3.delivered == s3.reported == {} && s3.owners == map[1 := "a"]
  {
    hide Run, Inv, Next, ShowStep, CapabilitiesStep, NotifyReplyStep, IdsOnce;
    RunNothing();
    assert history[..0] == [];
    assert history[0] == history[..3][0] && history[1] == history[..3][1] && history[2] == history[..3][2];
    var s1 := RunMore(history, 0, START);
    NothingToSend(s1, GetCapabilities(1));
    var s2 := RunMore(history, 1, s1);
    FirstIsSent(s2, "chat", "", "", None);
    s3 := RunMore(history, 2, s2);
  }

  lemma RunNothing()
    ensures Run([]) == Some(START)
  {
  }

  lemma RunMore(history: seq<Event>, i: nat, s: State) returns (t: State)
    requires i < |history| && Run(history[..i]) == Some(s) && Enabled(s, history[i])
    ensures Run(history[..i + 1]) == Some(t)
    ensures match history[i] {
      case Show(chat, summary, body, image, utf8) =>
        (s.ready ==> s.owner.Some?) && t == if utf8 then ShowStep(s, chat, summary, body, image) else s
      case Appeared(name) => t == AppearedStep(s, name)
      case Vanished => t == VanishedStep(s)
      case CapabilitiesReply(c, caps) =>
        s.refs > 0 && (c.generation == s.generation ==> s.owner.Some?) && t == CapabilitiesStep(s, c, caps)
      case NotifyReply(c, reply) => s.refs > 0 && t == NotifyReplyStep(s, c, reply)
      case _ => true
    }
  {
    var before, more := history[..i], history[..i + 1];
    assert more[..|more| - 1] == before && more[|more| - 1] == history[i];
    hide Next, ShowStep, CapabilitiesStep, NotifyReplyStep, AppearedStep, VanishedStep;
    assert Inv(s);
    EventIsPossible(s, history[i]);
    NextIs(s, history[i]);
    t := Next(s, history[i]);
  }

  lemma OnlyOneIsNamed(s: State, c: Call, id: nat)
    requires c.Delivery? && s.refs > 1 && |s.queue| == 1 && s.queue[0].serial == c.serial && s.generation == c.generation && !s.stopped
    ensures var t := NotifyReplyStep(s, c, Some(id));
            && t.delivered == s.delivered + {Handle(c.generation, id)} && t.closed == s.closed && t.reported == s.reported
            && t.owners == s.owners && t.owner == s.owner && t.generation == s.generation && !t.stopped
  {
  }

  lemma NothingToSend(s: State, c: Call)
    requires s.queue == [] && s.owner.Some? && s.refs > 1 && !s.stopped && c.generation == s.generation
    requires s.calls == multiset{c}
    ensures CapabilitiesStep(s, c, None) == s.(ready := true, caps := NO_CAPS, calls := multiset{}, refs := s.refs - 1)
  {
    hide Due, Messages, Deliveries, MarkSent;
    NothingDue(s);
  }

  lemma NothingDue(s: State)
    requires s.owner.Some?
    ensures Due([], Serials([])) == {} && MarkSent([], Serials([])) == []
    ensures Messages(s.(ready := true, caps := NO_CAPS), {}) == {} && Deliveries(s.generation, {}) == {}
  {
    assert Messages(s.(ready := true, caps := NO_CAPS), {}) == {} && Deliveries(s.generation, {}) == {};
  }

  lemma FirstIsSent(s: State, chat: string, summary: string, body: string, image: Option<seq<int>>)
    requires s.queue == [] && s.owner.Some? && s.ready
    ensures var t := ShowStep(s, chat, summary, body, image);
            && |t.queue| == 1 && t.queue[0].serial == s.serial + 1 && t.queue[0].id == 0
            && Delivery(s.generation, s.serial + 1) in t.calls && t.refs > s.refs
            && t.closed == s.closed && t.delivered == s.delivered && t.reported == s.reported && t.owners == s.owners
            && t.owner == s.owner && t.generation == s.generation && !t.stopped == !s.stopped
  {
    var t := QueueStep(s, chat, summary, body, image);
    assert t.queue == [NewNotice(s, chat, summary, body, image)];
    assert t.queue[0] in Due(t.queue, {s.serial + 1});
    assert Delivery(s.generation, s.serial + 1) in Deliveries(s.generation, Due(t.queue, {s.serial + 1}));
  }

  /** Whatever daemons come and go, one notice is announced at most once. */
  lemma AnnouncedAtMostOnce(s: State, m: Notify, n: Notify)
    requires Reachable(s) && m in s.notified && n in s.notified && m.call.serial == n.call.serial
    ensures m == n && s.notified[m] == 1
  {
    var history :| Run(history) == Some(s);
  }

  /** A ready daemon is never owed a notice. */
  lemma ReadyMeansSent(s: State)
    requires Reachable(s) && s.ready
    ensures forall e :: e in s.queue ==> !e.pending
  {
    var history :| Run(history) == Some(s);
  }

  /** The current daemon's first answer sends everything that waited for it, as it was queued. */
  lemma AnswerSendsWhatWaited(s: State, c: Call, caps: Option<Caps>, e: Notice)
    requires Reachable(s) && !s.stopped && c.GetCapabilities? && c in s.calls && c.generation == s.generation
    requires e in s.queue && e.pending
    ensures Inv(s)
    ensures var t := Next(s, CapabilitiesReply(c, caps)); exists m ::
      && m in t.notified && m !in s.notified && m.call.serial == e.serial
      && Some(m.owner) == s.owner && m.summary == e.summary && m.body == e.body
      && m.image == (if caps.Some? && caps.value.images then e.image else None)
      && (m.escaped <==> caps.Some? && caps.value.markup) && (m.buttons <==> caps.Some? && caps.value.actions)
  {
    ReachableInv(s);
    AnswerFacts(s, c);
    hide Inv, Enabled, Reachable, Next, Announced, OnceOk, CapabilitiesStep;
    NextAnswers(s, c, caps);
    NotYetAnnounced(s, e);
    AnswerSends(s, c, caps, e);
  }

  lemma AnswerFacts(s: State, c: Call)
    requires Inv(s) && !s.stopped && c in s.calls && c.generation == s.generation
    ensures s.owner.Some? && s.refs > 0 && OnceOk(s.notified, s.serial, s.queue)
  {
  }

  lemma NextAnswers(s: State, c: Call, caps: Option<Caps>)
    requires Inv(s) && !s.stopped && c.GetCapabilities? && c in s.calls && c.generation == s.generation
    requires s.owner.Some? && s.refs > 0
    ensures Next(s, CapabilitiesReply(c, caps)) == CapabilitiesStep(s, c, caps)
  {
    hide Inv, CapabilitiesStep, ShowStep, DismissStep, FreeStep, AppearedStep, VanishedStep, NotifyReplyStep, SignalStep;
  }

  lemma AnswerSends(s: State, c: Call, caps: Option<Caps>, e: Notice)
    requires s.owner.Some? && s.refs > 0 && !s.stopped && c.generation == s.generation
    requires e in s.queue && e.pending
    ensures var known := s.(ready := true, caps := if caps.Some? then caps.value else NO_CAPS);
            Message(known, e) in CapabilitiesStep(s, c, caps).notified
  {
    hide Messages, Deliveries, Due, MarkSent, Message;
    WaitingIsSent(s, s.(ready := true, caps := if caps.Some? then caps.value else NO_CAPS), e);
  }

  lemma WaitingIsSent(s: State, known: State, e: Notice)
    requires known.owner.Some? && known.queue == s.queue && e in s.queue && e.pending
    ensures Message(known, e) in Messages(known, Due(known.queue, Serials(known.queue)))
  {
    assert e in Due(known.queue, Serials(known.queue));
  }

  lemma NotYetAnnounced(s: State, e: Notice)
    requires OnceOk(s.notified, s.serial, s.queue) && e in s.queue && e.pending
    ensures forall m :: m in s.notified ==> m.call.serial != e.serial
  {
    assert !Announced(s.notified, e.serial);
  }

  /** One reference for the owner until Free, and one for each call whose callback has yet to run. */
  lemma ReferencesAreCallsPlusOwner(s: State)
    requires Reachable(s)
    ensures s.refs == |s.calls| + (if s.stopped then 0 else 1)
    ensures s.refs == 0 <==> s.stopped && s.calls == multiset{}
    ensures s.refs == 0 ==> s.queue == [] && forall ev :: !Enabled(s, ev)
  {
    var history :| Run(history) == Some(s);
  }

  /**
   After Free only callbacks run. Each drops its call and one reference, and beyond noting an id that was
   given out changes nothing but the slots: a failed call clears its own, and the last callback all.
   */
  lemma FreedObjectDrains(s: State, ev: Event)
    requires Reachable(s) && s.stopped && Enabled(s, ev)
    ensures Inv(s)
    ensures |Next(s, ev).calls| == |s.calls| - 1 && Next(s, ev).refs == s.refs - 1
    ensures s.refs > 0 && (ev.CapabilitiesReply? || ev.NotifyReply?) && Drained(s, Next(s, ev), ev.call, ev.NotifyReply? && ev.reply.None?)
  {
    ReachableInv(s);
    EventIsPossible(s, ev);
    CallsHaveReferences(s);
    NextIs(s, ev);
    hide Inv, Reachable, Next, Drained, CapabilitiesStep, NotifyReplyStep, ShowStep, DismissStep, FreeStep, AppearedStep, VanishedStep,
      SignalStep, Fresh, IdsOnce;
    var c := ev.call;
    OneCallLess(s.calls, c);
    if ev.CapabilitiesReply? { CapabilitiesDrain(s, c, ev.caps); } else { RepliesDrain(s, c, ev.reply); }
    DrainedCounts(s, Next(s, ev), c, ev.NotifyReply? && ev.reply.None?);
  }

  predicate Drained(s: State, t: State, c: Call, failed: bool)
    requires s.refs > 0
  {
    && t == s.(calls := s.calls - multiset{c}, refs := s.refs - 1, queue := t.queue, delivered := t.delivered)
    && (t.refs == 0 ==> t.queue == [])
    && (t.refs > 0 ==> t.queue == s.queue || (failed && c.Delivery? && c.generation == s.generation && exists k ::
          0 <= k < |s.queue| && s.queue[k].serial == c.serial && t.queue == Remove(s.queue, k)))
  }

  lemma DrainedCounts(s: State, t: State, c: Call, failed: bool)
    requires s.refs > 0 && Drained(s, t, c, failed)
    ensures t.refs == s.refs - 1 && t.calls == s.calls - multiset{c}
  {
  }

  lemma CallsHaveReferences(s: State)
    requires Inv(s)
    ensures s.refs == |s.calls| + if s.stopped then 0 else 1
  {
  }

  lemma CapabilitiesDrain(s: State, c: Call, caps: Option<Caps>)
    requires s.stopped && s.refs > 0
    ensures Drained(s, CapabilitiesStep(s, c, caps), c, false)
  {
    hide ReadyStep;
  }

  lemma RepliesDrain(s: State, c: Call, reply: Option<nat>)
    requires s.stopped && s.refs > 0 && c.Delivery?
    ensures Drained(s, NotifyReplyStep(s, c, reply), c, reply.None?)
  {
    hide FindSerial, Remove, CloseId;
    var k := FindSerial(s.queue, c.serial);
  }

  lemma OneCallLess(calls: multiset<Call>, c: Call)
    requires c in calls
    ensures |calls - multiset{c}| == |calls| - 1
  {
  }

  // ----- The recency list, once more and independently -----

  ghost function Omitting(chats: seq<string>, chat: string): seq<string> {
    if chats == [] then []
    else if chats[0] == chat then Omitting(chats[1..], chat) else [chats[0]] + Omitting(chats[1..], chat)
  }

  /** The plain recency list: no chat twice, newest last, only the newest 64 kept. */
  ghost function Touch(chats: seq<string>, chat: string): seq<string> {
    var r := Omitting(chats, chat) + [chat];
    if |r| > LIMIT then r[|r| - LIMIT..] else r
  }

  ghost function Chats(q: seq<Notice>): (r: seq<string>)
    ensures |r| == |q|
    ensures forall i :: 0 <= i < |q| ==> r[i] == q[i].chat
  {
    seq(|q|, i requires 0 <= i < |q| => q[i].chat)
  }

  lemma {:induction false} OmittingAbsent(chats: seq<string>, chat: string)
    requires chat !in chats
    ensures Omitting(chats, chat) == chats
  {
    if chats != [] {
      OmittingAbsent(chats[1..], chat);
    }
  }

  lemma {:induction false} OmittingOne(chats: seq<string>, k: nat)
    requires k < |chats| && forall j :: 0 <= j < |chats| && j != k ==> chats[j] != chats[k]
    ensures Omitting(chats, chats[k]) == chats[..k] + chats[k + 1..]
  {
    if k == 0 {
      OmittingAbsent(chats[1..], chats[0]);
    } else {
      OmittingOne(chats[1..], k - 1);
      assert chats[1..][..k - 1] == chats[1..k];
      assert chats[1..][k..] == chats[k + 1..];
      assert chats[..k] == [chats[0]] + chats[1..k];
    }
  }

  lemma RemoveIsOmitting(q: seq<Notice>, serial: nat, k: nat)
    requires QueueOk(q, serial) && k < |q|
    ensures Chats(Remove(q, k)) == Omitting(Chats(q), q[k].chat)
  {
    OmittingOne(Chats(q), k);
  }

  lemma DismissIsOmitting(s: State, chat: string)
    requires Inv(s)
    ensures Chats(DismissStep(s, chat).queue) == Omitting(Chats(s.queue), chat)
  {
    var k := FindChat(s.queue, chat);
    if k < |s.queue| {
      RemoveIsOmitting(s.queue, s.serial, k);
    } else {
      OmittingAbsent(Chats(s.queue), chat);
    }
  }

  lemma SendKeepsChats(s: State, serials: set<nat>)
    requires s.owner.Some?
    ensures Chats(Send(s, serials).queue) == Chats(s.queue)
  {
  }

  /** Dropping the oldest of a full list before appending keeps the newest 64. */
  lemma EvictAndAppend(q: seq<Notice>, e: Notice)
    requires |q| <= LIMIT
    ensures var r := Chats(q) + [e.chat];
      Chats((if |q| < LIMIT then q else q[1..]) + [e]) == if |r| > LIMIT then r[|r| - LIMIT..] else r
  {
  }

  lemma ShowIsTouch(s: State, chat: string, summary: string, body: string, image: Option<seq<int>>)
    requires Inv(s)
    ensures Chats(ShowStep(s, chat, summary, body, image).queue) == Touch(Chats(s.queue), chat)
  {
    ListFits(s, chat);
    DismissIsOmitting(s, chat);
    hide Inv, DismissStep, QueueStep, ShowStep, NewNotice, Omitting, Chats;
    var q, e := DismissStep(s, chat).queue, NewNotice(s, chat, summary, body, image);
    EvictAndAppend(q, e);
    QueuedAtTheEnd(s, chat, summary, body, image);
    SendingKeepsChats(s, chat, summary, body, image);
  }

  lemma SendingKeepsChats(s: State, chat: string, summary: string, body: string, image: Option<seq<int>>)
    requires s.ready ==> s.owner.Some?
    ensures Chats(ShowStep(s, chat, summary, body, image).queue) == Chats(QueueStep(s, chat, summary, body, image).queue)
    ensures NewNotice(s, chat, summary, body, image).chat == chat
  {
    hide QueueStep, Send, Chats;
    if s.ready { SendKeepsChats(QueueStep(s, chat, summary, body, image), {s.serial + 1}); }
  }

  lemma QueuedAtTheEnd(s: State, chat: string, summary: string, body: string, image: Option<seq<int>>)
    ensures var q, e := DismissStep(s, chat).queue, NewNotice(s, chat, summary, body, image);
            QueueStep(s, chat, summary, body, image).queue == (if |q| < LIMIT then q else q[1..]) + [e]
  {
    hide DismissStep, NewNotice, CloseId;
  }

  lemma ListFits(s: State, chat: string)
    requires Inv(s)
    ensures |DismissStep(s, chat).queue| <= LIMIT && (s.ready ==> s.owner.Some?)
  {
  }

  /** A step takes at most one chat out of the list. */
  ghost predicate DropsOne(before: seq<string>, after: seq<string>) {
    after == before || exists chat :: after == Omitting(before, chat)
  }

  lemma SignalDropsOne(s: State, kind: SignalKind, id: nat, value: string)
    requires Inv(s)
    ensures DropsOne(Chats(s.queue), Chats(AnswerIdStep(s, kind, id, value).queue))
    ensures !kind.NotificationClosed? ==> Chats(AnswerIdStep(s, kind, id, value).queue) == Chats(s.queue)
  {
    var k := FindId(s.queue, id);
    if k < |s.queue| {
      RemoveIsOmitting(s.queue, s.serial, k);
    }
  }

  lemma SignalIsRecency(s: State, sender: string, kind: SignalKind, id: nat, value: string)
    requires Inv(s)
    ensures var before, after := Chats(s.queue), Chats(SignalStep(s, sender, kind, id, value).queue);
      DropsOne(before, after) && (!kind.NotificationClosed? ==> after == before)
  {
    SignalDropsOne(s, kind, id, value);
    hide Omitting, FindId;
  }

  lemma ReplyDropsOne(s: State, c: Call, reply: Option<nat>)
    requires Inv(s) && c.Delivery?
    ensures DropsOne(Chats(s.queue), Chats(ResolveStep(s, c, reply).queue))
    ensures reply.Some? ==> Chats(ResolveStep(s, c, reply).queue) == Chats(s.queue)
  {
    hide Omitting, CloseId;
    var k := FindSerial(s.queue, c.serial);
    if k < |s.queue| {
      RemoveIsOmitting(s.queue, s.serial, k);
    }
  }

  lemma ReadyKeepsChats(s: State, caps: Option<Caps>)
    requires s.owner.Some?
    ensures Chats(ReadyStep(s, caps).queue) == Chats(s.queue)
  {
    SendKeepsChats(s.(ready := true, caps := if caps.Some? then caps.value else NO_CAPS), Serials(s.queue));
  }

  /** Every step of the 64-slot table is a step of the plain recency list. */
  lemma TableIsRecencyList(s: State, ev: Event)
    requires Reachable(s) && Enabled(s, ev)
    ensures Inv(s)
    ensures Next(s, ev).refs > 0 ==>
      var before, after := Chats(s.queue), Chats(Next(s, ev).queue);
      match ev {
        case Show(chat, _, _, _, utf8) => after == if utf8 then Touch(before, chat) else before
        case Dismiss(chat) => after == Omitting(before, chat)
        case Vanished => after == []
        case Signal(_, kind, _, _) => DropsOne(before, after) && (!kind.NotificationClosed? ==> after == before)
        case NotifyReply(_, reply) => DropsOne(before, after) && (reply.Some? ==> after == before)
        case _ => after == before
      }
  {
    ReachableInv(s);
    EventIsPossible(s, ev);
    NextIs(s, ev);
    hide Inv, Reachable, Enabled, Next, Chats, Omitting, Touch, DropsOne, ShowStep, DismissStep, FreeStep, AppearedStep, VanishedStep,
      CapabilitiesStep, NotifyReplyStep, SignalStep, IdsOnce;
    match ev {
      case Show(chat, summary, body, image, utf8) =>
        if utf8 { ShowIsTouch(s, chat, summary, body, image); }
      case Dismiss(chat) => DismissIsOmitting(s, chat);
      case Signal(sender, kind, id, value) => SignalIsRecency(s, sender, kind, id, value);
      case NotifyReply(c, reply) => ReplyIsRecency(s, c, reply);
      case CapabilitiesReply(c, caps) => CapabilitiesIsRecency(s, c, caps);
      case Free => FreeIsRecency(s);
      case Vanished => VanishedIsRecency(s);
      case Appeared(name) => AppearedIsRecency(s, name);
    }
  }

  lemma ReplyIsRecency(s: State, c: Call, reply: Option<nat>)
    requires Inv(s) && s.refs > 0 && c.Delivery?
    ensures var t := NotifyReplyStep(s, c, reply);
            t.refs > 0 ==> DropsOne(Chats(s.queue), Chats(t.queue)) && (reply.Some? ==> Chats(t.queue) == Chats(s.queue))
  {
    hide Inv, ResolveStep, DropsOne, Chats;
    ReplyDropsOne(s, c, reply);
  }

  lemma CapabilitiesIsRecency(s: State, c: Call, caps: Option<Caps>)
    requires s.refs > 0 && (c.generation == s.generation ==> s.owner.Some?)
    ensures var t := CapabilitiesStep(s, c, caps); t.refs > 0 ==> Chats(t.queue) == Chats(s.queue)
  {
    hide ReadyStep, Chats;
    if !s.stopped && c.generation == s.generation { ReadyKeepsChats(s, caps); }
  }

  lemma FreeIsRecency(s: State)
    requires s.refs > 0
    ensures FreeStep(s).refs > 0 ==> FreeStep(s).queue == s.queue
  {
    hide HeldHandles;
  }

  lemma VanishedIsRecency(s: State)
    ensures Chats(VanishedStep(s).queue) == []
  {
  }

  lemma AppearedIsRecency(s: State, name: string)
    ensures AppearedStep(s, name).queue == s.queue
  {
  }
}
