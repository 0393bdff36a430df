/**
 What the user gets to see, src/client/notifications.c, lines 81-157 and 231-256: the texts of the
 messages, against the arguments of zc_notifications_show, and what signals do to a notice.
 */
module NotificationContents {
  import opened Common
  import opened NotificationProtocol
  import opened NotificationInvariants
  import opened NotificationTheorems

  // ----- Showing a notice -----

  /** What is left of the list before the new notice goes in. */
  lemma RoomHasOnlyOlder(s: State, chat: string)
    requires Inv(s)
    ensures forall d :: d in EvictStep(DismissStep(s, chat)).queue ==> d in s.queue && d.serial <= s.serial
  {
  }

  lemma QueuedLast(s: State, chat: string, summary: string, body: string, image: Option<seq<int>>)
    requires Inv(s)
    ensures var t := QueueStep(s, chat, summary, body, image);
            && t.queue != []
            && (forall i :: 0 <= i < |t.queue| - 1 ==> t.queue[i] in s.queue && t.queue[i].serial <= s.serial)
            && t.queue[|t.queue| - 1] == NewNotice(s, chat, summary, body, image)
            && t == s.(queue := t.queue, closed := t.closed, serial := s.serial + 1)
  {
    RoomHasOnlyOlder(s, chat);
    var q := EvictStep(DismissStep(s, chat)).queue;
    hide Inv, EvictStep, DismissStep, NewNotice;
    assert forall i :: 0 <= i < |q| ==> q[i] in q;
  }

  /** Only the last notice is due. */
  lemma LastIsDue(q: seq<Notice>, serial: nat)
    requires q != [] && q[|q| - 1].serial == serial && q[|q| - 1].pending
    requires forall i :: 0 <= i < |q| - 1 ==> q[i].serial < serial
    ensures Due(q, {serial}) == {q[|q| - 1]}
    ensures forall i :: 0 <= i < |q| - 1 ==> MarkSent(q, {serial})[i] == q[i]
    ensures MarkSent(q, {serial})[|q| - 1] == q[|q| - 1].(pending := false, image := None)
  {
  }

  lemma SendingOne(s: State, serial: nat, e: Notice)
    requires s.owner.Some? && Due(s.queue, {serial}) == {e}
    ensures Send(s, {serial}) ==
            s.(queue := MarkSent(s.queue, {serial}), notified := s.notified + multiset{Message(s, e)},
               calls := s.calls + multiset{Delivery(s.generation, e.serial)}, refs := s.refs + 1)
  {
    hide Due, MarkSent, Message;
    assert Messages(s, {e}) == {Message(s, e)} && Deliveries(s.generation, {e}) == {Delivery(s.generation, e.serial)};
  }

  /**
   The notice that is shown has the texts it was shown with and is the newest; no other one changes. To a
   ready daemon exactly one message goes out, with these texts in their places; else nothing does, and
   the notice waits with its image.
   */
  lemma ShownAsGiven(s: State, chat: string, summary: string, body: string, image: Option<seq<int>>)
    requires Inv(s)
    ensures s.ready ==> s.owner.Some?
    ensures var t := ShowStep(s, chat, summary, body, image);
            && t.queue != [] && t.serial == s.serial + 1
            && (forall i :: 0 <= i < |t.queue| - 1 ==> t.queue[i] in s.queue && t.queue[i].serial <= s.serial)
            && (var e := t.queue[|t.queue| - 1];
                && e.chat == chat && e.summary == summary && e.body == body && e.id == 0 && e.token == None
                && e.serial == s.serial + 1 && (e.pending <==> !s.ready) && (!s.ready ==> e.image == image))
            && if s.ready then
                 && t.calls == s.calls + multiset{Delivery(s.generation, s.serial + 1)} && t.refs == s.refs + 1
                 && exists m ::
                      && t.notified == s.notified + multiset{m}
                      && m.call == Delivery(s.generation, s.serial + 1) && Some(m.owner) == s.owner
                      && m.summary == summary && m.body == body
                      && m.escaped == s.caps.markup && m.buttons == s.caps.actions
                      && m.image == if s.caps.images then image else None
               else t.notified == s.notified && t.calls == s.calls && t.refs == s.refs
  {
    hide Inv, ShowStep, QueueStep, NewNotice, DismissStep, EvictStep;
    ReadyHasOwner(s);
    ShownInTheList(s, chat, summary, body, image);
    if s.ready { ShownOnTheBus(s, chat, summary, body, image); } else { NotShownYet(s, chat, summary, body, image); }
  }

  lemma ReadyHasOwner(s: State)
    requires Inv(s)
    ensures s.ready ==> s.owner.Some?
  {
  }

  lemma ShownInTheList(s: State, chat: string, summary: string, body: string, image: Option<seq<int>>)
    requires Inv(s) && (s.ready ==> s.owner.Some?)
    ensures var t := ShowStep(s, chat, summary, body, image);
            && t.queue != [] && t.serial == s.serial + 1
            && (forall i :: 0 <= i < |t.queue| - 1 ==> t.queue[i] in s.queue && t.queue[i].serial <= s.serial)
            && (var e := t.queue[|t.queue| - 1];
                && e.chat == chat && e.summary == summary && e.body == body && e.id == 0 && e.token == None
                && e.serial == s.serial + 1 && (e.pending <==> !s.ready) && (!s.ready ==> e.image == image))
  {
    hide Inv, QueueStep, Due, MarkSent, Messages, Deliveries, Send, Message;
    QueuedLast(s, chat, summary, body, image);
    var u := QueueStep(s, chat, summary, body, image);
    if s.ready {
      LastIsDue(u.queue, s.serial + 1);
      SendingOne(u, s.serial + 1, NewNotice(s, chat, summary, body, image));
    }
  }

  lemma ShownOnTheBus(s: State, chat: string, summary: string, body: string, image: Option<seq<int>>)
    requires Inv(s) && s.ready && s.owner.Some?
    ensures var t := ShowStep(s, chat, summary, body, image);
            && t.calls == s.calls + multiset{Delivery(s.generation, s.serial + 1)} && t.refs == s.refs + 1
            && exists m ::
                 && t.notified == s.notified + multiset{m}
                 && m.call == Delivery(s.generation, s.serial + 1) && Some(m.owner) == s.owner
                 && m.summary == summary && m.body == body
                 && m.escaped == s.caps.markup && m.buttons == s.caps.actions
                 && m.image == if s.caps.images then image else None
  {
    hide Inv, QueueStep, Due, MarkSent, Send;
    QueuedLast(s, chat, summary, body, image);
    var u, e := QueueStep(s, chat, summary, body, image), NewNotice(s, chat, summary, body, image);
    LastIsDue(u.queue, s.serial + 1);
    SendingOne(u, s.serial + 1, e);
    assert ShowStep(s, chat, summary, body, image).notified == s.notified + multiset{Message(u, e)};
  }

  lemma NotShownYet(s: State, chat: string, summary: string, body: string, image: Option<seq<int>>)
    requires !s.ready
    ensures var t := ShowStep(s, chat, summary, body, image);
            t.notified == s.notified && t.calls == s.calls && t.refs == s.refs && t.serial == s.serial + 1
  {
    hide QueueStep;
  }

  /** Each notice in the list is an old one or the one that was shown. */
  lemma EachIsOldOrShown(s: State, chat: string, summary: string, body: string, image: Option<seq<int>>, e: Notice)
    requires Inv(s) && (s.ready ==> s.owner.Some?) && e in ShowStep(s, chat, summary, body, image).queue
    ensures || (e in s.queue && e.serial <= s.serial)
            || (&& e.serial == s.serial + 1 && e.chat == chat && e.summary == summary && e.body == body
                && (e.pending <==> !s.ready) && (!s.ready ==> e.image == image))
  {
    hide Inv, ShowStep;
    ShownInTheList(s, chat, summary, body, image);
    var r := ShowStep(s, chat, summary, body, image).queue;
    var i :| 0 <= i < |r| && r[i] == e;
  }

  // ----- A notice that waits keeps what it was shown with -----

  /** `e` is what may have become of `d`. */
  predicate Likewise(d: Notice, e: Notice) {
    && d.serial == e.serial && d.chat == e.chat && d.summary == e.summary && d.body == e.body
    && (e.pending ==> d.pending && d.image == e.image)
  }

  ghost predicate Stems(q: seq<Notice>, e: Notice) {
    exists d :: d in q && Likewise(d, e)
  }

  /** No notice up to a serial is made up or rewritten. */
  ghost predicate AllStem(q: seq<Notice>, r: seq<Notice>, serial: nat) {
    forall e :: e in r && e.serial <= serial ==> Stems(q, e)
  }

  lemma SubsetStems(q: seq<Notice>, r: seq<Notice>, serial: nat)
    requires forall e :: e in r ==> e in q
    ensures AllStem(q, r, serial)
  {
    forall e | e in r && e.serial <= serial ensures Stems(q, e) { assert Likewise(e, e); }
  }

  lemma RemoveLeavesOthers(q: seq<Notice>, k: nat)
    requires k < |q|
    ensures forall e :: e in Remove(q, k) ==> e in q
  {
    var r := Remove(q, k);
    forall e | e in r ensures e in q {
      var i :| 0 <= i < |r| && r[i] == e;
      assert e == q[if i < k then i else i + 1];
    }
  }

  lemma RewriteStems(q: seq<Notice>, k: nat, e: Notice, serial: nat)
    requires k < |q| && Likewise(q[k], e)
    ensures AllStem(q, q[k := e], serial)
  {
    var r := q[k := e];
    forall d | d in r && d.serial <= serial ensures Stems(q, d) {
      if d == e { assert q[k] in q; } else { assert d in q && Likewise(d, d); }
    }
  }

  lemma MarkedStems(q: seq<Notice>, serials: set<nat>, serial: nat)
    ensures AllStem(q, MarkSent(q, serials), serial)
  {
    var r := MarkSent(q, serials);
    forall e | e in r && e.serial <= serial ensures Stems(q, e) {
      var i :| 0 <= i < |r| && r[i] == e;
      assert q[i] in q && Likewise(q[i], e);
    }
  }

  /** What a step may do to the list. */
  ghost predicate Ages(s: State, t: State) { AllStem(s.queue, t.queue, s.serial) && s.serial <= t.serial }

  lemma ShowAges(s: State, chat: string, summary: string, body: string, image: Option<seq<int>>)
    requires Inv(s) && (s.ready ==> s.owner.Some?)
    ensures Ages(s, ShowStep(s, chat, summary, body, image))
  {
    hide Inv, ShowStep;
    ShownInTheList(s, chat, summary, body, image);
    forall e | e in ShowStep(s, chat, summary, body, image).queue && e.serial <= s.serial ensures Stems(s.queue, e) {
      EachIsOldOrShown(s, chat, summary, body, image, e);
      assert Likewise(e, e);
    }
  }

  lemma DismissAges(s: State, chat: string)
    ensures Ages(s, DismissStep(s, chat))
  {
    hide FindChat, Remove, CloseId;
    var k := FindChat(s.queue, chat);
    if k < |s.queue| { RemoveLeavesOthers(s.queue, k); }
    SubsetStems(s.queue, DismissStep(s, chat).queue, s.serial);
  }

  lemma FreeAges(s: State)
    requires s.refs > 0
    ensures Ages(s, FreeStep(s))
  {
    SubsetStems(s.queue, s.queue, s.serial);
    SubsetStems(s.queue, [], s.serial);
    hide AllStem, HeldHandles;
  }

  lemma OwnerAges(s: State, name: string)
    ensures Ages(s, AppearedStep(s, name)) && Ages(s, VanishedStep(s))
  {
    SubsetStems(s.queue, s.queue, s.serial);
    SubsetStems(s.queue, [], s.serial);
    hide AllStem;
  }

  lemma CapabilitiesAges(s: State, c: Call, caps: Option<Caps>)
    requires s.refs > 0 && (c.generation == s.generation ==> s.owner.Some?)
    ensures Ages(s, CapabilitiesStep(s, c, caps))
  {
    MarkedStems(s.queue, Serials(s.queue), s.serial);
    SubsetStems(s.queue, s.queue, s.serial);
    SubsetStems(s.queue, [], s.serial);
    hide MarkSent, Serials, Due, AllStem;
  }

  lemma ResolveStems(s: State, c: Call, reply: Option<nat>)
    requires c.Delivery?
    ensures AllStem(s.queue, ResolveStep(s, c, reply).queue, s.serial)
  {
    hide FindSerial, Remove, AllStem, CloseId;
    SubsetStems(s.queue, s.queue, s.serial);
    var k := FindSerial(s.queue, c.serial);
    if k < |s.queue| {
      RemoveLeavesOthers(s.queue, k);
      SubsetStems(s.queue, Remove(s.queue, k), s.serial);
      if reply.Some? { RewriteStems(s.queue, k, s.queue[k].(id := reply.value), s.serial); }
    }
  }

  lemma ReplyAges(s: State, c: Call, reply: Option<nat>)
    requires s.refs > 0 && c.Delivery?
    ensures Ages(s, NotifyReplyStep(s, c, reply))
  {
    hide ResolveStep, AllStem;
    ResolveStems(s, c, reply);
    SubsetStems(s.queue, [], s.serial);
  }

  lemma SignalAges(s: State, sender: string, kind: SignalKind, id: nat, value: string)
    ensures Ages(s, SignalStep(s, sender, kind, id, value))
  {
    hide FindId, Remove, AllStem;
    SubsetStems(s.queue, s.queue, s.serial);
    var k := FindId(s.queue, id);
    if k < |s.queue| {
      RemoveLeavesOthers(s.queue, k);
      SubsetStems(s.queue, Remove(s.queue, k), s.serial);
      RewriteStems(s.queue, k, s.queue[k].(token := Some(value)), s.serial);
    }
  }

  lemma NothingAges(s: State)
    ensures Ages(s, s)
  {
    SubsetStems(s.queue, s.queue, s.serial);
  }

  lemma NextAges(s: State, ev: Event)
    requires Inv(s) && Enabled(s, ev)
    ensures Ages(s, Next(s, ev))
  {
    EventIsPossible(s, ev);
    NextIs(s, ev);
    hide Inv, Enabled, Next, Ages, ShowStep, DismissStep, FreeStep, AppearedStep, VanishedStep, CapabilitiesStep,
      NotifyReplyStep, SignalStep;
    match ev {
      case Show(chat, summary, body, image, utf8) =>
        if utf8 { ShowAges(s, chat, summary, body, image); } else { NothingAges(s); }
      case Dismiss(chat) => DismissAges(s, chat);
      case Free => FreeAges(s);
      case Appeared(name) => OwnerAges(s, name);
      case Vanished => OwnerAges(s, "");
      case CapabilitiesReply(c, caps) => CapabilitiesAges(s, c, caps);
      case NotifyReply(c, reply) => ReplyAges(s, c, reply);
      case Signal(sender, kind, id, value) => SignalAges(s, sender, kind, id, value);
    }
  }

  /** Before the daemon is ready nothing has been sent to it. */
  ghost predicate AllWait(s: State) {
    !s.ready ==> forall e :: e in s.queue ==> e.pending
  }

  lemma NextKeepsWaiting(s: State, ev: Event)
    requires Inv(s) && Enabled(s, ev) && AllWait(s)
    ensures AllWait(Next(s, ev))
  {
    EventIsPossible(s, ev);
    NextIs(s, ev);
    hide Inv, Enabled, Next, ShowStep, DismissStep, FreeStep, CapabilitiesStep, NotifyReplyStep, SignalStep;
    match ev {
      case Show(chat, summary, body, image, utf8) => if utf8 { ShowKeepsWaiting(s, chat, summary, body, image); }
      case Dismiss(chat) => DismissKeepsWaiting(s, chat);
      case Free => FreeKeepsWaiting(s);
      case Appeared(name) =>
      case Vanished =>
      case CapabilitiesReply(c, caps) => CapabilitiesKeepWaiting(s, c, caps);
      case NotifyReply(c, reply) => ReplyKeepsWaiting(s, c, reply);
      case Signal(sender, kind, id, value) => SignalKeepsWaiting(s, sender, kind, id, value);
    }
  }

  lemma ShowKeepsWaiting(s: State, chat: string, summary: string, body: string, image: Option<seq<int>>)
    requires Inv(s) && AllWait(s) && (s.ready ==> s.owner.Some?)
    ensures AllWait(ShowStep(s, chat, summary, body, image))
  {
    hide Inv, ShowStep;
    ShowKeepsReady(s, chat, summary, body, image);
    forall e | e in ShowStep(s, chat, summary, body, image).queue && !s.ready ensures e.pending {
      EachIsOldOrShown(s, chat, summary, body, image, e);
    }
  }

  lemma ShowKeepsReady(s: State, chat: string, summary: string, body: string, image: Option<seq<int>>)
    requires s.ready ==> s.owner.Some?
    ensures ShowStep(s, chat, summary, body, image).ready == s.ready
  {
    hide QueueStep, Due, MarkSent, Messages, Deliveries;
  }

  lemma DismissKeepsWaiting(s: State, chat: string)
    requires AllWait(s)
    ensures AllWait(DismissStep(s, chat))
  {
    hide FindChat, Remove, CloseId;
    var k := FindChat(s.queue, chat);
    if k < |s.queue| { RemoveLeavesOthers(s.queue, k); }
  }

  lemma FreeKeepsWaiting(s: State)
    requires AllWait(s) && s.refs > 0
    ensures AllWait(FreeStep(s))
  {
    hide HeldHandles;
  }

  lemma CapabilitiesKeepWaiting(s: State, c: Call, caps: Option<Caps>)
    requires AllWait(s) && s.refs > 0 && (c.generation == s.generation ==> s.owner.Some?)
    ensures AllWait(CapabilitiesStep(s, c, caps))
  {
    hide MarkSent, Serials, Due, Messages, Deliveries;
  }

  lemma ResolveKeepsWaiting(s: State, c: Call, reply: Option<nat>)
    requires AllWait(s) && c.Delivery?
    ensures AllWait(ResolveStep(s, c, reply))
  {
    hide CloseId, FindSerial, Remove;
    var k := FindSerial(s.queue, c.serial);
    if k < |s.queue| {
      assert s.queue[k] in s.queue;
      RemoveLeavesOthers(s.queue, k);
    }
  }

  lemma ReplyKeepsWaiting(s: State, c: Call, reply: Option<nat>)
    requires AllWait(s) && s.refs > 0 && c.Delivery?
    ensures AllWait(NotifyReplyStep(s, c, reply))
  {
    hide ResolveStep;
    ResolveKeepsWaiting(s, c, reply);
  }

  lemma SignalKeepsWaiting(s: State, sender: string, kind: SignalKind, id: nat, value: string)
    requires AllWait(s)
    ensures AllWait(SignalStep(s, sender, kind, id, value))
  {
    hide FindId, Remove;
    var k := FindId(s.queue, id);
    if k < |s.queue| {
      assert s.queue[k] in s.queue;
      RemoveLeavesOthers(s.queue, k);
    }
  }

  lemma {:induction false} RunWaits(history: seq<Event>)
    requires Run(history).Some?
    ensures AllWait(Run(history).value)
    decreases |history|
  {
    if history != [] {
      var n := |history| - 1;
      RunWaits(history[..n]);
      NextKeepsWaiting(Run(history[..n]).value, history[n]);
    }
  }

  lemma {:induction false} ShownInRun(history: seq<Event>, i: nat, e: Notice)
    requires i < |history| && Run(history[..i]).Some? && Run(history).Some?
    requires history[i].Show? && history[i].utf8
    requires e in Run(history).value.queue && e.serial == Run(history[..i]).value.serial + 1
    ensures e.chat == history[i].chat && e.summary == history[i].summary && e.body == history[i].body
    ensures e.pending ==> e.image == history[i].image
    decreases |history|
  {
    hide Inv, Next, Ages, AllStem;
    var n := |history| - 1;
    var a, b := Run(history[..i]).value, Run(history[..n]).value;
    if i == n {
      StepShows(a, history[i], e);
    } else {
      assert history[..n][..i] == history[..i];
      SerialsGrow(history[..n], i);
      NextAges(b, history[n]);
      var d := Ancestor(b, history[n], e);
      ShownInRun(history[..n], i, d);
    }
  }

  lemma Ancestor(s: State, ev: Event, e: Notice) returns (d: Notice)
    requires Inv(s) && Enabled(s, ev) && Ages(s, Next(s, ev)) && e in Next(s, ev).queue && e.serial <= s.serial
    ensures d in s.queue && Likewise(d, e)
  {
    hide Inv, Enabled, Next;
    assert Stems(s.queue, e);
    d :| d in s.queue && Likewise(d, e);
  }

  lemma StepShows(s: State, ev: Event, e: Notice)
    requires Inv(s) && Enabled(s, ev) && ev.Show? && ev.utf8
    requires e in Next(s, ev).queue && e.serial == s.serial + 1
    ensures e.chat == ev.chat && e.summary == ev.summary && e.body == ev.body && (e.pending ==> e.image == ev.image)
  {
    hide Inv, Enabled, Next, ShowStep;
    EventIsPossible(s, ev);
    NextIs(s, ev);
    EachIsOldOrShown(s, ev.chat, ev.summary, ev.body, ev.image, e);
  }

  /** Once the event at i has shown a notice, its serial is in the past. */
  lemma {:induction false} SerialsGrow(history: seq<Event>, i: nat)
    requires i < |history| && Run(history[..i]).Some? && Run(history).Some? && history[i].Show? && history[i].utf8
    ensures Run(history[..i]).value.serial + 1 <= Run(history).value.serial
    decreases |history|
  {
    hide Inv, Next;
    var n := |history| - 1;
    if i == n {
      var s, ev := Run(history[..i]).value, history[i];
      EventIsPossible(s, ev);
      NextIs(s, ev);
      ShownAsGiven(s, ev.chat, ev.summary, ev.body, ev.image);
      hide ShowStep;
    } else {
      assert history[..n][..i] == history[..i];
      SerialsGrow(history[..n], i);
      NextAges(Run(history[..n]).value, history[n]);
    }
  }

  /**
   A notice shown before the daemon was ready, and still in the list when the answer comes, goes out in
   that step: with the texts it was shown with, and its image for a daemon that shows images.
   */
  lemma WaitingGoesOutAsShown(history: seq<Event>, i: nat, c: Call, caps: Option<Caps>, e: Notice)
    requires i < |history| && Run(history[..i]).Some? && Run(history).Some?
    requires history[i].Show? && history[i].utf8
    requires var s := Run(history).value;
             && !s.ready && !s.stopped && c.GetCapabilities? && c in s.calls && c.generation == s.generation
             && e in s.queue && e.serial == Run(history[..i]).value.serial + 1
    ensures Inv(Run(history).value)
    ensures var s := Run(history).value;
            var t, shown := Next(s, CapabilitiesReply(c, caps)), history[i];
            exists m ::
              && m in t.notified && m !in s.notified && m.call.serial == e.serial && Some(m.owner) == s.owner
              && m.summary == shown.summary && m.body == shown.body
              && (m.escaped <==> caps.Some? && caps.value.markup) && (m.buttons <==> caps.Some? && caps.value.actions)
              && m.image == if caps.Some? && caps.value.images then shown.image else None
  {
    var s := Run(history).value;
    assert Reachable(s);
    RunWaits(history);
    assert e.pending;
    ShownInRun(history, i, e);
    hide Run, Reachable, Inv, Next;
    AnswerSendsWhatWaited(s, c, caps, e);
  }

  // ----- Replies and signals -----

  /** The reply to a call of the present owner: the notice gets its id, or goes if the call failed. */
  lemma ReplyMeans(s: State, c: Call, reply: Option<nat>, k: nat)
    requires Inv(s) && !s.stopped && s.refs > 1 && c.Delivery? && c.generation == s.generation
    requires k < |s.queue| && s.queue[k].serial == c.serial
    ensures var t, e := NotifyReplyStep(s, c, reply), s.queue[k];
            && t.closed == s.closed && t.refs == s.refs - 1 && t.calls == s.calls - multiset{c}
            && match reply
               case Some(id) => t.queue == s.queue[k := Notice(e.chat, e.summary, e.body, e.image, e.token, id, e.serial, e.pending)]
               case None => t.queue == s.queue[..k] + s.queue[k + 1..]
  {
    hide Inv, FindSerial, CloseId;
    SerialIsFound(s, c.serial, k);
  }

  lemma SerialIsFound(s: State, serial: nat, k: nat)
    requires Inv(s) && k < |s.queue| && s.queue[k].serial == serial
    ensures FindSerial(s.queue, serial) == k
  {
  }

  /** A notice dismissed or evicted while its call was under way is closed when the reply names it. */
  lemma LateReplyCloses(s: State, c: Call, id: nat)
    requires !s.stopped && s.refs > 1 && s.owner.Some? && c.Delivery? && c.generation == s.generation && id != 0
    requires forall e :: e in s.queue ==> e.serial != c.serial
    ensures var t := NotifyReplyStep(s, c, Some(id)); t.queue == s.queue && t.closed == s.closed + {Handle(s.generation, id)}
  {
    assert FindSerial(s.queue, c.serial) == |s.queue|;
  }

  lemma IdIsFound(s: State, id: nat, k: nat)
    requires Inv(s) && k < |s.queue| && id != 0 && s.queue[k].id == id
    ensures FindId(s.queue, id) == k
  {
  }

  /** What the present owner says of the notice it calls `id`. */
  lemma SignalMeans(s: State, kind: SignalKind, id: nat, value: string, k: nat)
    requires Inv(s) && !s.stopped && s.owner.Some? && k < |s.queue| && id != 0 && s.queue[k].id == id
    ensures var t, e := SignalStep(s, s.owner.value, kind, id, value), s.queue[k];
            && t == s.(queue := t.queue, invoked := t.invoked, reported := t.reported)
            && match kind
               case ActivationToken =>
                 && |t.queue| == |s.queue| && t.invoked == s.invoked && t.reported == s.reported
                 && (forall j :: 0 <= j < |s.queue| && j != k ==> t.queue[j] == s.queue[j])
                 && t.queue[k] == Notice(e.chat, e.summary, e.body, e.image, Some(value), id, e.serial, e.pending)
               case ActionInvoked =>
                 && t.queue == s.queue && t.reported == s.reported
                 && t.invoked == (if value == "default" then
                                    s.invoked + [(e.chat, match e.token case None => "" case Some(token) => token)]
                                  else s.invoked)
               case NotificationClosed =>
                 t.queue == s.queue[..k] + s.queue[k + 1..] && t.invoked == s.invoked
               case Other => t == s
  {
    hide Inv, FindId;
    IdIsFound(s, id, k);
  }

  /** zc_notifications_free asks the daemon to close what is held, and nothing else. */
  lemma FreeCloses(s: State, h: Handle)
    requires Inv(s) && s.refs > 0
    ensures FreeStep(s).stopped
    ensures h in FreeStep(s).closed <==>
            h in s.closed || (s.owner.Some? && h.generation == s.generation && h.id != 0 && exists e :: e in s.queue && e.id == h.id)
  {
    hide Inv;
  }
}
