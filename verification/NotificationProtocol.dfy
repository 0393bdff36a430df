/**
 The desktop notification client of src/client/notifications.c as a transition system.

 The 64-slot table is seen here as the recency list it implements: `queue` holds the occupied
 slots, oldest first. The notification daemon is the environment. It answers calls in any order
 or not at all, emits any signal, and comes and goes; `Enabled` states what is assumed of it.
 The class in NotificationTable.dfy proves that the C code's in-place table takes exactly these
 steps.
 */
module NotificationProtocol {
  import opened Common

  const LIMIT := 64

  /** What a slot holds. An `id` of zero means that no reply has named the notification yet. */
  datatype Notice = Notice(
    chat: string, summary: string, body: string, image: Option<seq<int>>,
    token: Option<string>, id: nat, serial: nat, pending: bool)

  datatype Caps = Caps(actions: bool, markup: bool, images: bool)

  const NO_CAPS := Caps(false, false, false)

  /** A method call whose reply callback has not run yet. */
  datatype Call =
    | GetCapabilities(generation: nat)
    | Delivery(generation: nat, serial: nat)

  type DeliveryCall = c: Call | c.Delivery? witness Delivery(0, 0)

  /** A Notify message as it goes out on the bus. */
  datatype Notify = Notify(
    call: DeliveryCall, owner: string, summary: string, body: string, escaped: bool,
    buttons: bool, image: Option<seq<int>>)

  /** A notification as the daemon knows it: an id given out under one generation of its owner. */
  datatype Handle = Handle(generation: nat, id: nat)

  datatype State = State(
    queue: seq<Notice>,
    serial: nat,
    generation: nat,
    owner: Option<string>,
    ready: bool,
    caps: Caps,
    stopped: bool,
    refs: nat,
    // What has gone out on the bus.
    calls: multiset<Call>,
    notified: multiset<Notify>,
    closed: set<Handle>,
    invoked: seq<(string, string)>,
    // What has been seen of the daemon.
    owners: map<nat, string>,
    delivered: set<Handle>,
    reported: set<Handle>)

  datatype SignalKind = ActivationToken | ActionInvoked | NotificationClosed | Other

  datatype Event =
    | Show(chat: string, summary: string, body: string, image: Option<seq<int>>, utf8: bool)
    | Dismiss(chat: string)
    | Free
    | Appeared(name: string)
    | Vanished
    | CapabilitiesReply(call: Call, caps: Option<Caps>)
    | NotifyReply(call: Call, reply: Option<nat>)
    | Signal(sender: string, kind: SignalKind, id: nat, value: string)

  const START := State([], 0, 0, None, false, NO_CAPS, false, 1,
                       multiset{}, multiset{}, {}, [], map[], {}, {})

  // ----- The recency list -----

  /** Index of the notice of `chat`, or the length of the queue. */
  function FindChat(q: seq<Notice>, chat: string): (k: nat)
    ensures k <= |q|
    ensures k < |q| ==> q[k].chat == chat
    ensures forall j :: 0 <= j < k ==> q[j].chat != chat
  {
    if q == [] then 0 else if q[0].chat == chat then 0 else 1 + FindChat(q[1..], chat)
  }

  function FindSerial(q: seq<Notice>, serial: nat): (k: nat)
    ensures k <= |q|
    ensures k < |q| ==> q[k].serial == serial
    ensures forall j :: 0 <= j < k ==> q[j].serial != serial
  {
    if q == [] then 0 else if q[0].serial == serial then 0 else 1 + FindSerial(q[1..], serial)
  }

  /** Index of the notice the daemon calls `id`; zero names nothing. */
  function FindId(q: seq<Notice>, id: nat): (k: nat)
    ensures k <= |q|
    ensures k < |q| ==> id != 0 && q[k].id == id
    ensures id != 0 ==> forall j :: 0 <= j < k ==> q[j].id != id
  {
    if id == 0 then |q|
    else if q == [] then 0 else if q[0].id == id then 0 else 1 + FindId(q[1..], id)
  }

  function Remove(q: seq<Notice>, k: nat): (r: seq<Notice>)
    requires k < |q|
    ensures |r| == |q| - 1
    ensures forall j :: 0 <= j < |r| ==> r[j] == if j < k then q[j] else q[j + 1]
  {
    q[..k] + q[k + 1..]
  }

  // ----- Steps -----

  function CloseId(s: State, id: nat): (t: State)
    ensures t == s.(closed := t.closed)
  {
    if id != 0 && s.owner.Some? then s.(closed := s.closed + {Handle(s.generation, id)}) else s
  }

  function DismissStep(s: State, chat: string): (t: State)
    ensures t == s.(queue := t.queue, closed := t.closed)
  {
    var k := FindChat(s.queue, chat);
    if k == |s.queue| then s
    else CloseId(s, s.queue[k].id).(queue := Remove(s.queue, k))
  }

  /** The Notify message for a notice, shaped by the daemon's capabilities. */
  function Message(s: State, e: Notice): Notify
    requires s.owner.Some?
  {
    Notify(Delivery(s.generation, e.serial), s.owner.value, e.summary, e.body,
           s.caps.markup, s.caps.actions, if s.caps.images then e.image else None)
  }

  /** The notices that are still waiting to be sent and whose serial is in `serials`. */
  function Due(q: seq<Notice>, serials: set<nat>): set<Notice> {
    set e | e in q && e.pending && e.serial in serials
  }

  function MarkSent(q: seq<Notice>, serials: set<nat>): (r: seq<Notice>)
    ensures |r| == |q|
  {
    seq(|q|, i requires 0 <= i < |q| =>
      if q[i].pending && q[i].serial in serials then q[i].(pending := false, image := None) else q[i])
  }

  function Messages(s: State, due: set<Notice>): set<Notify>
    requires s.owner.Some?
  {
    set e | e in due :: Message(s, e)
  }

  function Deliveries(generation: nat, due: set<Notice>): set<Call> {
    set e | e in due :: Delivery(generation, e.serial)
  }

  /** Sends every waiting notice whose serial is in `serials`. */
  function Send(s: State, serials: set<nat>): State
    requires s.owner.Some?
  {
    var due := Due(s.queue, serials);
    s.(queue := MarkSent(s.queue, serials),
       notified := s.notified + multiset(Messages(s, due)),
       calls := s.calls + multiset(Deliveries(s.generation, due)),
       refs := s.refs + |Deliveries(s.generation, due)|)
  }

  function Serials(q: seq<Notice>): set<nat> {
    set e | e in q :: e.serial
  }

  /** Drops the oldest notice when every slot is taken. */
  function EvictStep(s: State): (t: State)
    ensures t == s.(queue := t.queue, closed := t.closed)
  {
    if |s.queue| < LIMIT then s else CloseId(s, s.queue[0].id).(queue := s.queue[1..])
  }

  function NewNotice(s: State, chat: string, summary: string, body: string, image: Option<seq<int>>): Notice {
    Notice(chat, summary, body, if s.ready && !s.caps.images then None else image, None, 0, s.serial + 1, true)
  }

  /** Replaces the chat's notice by a new one at the end of the list, not sent yet. */
  function QueueStep(s: State, chat: string, summary: string, body: string, image: Option<seq<int>>): (t: State)
    ensures t == s.(queue := t.queue, closed := t.closed, serial := s.serial + 1)
  {
    var s1 := EvictStep(DismissStep(s, chat));
    s1.(queue := s1.queue + [NewNotice(s, chat, summary, body, image)], serial := s.serial + 1)
  }

  function ShowStep(s: State, chat: string, summary: string, body: string, image: Option<seq<int>>): State
    requires s.ready ==> s.owner.Some?
  {
    var s1 := QueueStep(s, chat, summary, body, image);
    if s.ready then Send(s1, {s.serial + 1}) else s1
  }

  function Release(s: State): State
    requires s.refs > 0
  {
    if s.refs == 1 then s.(refs := 0, queue := []) else s.(refs := s.refs - 1)
  }

  function HeldHandles(s: State): set<Handle> {
    set e | e in s.queue && e.id != 0 :: Handle(s.generation, e.id)
  }

  function FreeStep(s: State): State
    requires s.refs > 0
  {
    Release(s.(stopped := true,
               closed := if s.owner.Some? then s.closed + HeldHandles(s) else s.closed))
  }

  function AppearedStep(s: State, name: string): State {
    var g := s.generation + 1;
    s.(generation := g, ready := false, owner := Some(name), owners := s.owners[g := name],
       calls := s.calls + multiset{GetCapabilities(g)}, refs := s.refs + 1)
  }

  function VanishedStep(s: State): State {
    s.(generation := s.generation + 1, ready := false, owner := None, queue := [])
  }

  /** The daemon is ready, with what it could or could not say of itself; everything waiting goes out. */
  function ReadyStep(s: State, caps: Option<Caps>): (t: State)
    requires s.owner.Some?
    ensures t.refs >= s.refs
  {
    var known := s.(ready := true, caps := if caps.Some? then caps.value else NO_CAPS);
    Send(known, Serials(s.queue))
  }

  function CapabilitiesStep(s: State, c: Call, caps: Option<Caps>): State
    requires s.refs > 0
    requires !s.stopped && c.generation == s.generation ==> s.owner.Some?
  {
    var s1 := if !s.stopped && c.generation == s.generation then ReadyStep(s, caps) else s;
    Release(s1.(calls := s1.calls - multiset{c}))
  }

  /** What a reply to Notify, or its failure, changes. */
  function ResolveStep(s: State, c: Call, reply: Option<nat>): (t: State)
    requires c.Delivery?
    ensures t == s.(queue := t.queue, closed := t.closed, delivered := t.delivered)
  {
    var k := FindSerial(s.queue, c.serial);
    match reply
    case Some(id) =>
      var seen := s.(delivered := s.delivered + {Handle(c.generation, id)});
      if s.stopped || c.generation != s.generation then seen
      else if k < |s.queue| then seen.(queue := s.queue[k := s.queue[k].(id := id)])
      else CloseId(seen, id)
    case None =>
      if c.generation == s.generation && k < |s.queue| then s.(queue := Remove(s.queue, k)) else s
  }

  function NotifyReplyStep(s: State, c: Call, reply: Option<nat>): State
    requires s.refs > 0 && c.Delivery?
  {
    var t := ResolveStep(s, c, reply);
    Release(t.(calls := t.calls - multiset{c}))
  }

  /** What a signal does to the notice it names. The action callback is the client's own. */
  function AnswerStep(s: State, kind: SignalKind, k: nat, value: string): State
    requires k < |s.queue|
  {
    var e := s.queue[k];
    match kind
    case ActivationToken => s.(queue := s.queue[k := e.(token := Some(value))])
    case ActionInvoked =>
      if value != "default" then s
      else s.(invoked := s.invoked + [(e.chat, if e.token.Some? then e.token.value else "")])
    case NotificationClosed => s.(queue := Remove(s.queue, k))
    case Other => s
  }

  function AnswerIdStep(s: State, kind: SignalKind, id: nat, value: string): State {
    var k := FindId(s.queue, id);
    if k == |s.queue| then s else AnswerStep(s, kind, k, value)
  }

  function SignalStep(s: State, sender: string, kind: SignalKind, id: nat, value: string): State {
    if s.stopped || s.owner != Some(sender) || kind.Other? then s
    else
      var s1 := if kind.NotificationClosed? then s.(reported := s.reported + {Handle(s.generation, id)}) else s;
      AnswerIdStep(s1, kind, id, value)
  }

  /**
   What the client and the bus may do next. The owner of the object calls nothing after Free; the
   bus watcher reports an owner's departure before the next arrival; a reply belongs to a call
   that is still outstanding; and a daemon never gives out zero or an id it gave out before.
   */
  predicate Enabled(s: State, ev: Event) {
    match ev
    case Show(_, _, _, _, _) => !s.stopped
    case Dismiss(_) => !s.stopped
    case Free => !s.stopped
    case Appeared(_) => !s.stopped && s.owner.None?
    case Vanished => !s.stopped
    case CapabilitiesReply(c, _) => c.GetCapabilities? && c in s.calls
    case NotifyReply(c, id) =>
      c.Delivery? && c in s.calls && (id.Some? ==> id.value != 0 && Fresh(s, c.generation, id.value))
    case Signal(_, _, _, _) => !s.stopped
  }

  predicate Fresh(s: State, generation: nat, id: nat) {
    forall h :: h in s.delivered && SameOwner(s.owners, h.generation, generation) ==> h.id != id
  }

  predicate SameOwner(owners: map<nat, string>, g: nat, h: nat) {
    g in owners && h in owners && owners[g] == owners[h]
  }

  function Next(s: State, ev: Event): State
    requires Inv(s) && Enabled(s, ev)
  {
    assert forall c :: c in s.calls ==> |s.calls| > 0;
    match ev
    case Show(chat, summary, body, image, utf8) =>
      if utf8 then ShowStep(s, chat, summary, body, image) else s
    case Dismiss(chat) => DismissStep(s, chat)
    case Free => FreeStep(s)
    case Appeared(name) => AppearedStep(s, name)
    case Vanished => VanishedStep(s)
    case CapabilitiesReply(c, caps) => CapabilitiesStep(s, c, caps)
    case NotifyReply(c, id) => NotifyReplyStep(s, c, id)
    case Signal(sender, kind, id, value) => SignalStep(s, sender, kind, id, value)
  }

  // ----- What every reachable state satisfies -----

  /** At most 64 notices of distinct chats, in the order of their distinct serials. */
  predicate QueueOk(q: seq<Notice>, serial: nat) {
    && |q| <= LIMIT
    && (forall e :: e in q ==> 0 < e.serial <= serial)
    && (forall i, j :: 0 <= i < j < |q| ==> q[i].serial < q[j].serial)
    && (forall i, j :: 0 <= i < j < |q| ==> q[i].chat != q[j].chat)
    && (forall i, j :: 0 <= i < j < |q| && q[i].id != 0 ==> q[i].id != q[j].id)
  }

  predicate OwnerOk(generation: nat, owner: Option<string>, owners: map<nat, string>) {
    && (owner.Some? <==> generation in owners)
    && (owner.Some? ==> owners[generation] == owner.value)
    && (forall g :: g in owners ==> g <= generation)
  }

  predicate NothingWaits(q: seq<Notice>) {
    forall e :: e in q ==> !e.pending
  }

  predicate Announced(sent: multiset<Notify>, serial: nat) {
    exists m :: m in sent && m.call.serial == serial
  }

  /** Each serial is announced at most once, and not while its notice still waits. */
  predicate OnceOk(sent: multiset<Notify>, serial: nat, q: seq<Notice>) {
    && (forall m :: m in sent ==> 0 < m.call.serial <= serial && sent[m] == 1)
    && (forall m, n :: m in sent && n in sent && m.call.serial == n.call.serial ==> m == n)
    && (forall e :: e in q && e.pending ==> e.id == 0 && !Announced(sent, e.serial))
  }

  /** An outstanding Notify call was announced once, and the notice it names awaits its id. */
  predicate CallsOk(calls: multiset<Call>, sent: multiset<Notify>, generation: nat,
                    owners: map<nat, string>, q: seq<Notice>) {
    && (forall c :: c in calls ==> c.generation in owners)
    && (forall c :: c in calls && c.Delivery? ==> calls[c] == 1 && Announced(sent, c.serial))
    && (forall e :: e in q && Delivery(generation, e.serial) in calls ==> !e.pending && e.id == 0)
  }

  /** The reference count is the number of outstanding calls, plus the owner's until Free. */
  predicate RefsOk(refs: nat, calls: multiset<Call>, stopped: bool) {
    refs == |calls| + (if stopped then 0 else 1)
  }

  predicate Held(q: seq<Notice>, id: nat) {
    exists e :: e in q && e.id == id
  }

  /** Every id the current daemon gave us and still shows is held, or was asked to close. */
  predicate Accounted(generation: nat, q: seq<Notice>, delivered: set<Handle>, closed: set<Handle>,
                      reported: set<Handle>) {
    forall h :: h in delivered && h.generation == generation && h !in reported ==>
      (Held(q, h.id) <==> h !in closed)
  }

  predicate LedgerOk(generation: nat, owners: map<nat, string>, q: seq<Notice>,
                     delivered: set<Handle>, closed: set<Handle>) {
    && (forall h :: h in delivered ==> h.generation in owners && h.id != 0)
    && closed <= delivered
    && (forall e :: e in q && e.id != 0 ==> Handle(generation, e.id) in delivered)
  }

  /** Everything but NothingWaits, which Show and the capabilities reply break and then restore. */
  predicate Core(s: State) {
    && QueueOk(s.queue, s.serial)
    && OwnerOk(s.generation, s.owner, s.owners)
    && OnceOk(s.notified, s.serial, s.queue)
    && CallsOk(s.calls, s.notified, s.generation, s.owners, s.queue)
    && RefsOk(s.refs, s.calls, s.stopped)
    && (s.refs == 0 ==> s.queue == [])
    && LedgerOk(s.generation, s.owners, s.queue, s.delivered, s.closed)
    && (!s.stopped ==> Accounted(s.generation, s.queue, s.delivered, s.closed, s.reported))
  }

  predicate Inv(s: State) {
    && Core(s)
    && (s.ready ==> s.owner.Some? && NothingWaits(s.queue))
  }
}
