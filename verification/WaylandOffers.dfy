/**
 Who owns a Wayland data offer: src/client/desktop/wayland.c.

 Offers are heap nodes in a linked list. One of them may be the drag over the window, another may
 feed the one running transfer. The compositor is assumed to announce each offer under a new proxy
 and to name it once, in `enter` or in `selection`.
 */
module WaylandOffers {
  import opened Common
  import opened UriList
  import opened DropTarget

  const MAX_OFFERS := 32
  const COPY := 1

  class Offer {
    var next: Offer?
    const proxy: nat
    var uris: bool
    var action: nat

    constructor (proxy: nat, next: Offer?)
      ensures this.proxy == proxy && this.next == next && !uris && action == 0
    {
      this.proxy, this.next, uris, action := proxy, next, false, 0;
    }
  }

  function Without(list: seq<Offer>, o: Offer?): (r: seq<Offer>)
    ensures |r| <= |list|
    ensures forall x :: x in r ==> x in list && x != o
    ensures forall x :: x in list && x != o ==> x in r
  {
    if list == [] then []
    else if list[0] == o then Without(list[1..], o)
    else [list[0]] + Without(list[1..], o)
  }

  lemma {:induction false} WithoutAbsent(list: seq<Offer>, o: Offer?)
    requires o !in list
    ensures Without(list, o) == list
  {
    if list != [] {
      WithoutAbsent(list[1..], o);
    }
  }

  function Cut(list: seq<Offer>, k: nat): (r: seq<Offer>)
    requires k < |list|
    ensures |r| == |list| - 1
    ensures forall i :: 0 <= i < |r| ==> r[i] == if i < k then list[i] else list[i + 1]
  {
    list[..k] + list[k + 1..]
  }

  /** Each node stands for a proxy of its own. */
  predicate Distinct(list: seq<Offer>) {
    forall i, j :: 0 <= i < j < |list| ==> list[i].proxy != list[j].proxy
  }

  lemma DifferAt(list: seq<Offer>, i: nat, j: nat)
    requires Distinct(list) && i < |list| && j < |list| && i != j
    ensures list[i] != list[j]
  {
    assert list[i].proxy != list[j].proxy;
  }

  lemma CutKeepsDistinct(list: seq<Offer>, k: nat)
    requires k < |list| && Distinct(list)
    ensures Distinct(Cut(list, k))
  {
    var r := Cut(list, k);
    forall i, j | 0 <= i < j < |r| ensures r[i].proxy != r[j].proxy {
      assert r[i] == list[if i < k then i else i + 1] && r[j] == list[if j < k then j else j + 1];
    }
  }

  lemma {:induction false} WithoutAt(list: seq<Offer>, k: nat)
    requires k < |list| && Distinct(list)
    ensures Without(list, list[k]) == Cut(list, k)
  {
    if k == 0 {
      WithoutAbsent(list[1..], list[0]);
    } else {
      WithoutAt(list[1..], k - 1);
      assert list[1..][..k - 1] == list[1..k] && list[1..][k..] == list[k + 1..];
      assert list[..k] == [list[0]] + list[1..k];
    }
  }

  function NodeAt(list: seq<Offer>, i: int): Offer? {
    if 0 <= i < |list| then list[i] else null
  }

  /** The static `transfer`; its offer is null when there is none. */
  datatype Transfer = Transfer(offer: Offer?, fd: int, text: array?<byte>, length: nat, deadline: nat)

  const IDLE := Transfer(null, -1, null, 0, 0)

  /** Pipe ends and text buffers, taken and given back. */
  datatype Resources = Resources(
    pipesOpened: multiset<int>, pipesClosed: multiset<int>, buffersTaken: nat, buffersFreed: nat)

  function Opened(r: Resources, reader: int, writer: int): Resources {
    r.(pipesOpened := r.pipesOpened + multiset{reader, writer})
  }

  function Closed(r: Resources, fd: int): Resources {
    r.(pipesClosed := r.pipesClosed + multiset{fd})
  }

  /** The running transfer owns one pipe end and one buffer; nothing else is owned. */
  ghost predicate Owned(r: Resources, t: Transfer) {
    && r.pipesOpened == r.pipesClosed + (if t.offer == null then multiset{} else multiset{t.fd})
    && r.buffersTaken == r.buffersFreed + (if t.offer == null then 0 else 1)
    && (t.offer == null ==> t == IDLE)
    && (t.offer != null ==> t.text != null && t.text.Length == BYTES + 1 && t.length <= BYTES + 1)
  }

  ghost predicate Listed(list: seq<Offer>, proxy: nat) {
    exists o :: o in list && o.proxy == proxy
  }

  /** Every proxy that is no longer listed was destroyed once, and no listed one was. */
  ghost predicate Proxies(list: seq<Offer>, destroyed: multiset<nat>, announced: set<nat>, named: set<nat>) {
    && (forall o :: o in list ==> o.proxy in announced && destroyed[o.proxy] == 0)
    && (forall p :: p in destroyed ==> p in announced && destroyed[p] == 1)
    && (forall p :: p in announced && destroyed[p] == 0 ==> Listed(list, p))
    && named <= announced
  }

  /** The drag and the transfer are different members of the list, each named by the compositor. */
  ghost predicate Roles(list: seq<Offer>, drag: Offer?, offer: Offer?, named: set<nat>) {
    && |list| <= MAX_OFFERS
    && (drag != null ==> drag in list && drag.proxy in named)
    && (offer != null ==> offer in list && offer.proxy in named)
    && (drag != null ==> drag != offer)
  }

  lemma SameProxy(list: seq<Offer>, o: Offer, x: Offer)
    requires Distinct(list) && o in list && x in list && o.proxy == x.proxy
    ensures o == x
  {
    var i :| 0 <= i < |list| && list[i] == x;
    var j :| 0 <= j < |list| && list[j] == o;
  }

  /** Destroying a member of the list keeps the accounts, and its proxy is gone for good. */
  lemma DestroyKeepsAccounts(list: seq<Offer>, destroyed: multiset<nat>, announced: set<nat>, named: set<nat>, o: Offer)
    requires Distinct(list) && o in list && Proxies(list, destroyed, announced, named)
    ensures Proxies(Without(list, o), destroyed + multiset{o.proxy}, announced, named)
  {
    var r := Without(list, o);
    forall x | x in r ensures x.proxy != o.proxy {
      if x.proxy == o.proxy {
        SameProxy(list, o, x);
      }
    }
    forall p | p in announced && (destroyed + multiset{o.proxy})[p] == 0 ensures Listed(r, p) {
      var x :| x in list && x.proxy == p;
      assert x in r;
    }
  }

  lemma NamingKeepsProxies(list: seq<Offer>, destroyed: multiset<nat>, announced: set<nat>, named: set<nat>, p: nat)
    requires Proxies(list, destroyed, announced, named) && p in announced
    ensures Proxies(list, destroyed, announced, named + {p})
  {
  }

  /** A newly named offer is neither the drag nor the transfer, so it may become the drag. */
  lemma NewDragKeepsRoles(list: seq<Offer>, offer: Offer?, named: set<nat>, o: Offer?, p: nat)
    requires Roles(list, null, offer, named) && p !in named && (o != null ==> o in list && o.proxy == p)
    ensures Roles(list, o, offer, named + {p})
  {
  }

  lemma UnnamedHasNoRole(list: seq<Offer>, drag: Offer?, offer: Offer?, named: set<nat>, o: Offer?)
    requires Roles(list, drag, offer, named) && (o != null ==> o in list && o.proxy !in named)
    ensures o != null ==> o != drag && o != offer
    ensures Roles(list, drag, offer, named)
  {
  }

  lemma NamingKeepsRoles(list: seq<Offer>, drag: Offer?, offer: Offer?, named: set<nat>, p: nat)
    requires Roles(list, drag, offer, named)
    ensures Roles(list, drag, offer, named + {p})
  {
  }

  lemma UnlistedIsDestroyed(list: seq<Offer>, destroyed: multiset<nat>, announced: set<nat>, named: set<nat>, p: nat)
    requires Proxies(list, destroyed, announced, named) && p in announced
    ensures if Listed(list, p) then destroyed[p] == 0 else destroyed[p] == 1
  {
  }

  /** A new node at the head of the list, for a new proxy. */
  lemma AnnounceKeepsAccounts(list: seq<Offer>, destroyed: multiset<nat>, announced: set<nat>, named: set<nat>, o: Offer)
    requires Proxies(list, destroyed, announced, named) && Distinct(list) && o.proxy !in announced
    ensures Proxies([o] + list, destroyed, announced + {o.proxy}, named) && Distinct([o] + list)
  {
    var r := [o] + list;
    forall i, j | 0 <= i < j < |r| ensures r[i].proxy != r[j].proxy {
      assert r[j] in list;
    }
    forall p | p in announced + {o.proxy} && destroyed[p] == 0 ensures Listed(r, p) {
      if p == o.proxy {
        assert o in r;
      } else {
        var x :| x in list && x.proxy == p;
        assert x in r;
      }
    }
  }

  /** A proxy refused and destroyed as soon as it is announced. */
  lemma RefuseKeepsProxies(list: seq<Offer>, destroyed: multiset<nat>, announced: set<nat>, named: set<nat>, p: nat)
    requires Proxies(list, destroyed, announced, named) && p !in announced
    ensures Proxies(list, destroyed + multiset{p}, announced + {p}, named)
  {
  }

  lemma StartOwns(r: Resources, t: Transfer, reader: int, writer: int, u: Transfer)
    requires Owned(r, t) && t.offer == null && u.fd == reader
    requires u.offer != null && u.text != null && u.text.Length == BYTES + 1 && u.length == 0
    ensures var s := Closed(Opened(r, reader, writer), writer);
      Owned(s.(buffersTaken := s.buffersTaken + 1), u)
  {
  }

  lemma RefuseOwns(r: Resources, t: Transfer, reader: int, writer: int)
    requires Owned(r, t) && t.offer == null
    ensures Owned(Closed(Closed(Opened(r, reader, writer), reader), writer), t)
  {
  }

  lemma EndOwns(r: Resources, t: Transfer)
    requires Owned(r, t) && t.offer != null
    ensures var s := Closed(r, t.fd); Owned(s.(buffersFreed := s.buffersFreed + 1), IDLE)
  {
  }

  lemma TransferKeepsRoles(list: seq<Offer>, drag: Offer?, offer: Offer?, named: set<nat>)
    requires Roles(list, drag, offer, named)
    ensures offer == null ==> Roles(list, null, drag, named)
    ensures Roles(list, drag, null, named)
    ensures offer != null ==> offer in list && offer != drag
  {
  }

  /** What read() may return; no bytes at all mean the end of the payload. */
  datatype Read = Data(bytes: seq<byte>) | Interrupted | Again | Failed

  datatype Progress = Waiting(received: seq<byte>) | Complete(received: seq<byte>) | Refused

  /** What becomes of a transfer that has `received` so far when the pipe answers with `answers`. */
  function Outcome(received: seq<byte>, answers: seq<Read>): Progress
    decreases |answers|
  {
    if |received| > BYTES then Refused
    else if answers == [] then Waiting(received)
    else match answers[0]
      case Interrupted => Outcome(received, answers[1..])
      case Again => Waiting(received)
      case Failed => Refused
      case Data(bytes) =>
        var room := BYTES + 1 - |received|;
        var n := if |bytes| < room then |bytes| else room;
        if n == 0 then Complete(received)
        else if 0 in bytes[..n] then Refused
        else Outcome(received + bytes[..n], answers[1..])
  }

  /** The bytes before the end of the payload. */
  function Payload(answers: seq<Read>): seq<byte> {
    if answers == [] || answers[0] == Data([]) then []
    else (if answers[0].Data? then answers[0].bytes else []) + Payload(answers[1..])
  }

  /** The pipe answers, without an error, until the payload ends. */
  predicate Ends(answers: seq<Read>) {
    answers != [] && (answers[0] == Data([]) || ((answers[0].Data? || answers[0].Interrupted?) && Ends(answers[1..])))
  }

  /** However the payload is cut into answers, it is delivered whole if it fits and holds no NUL. */
  lemma {:induction false} PayloadIsDelivered(received: seq<byte>, answers: seq<Read>)
    requires Ends(answers)
    ensures var whole := received + Payload(answers);
      Outcome(received, answers) == if |whole| <= BYTES && 0 !in Payload(answers) then Complete(whole) else Refused
    decreases |answers|
  {
    if |received| <= BYTES && answers[0] != Data([]) {
      if answers[0].Interrupted? {
        PayloadIsDelivered(received, answers[1..]);
        assert [] + Payload(answers[1..]) == Payload(answers[1..]);
      } else {
        var bytes := answers[0].bytes;
        var room := BYTES + 1 - |received|;
        var n := if |bytes| < room then |bytes| else room;
        if n == |bytes| {
          assert bytes[..n] == bytes;
          PayloadIsDelivered(received + bytes, answers[1..]);
          assert received + bytes + Payload(answers[1..]) == received + (bytes + Payload(answers[1..]));
        } else {
          assert |received + Payload(answers)| > BYTES;
        }
      }
    } else if answers[0] == Data([]) {
      assert received + [] == received;
    }
  }

  /** The pipe has more to give later: data and interruptions, and at the last possibly nothing yet. */
  predicate Pauses(answers: seq<Read>) {
    || answers == []
    || answers == [Again]
    || (((answers[0].Data? && answers[0].bytes != []) || answers[0].Interrupted?) && Pauses(answers[1..]))
  }

  /** A payload that goes on is kept so far, unless it is too long already or holds a NUL. */
  lemma {:induction false} PayloadIsKept(received: seq<byte>, answers: seq<Read>)
    requires Pauses(answers) && |received| <= BYTES
    ensures var sofar := received + Payload(answers);
      Outcome(received, answers) == if |sofar| <= BYTES && 0 !in Payload(answers) then Waiting(sofar) else Refused
    decreases |answers|
  {
    if answers == [] || answers == [Again] {
      assert Payload(answers) == [] && received + [] == received;
    } else if answers[0].Interrupted? {
      PayloadIsKept(received, answers[1..]);
      assert [] + Payload(answers[1..]) == Payload(answers[1..]);
    } else {
      var bytes := answers[0].bytes;
      var room := BYTES + 1 - |received|;
      if |bytes| < room {
        assert bytes[..|bytes|] == bytes;
        PayloadIsKept(received + bytes, answers[1..]);
        assert received + bytes + Payload(answers[1..]) == received + (bytes + Payload(answers[1..]));
      } else {
        assert |received + Payload(answers)| > BYTES;
      }
    }
  }

  /** The bytes that several ticks bring. */
  function Brought(ticks: seq<(nat, seq<Read>)>): seq<byte> {
    if ticks == [] then [] else Brought(ticks[..|ticks| - 1]) + Payload(ticks[|ticks| - 1].1)
  }

  datatype Event =
    | Announce(proxy: nat, memory: bool)
    | MimeType(proxy: nat, isUriList: bool)
    | SelectedAction(proxy: nat, selected: nat)
    | DragEnter(entered: Option<nat>, ownSurface: bool)
    | DragLeave
    | DragDrop(pipe: Option<(int, int)>, memory: bool, now: nat)
    | Clipboard(entered: Option<nat>)
    | Tick(now: nat, answers: seq<Read>)
    | SeatGone

  /** What is assumed of the compositor: a new proxy for each offer, and each named once. */
  predicate Plausible(ev: Event, announced: set<nat>, named: set<nat>) {
    match ev
    case Announce(proxy, _) => proxy !in announced
    case DragEnter(Some(proxy), _) => proxy in announced && proxy !in named
    case Clipboard(Some(proxy)) => proxy in announced && proxy !in named
    case _ => true
  }

  function AnnouncedAfter(ev: Event, announced: set<nat>): set<nat> {
    if ev.Announce? then announced + {ev.proxy} else announced
  }

  function NamedAfter(ev: Event, named: set<nat>): set<nat> {
    match ev
    case DragEnter(Some(proxy), _) => named + {proxy}
    case Clipboard(Some(proxy)) => named + {proxy}
    case _ => named
  }

  /** What a whole history of events announced and named, on top of what was before it. */
  function AllAnnounced(events: seq<Event>, announced: set<nat>): set<nat> {
    if events == [] then announced else AllAnnounced(events[1..], AnnouncedAfter(events[0], announced))
  }

  function AllNamed(events: seq<Event>, named: set<nat>): set<nat> {
    if events == [] then named else AllNamed(events[1..], NamedAfter(events[0], named))
  }

  predicate Announces(events: seq<Event>, proxy: nat) {
    exists i :: 0 <= i < |events| && events[i].Announce? && events[i].proxy == proxy
  }

  /** All of them, and no other. */
  lemma {:induction false} AnnouncedByEvents(events: seq<Event>, announced: set<nat>, proxy: nat)
    ensures proxy in AllAnnounced(events, announced) <==> proxy in announced || Announces(events, proxy)
  {
    if events != [] {
      AnnouncedByEvents(events[1..], AnnouncedAfter(events[0], announced), proxy);
      if i :| 0 < i < |events| && events[i].Announce? && events[i].proxy == proxy {
        assert events[1..][i - 1] == events[i];
      }
    }
  }

  predicate AllPlausible(events: seq<Event>, announced: set<nat>, named: set<nat>)
    decreases |events|
  {
    events == [] ||
    (Plausible(events[0], announced, named)
     && AllPlausible(events[1..], AnnouncedAfter(events[0], announced), NamedAfter(events[0], named)))
  }

  class Device {
    const version: nat
    var offers: Offer?
    var drag: Offer?

    var transfer: Transfer

    const drop: Drop

    // The nodes of the linked list, in order.
    ghost var list: seq<Offer>

    // What the compositor has announced and named.
    ghost var announced: set<nat>
    ghost var named: set<nat>

    // What has been released.
    var destroyed: multiset<nat>
    var resources: Resources
    var finished: seq<nat>

    ghost predicate Linked()
      reads `offers, `list, list`next
    {
      && offers == NodeAt(list, 0)
      && (forall i {:trigger list[i].next} :: 0 <= i < |list| ==> list[i].next == NodeAt(list, i + 1))
      && Distinct(list)
    }

    ghost predicate Accounts()
      reads `list, `destroyed, `announced, `named, `drag, `transfer
    {
      Proxies(list, destroyed, announced, named) && Roles(list, drag, transfer.offer, named)
    }

    ghost predicate Valid()
      reads this, list`next, drop`count, drop`batch, drop.paths
    {
      && Linked() && Accounts() && drop.Valid() && Owned(resources, transfer)
    }

    constructor (version: nat)
      ensures Valid() && this.version == version && fresh(drop) && fresh(drop.paths)
      ensures list == [] && drag == null && transfer.offer == null && announced == {} && named == {}
    {
      this.version := version;
      offers, drag, transfer := null, null, IDLE;
      drop := new Drop();
      list, announced, named := [], {}, {};
      destroyed, resources, finished := multiset{}, Resources(multiset{}, multiset{}, 0, 0), [];
    }

    /** Walks the list to a node that is in it. */
    method Locate(o: Offer) returns (before: Offer?, ghost k: nat)
      requires Linked() && o in list
      ensures k < |list| && list[k] == o && before == NodeAt(list, k - 1)
    {
      k := 0;
      before := null;
      var at := offers;
      while at != null && at != o
        invariant k <= |list| && at == NodeAt(list, k)
        invariant before == NodeAt(list, k - 1)
        invariant o !in list[..k]
        decreases |list| - k
      {
        assert list[..k + 1] == list[..k] + [at];
        before, at := at, at.next;
        k := k + 1;
      }
      assert list[..|list|] == list;
    }

    /** Takes the k-th node out of the list; `before` is the node that links to it. */
    method Unlink(o: Offer, before: Offer?, ghost k: nat)
      requires Linked() && k < |list| && list[k] == o && before == NodeAt(list, k - 1)
      modifies this`offers, this`list, list`next
      ensures Linked() && list == Cut(old(list), k)
    {
      hide Distinct;
      ghost var was := list;
      assert forall j {:trigger was[j].next} :: 0 <= j < |was| ==> was[j].next == NodeAt(was, j + 1);
      label unlink:
      if before == null {
        offers := o.next;
      } else {
        before.next := o.next;
      }
      list := Cut(list, k);
      CutKeepsDistinct(was, k);
      forall i {:trigger list[i].next} | 0 <= i < |list| ensures list[i].next == NodeAt(list, i + 1) {
        var j := if i < k then i else i + 1;
        assert list[i] == was[j];
        assert old@unlink(was[j].next) == NodeAt(was, j + 1);
        if k > 0 && j != k - 1 { DifferAt(was, j, k - 1); }
      }
    }

    /** destroy_offer: unlinks the node and destroys its proxy. */
    method Destroy(o: Offer?)
      requires Linked() && (o != null ==> o in list)
      modifies this`offers, this`drag, this`destroyed, this`list, list`next
      ensures Linked() && list == Without(old(list), o)
      ensures drag == if old(drag) == o then null else old(drag)
      ensures destroyed == if o == null then old(destroyed) else old(destroyed) + multiset{o.proxy}
    {
      if o == null {
        WithoutAbsent(list, o);
        return;
      }
      ghost var k;
      var before: Offer?;
      before, k := Locate(o);
      assert Distinct(list);
      WithoutAt(list, k);
      hide Without, Distinct;
      Unlink(o, before, k);
      if drag == o {
        drag := null;
      }
      destroyed := destroyed + multiset{o.proxy};
    }

    /** destroy_offer seen from outside: the list forgets the node and its proxy is gone for good. */
    method Release(o: Offer?)
      requires Linked() && Accounts() && (o != null ==> o in list && o != transfer.offer)
      modifies this`offers, this`drag, this`destroyed, this`list, list`next
      ensures Linked() && Accounts() && list == Without(old(list), o)
      ensures drag == if old(drag) == o then null else old(drag)
      ensures destroyed == if o == null then old(destroyed) else old(destroyed) + multiset{o.proxy}
    {
      if o != null {
        DestroyKeepsAccounts(list, destroyed, announced, named, o);
      } else {
        WithoutAbsent(list, null);
      }
      hide Proxies, Distinct;
      Destroy(o);
    }

    method Count() returns (n: nat)
      requires Linked()
      ensures n == |list|
    {
      n := 0;
      var at := offers;
      while at != null
        invariant n <= |list| && at == NodeAt(list, n)
        decreases |list| - n
      {
        at := at.next;
        n := n + 1;
      }
    }

    /** wl_data_offer_get_user_data: the node of a proxy, if it has one. */
    method Find(proxy: nat) returns (o: Offer?)
      requires Linked()
      ensures o != null ==> o in list && o.proxy == proxy
      ensures o == null ==> forall x :: x in list ==> x.proxy != proxy
    {
      ghost var n := 0;
      o := offers;
      while o != null && o.proxy != proxy
        invariant n <= |list| && o == NodeAt(list, n)
        invariant forall i :: 0 <= i < n ==> list[i].proxy != proxy
        decreases |list| - n
      {
        o := o.next;
        n := n + 1;
      }
    }

    method Offered(proxy: nat, memory: bool)
      requires Valid() && proxy !in announced
      modifies this`offers, this`list, this`announced, this`destroyed, drop`rejected
      ensures Valid() && announced == old(announced) + {proxy}
      ensures |old(list)| < 32 && memory ==>
        |list| == |old(list)| + 1 && list[1..] == old(list) && fresh(list[0]) && list[0].proxy == proxy
        && !list[0].uris && destroyed == old(destroyed) && drop.rejected == old(drop.rejected)
      ensures !(|old(list)| < 32 && memory) ==>
        list == old(list) && destroyed == old(destroyed) + multiset{proxy} && drop.rejected
    {
      hide Proxies, Distinct, Drop.Valid, Roles, Owned, Linked;
      var count := Count();
      if count >= MAX_OFFERS || !memory {
        RefuseKeepsProxies(list, destroyed, announced, named, proxy);
        announced := announced + {proxy};
        destroyed := destroyed + multiset{proxy};
        drop.Reject();
      } else {
        Push(proxy);
      }
    }

    /** A new node at the head of the list. */
    method Push(proxy: nat)
      requires Linked() && Accounts() && proxy !in announced && |list| < MAX_OFFERS
      modifies this`offers, this`list, this`announced
      ensures Linked() && Accounts() && announced == old(announced) + {proxy}
      ensures |list| == |old(list)| + 1 && list[1..] == old(list)
      ensures fresh(list[0]) && list[0].proxy == proxy && !list[0].uris
    {
      var node := new Offer(proxy, offers);
      AnnounceKeepsAccounts(list, destroyed, announced, named, node);
      ghost var was := list;
      offers := node;
      list := [node] + list;
      announced := announced + {proxy};
      hide Proxies, Distinct;
      forall k | 0 <= k < |list| ensures list[k].next == NodeAt(list, k + 1) {
        if k > 0 {
          assert list[k] == was[k - 1] && NodeAt(list, k + 1) == NodeAt(was, k);
        }
      }
    }

    lemma OnlyNode(o: Offer?, proxy: nat)
      requires Linked() && (o != null ==> o in list && o.proxy == proxy)
      requires o == null ==> forall x :: x in list ==> x.proxy != proxy
      ensures forall x :: x in list ==> (x.proxy == proxy <==> x == o)
    {
      forall x | x in list && x.proxy == proxy ensures x == o {
        SameProxy(list, o, x);
      }
    }

    method Mime(proxy: nat, isUriList: bool)
      requires Valid()
      modifies list`uris
      ensures Valid()
      ensures forall o :: o in list ==> o.uris == (old(o.uris) || (isUriList && o.proxy == proxy))
    {
      var o := Find(proxy);
      OnlyNode(o, proxy);
      if o != null && isUriList {
        o.uris := true;
      }
    }

    method Action(proxy: nat, selected: nat)
      requires Valid()
      modifies list`action
      ensures Valid()
      ensures forall o :: o in list ==> o.action == if o.proxy == proxy then selected else old(o.action)
    {
      var o := Find(proxy);
      OnlyNode(o, proxy);
      if o != null {
        o.action := selected;
      }
    }

    method Leave()
      requires Valid()
      modifies this`offers, this`drag, this`destroyed, this`list, list`next, drop`hovered
      ensures Valid() && drag == null && !drop.hovered && list == Without(old(list), old(drag))
    {
      hide Proxies, Distinct, Without, Drop.Valid, Roles, Owned, Linked;
      drop.SetHovered(false);
      DragCanGo();
      Release(drag);
    }

    lemma OwnedNow()
      requires Valid()
      ensures Owned(resources, transfer)
    {
    }

    lemma DragCanGo()
      requires Valid()
      ensures drag != null ==> drag in list && drag != transfer.offer
    {
    }

    /** The drag that was over the window, if any, is over; the new one is accepted if it is ours. */
    method Enter(proxy: Option<nat>, ownSurface: bool)
      requires Valid() && (proxy.Some? ==> proxy.value in announced && proxy.value !in named)
      modifies this`offers, this`drag, this`destroyed, this`list, this`named, list`next, drop`hovered
      ensures Valid() && list == Without(old(list), old(drag))
      ensures named == if proxy.Some? then old(named) + {proxy.value} else old(named)
      ensures proxy.None? ==> drag == null && !drop.hovered
      ensures proxy.Some? ==> if drag == null then forall o :: o in list ==> o.proxy != proxy.value
                              else drag.proxy == proxy.value
      ensures drop.hovered <==> drag != null && drag.uris && ownSurface
    {
      hide Proxies, Distinct, Without, Drop.Valid, Roles, Owned, Linked;
      Leave();
      if proxy.Some? {
        var o := Find(proxy.value);
        NamingKeepsProxies(list, destroyed, announced, named, proxy.value);
        NewDragKeepsRoles(list, transfer.offer, named, o, proxy.value);
        named := named + {proxy.value};
        drag := o;
        drop.SetHovered(o != null && o.uris && ownSurface);
        assert Linked();
        assert Accounts();
        assert drop.Valid();
      }
    }

    /** The clipboard is not ours: its offers are destroyed as soon as they are named. */
    method Selection(proxy: Option<nat>)
      requires Valid() && (proxy.Some? ==> proxy.value in announced && proxy.value !in named)
      modifies this`offers, this`drag, this`destroyed, this`list, this`named, list`next
      ensures Valid() && drag == old(drag)
      ensures proxy.Some? ==> named == old(named) + {proxy.value} && destroyed[proxy.value] == 1
      ensures proxy.None? ==> list == old(list) && named == old(named)
      ensures forall o :: o in list <==> o in old(list) && Some(o.proxy) != proxy
    {
      hide Proxies, Distinct, Without, Drop.Valid, Roles, Owned, Linked;
      if proxy.Some? {
        var o := Find(proxy.value);
        UnnamedHasNoRole(list, drag, transfer.offer, named, o);
        UnlistedIsDestroyed(list, destroyed, announced, named, proxy.value);
        assert o != null <==> Listed(list, proxy.value);
        OnlyNode(o, proxy.value);
        Release(o);
        NamingKeepsProxies(list, destroyed, announced, named, proxy.value);
        NamingKeepsRoles(list, drag, transfer.offer, named, proxy.value);
        named := named + {proxy.value};
        assert Linked();
        assert Accounts();
        assert drop.Valid();
      }
    }

    /** malloc: the contents are anything. */
    method NewBuffer() returns (buffer: array<byte>)
      ensures fresh(buffer) && buffer.Length == BYTES + 1
    {
      buffer := new byte[BYTES + 1];
    }

    /** The part of a drop that takes the drag over. */
    method StartTransfer(reader: int, writer: int, now: nat)
      requires Valid() && drag != null && transfer.offer == null
      modifies `drag, `transfer, `resources
      ensures Valid() && drag == null && fresh(transfer.text)
      ensures transfer == Transfer(old(drag), reader, transfer.text, 0, now + 2000)
    {
      TransferKeepsRoles(list, drag, transfer.offer, named);
      var text := NewBuffer();
      StartOwns(resources, transfer, reader, writer, Transfer(drag, reader, text, 0, now + 2000));
      hide Proxies, Distinct, Drop.Valid, Linked, Owned, Roles;
      resources := Closed(Opened(resources, reader, writer), writer);
      resources := resources.(buffersTaken := resources.buffersTaken + 1);
      transfer := Transfer(drag, reader, text, 0, now + 2000);
      drag := null;
    }

    /** No memory for the text: both ends of the pipe are closed again. */
    method RefuseTransfer(reader: int, writer: int)
      requires Valid() && transfer.offer == null
      modifies `resources, drop`rejected
      ensures Valid() && drop.rejected
    {
      RefuseOwns(resources, transfer, reader, writer);
      hide Proxies, Distinct, Drop.Valid, Linked, Owned, Roles;
      resources := Closed(Closed(Opened(resources, reader, writer), reader), writer);
      drop.Reject();
    }

    /** dropped: the drag becomes the transfer, if there is none yet and a pipe and a buffer can be had. */
    method Dropped(pipe: Option<(int, int)>, memory: bool, now: nat)
      requires Valid()
      modifies this, list`next, drop`hovered, drop`rejected
      ensures Valid() && drag == null && !drop.hovered && announced == old(announced) && named == old(named)
      ensures var taken := old(drag != null && drop.hovered && transfer.offer == null) && pipe.Some? && memory;
        && list == (if taken then old(list) else Without(old(list), old(drag)))
        && drop.rejected == (old(drop.rejected) || (old(drag != null && drop.hovered) && !taken))
        && (if taken then fresh(transfer.text)
                          && transfer == Transfer(old(drag), pipe.value.0, transfer.text, 0, now + 2000)
            else transfer == old(transfer))
    {
      hide Proxies, Distinct, Without, Drop.Valid, Linked, Roles, Owned;
      if drag != null && drop.hovered {
        if transfer.offer != null || pipe.None? {
          drop.Reject();
        } else if memory {
          StartTransfer(pipe.value.0, pipe.value.1, now);
        } else {
          RefuseTransfer(pipe.value.0, pipe.value.1);
        }
      }
      WithoutNull(list);
      Leave();
    }

    /** finish_transfer: hands the text over or refuses it, and gives everything back. */
    method FinishTransfer(complete: bool)
      requires Valid()
      modifies this, list`next, drop, drop.paths
      ensures Valid() && transfer == IDLE && announced == old(announced) && named == old(named)
      ensures list == Without(old(list), old(transfer.offer)) && drag == old(drag)
      ensures finished == old(finished) + if old(transfer.offer != null && version >= 3 && transfer.offer.action == 1) then [old(transfer.offer.proxy)] else []
      ensures old(transfer.offer) != null && complete ==>
        var result := Parse(old(transfer.text[..transfer.length]));
        if result.Some? then drop.batch == result.value && drop.rejected == old(drop.rejected)
        else drop.batch == [] && drop.rejected
      ensures old(transfer.offer) != null && !complete ==> drop.batch == old(drop.batch) && drop.rejected
      ensures old(transfer.offer) == null ==> drop.batch == old(drop.batch) && drop.rejected == old(drop.rejected)
    {
      WithoutNull(list);
      TransferIsWhole(resources, transfer);
      hide Proxies, Distinct, Without, Drop.Valid, Linked, Parse, Roles, Owned;
      if transfer.offer != null {
        if complete {
          drop.Offer(transfer.text[..transfer.length]);
        } else {
          drop.Reject();
        }
        EndTransfer();
      }
    }

    method EndTransfer()
      requires Linked() && Accounts() && Owned(resources, transfer) && transfer.offer != null
      modifies `offers, `drag, `destroyed, `list, `transfer, `resources, `finished, list`next
      ensures Linked() && Accounts() && Owned(resources, transfer) && transfer == IDLE
      ensures list == Without(old(list), old(transfer.offer)) && drag == old(drag)
      ensures finished == old(finished) + if old(version >= 3 && transfer.offer.action == 1) then [old(transfer.offer.proxy)] else []
    {
      EndOwns(resources, transfer);
      TransferKeepsRoles(list, drag, transfer.offer, named);
      hide Proxies, Distinct, Without, Linked, Owned, Roles;
      var o := transfer.offer;
      if version >= 3 && o.action == COPY {
        finished := finished + [o.proxy];
      }
      resources := Closed(resources, transfer.fd);
      resources := resources.(buffersFreed := resources.buffersFreed + 1);
      transfer := IDLE;
      Release(o);
    }

    /** Puts a chunk behind what has been read. */
    method Append(bytes: seq<byte>)
      requires transfer.text != null && transfer.length + |bytes| <= transfer.text.Length
      modifies `transfer, transfer.text
      ensures transfer == old(transfer).(length := old(transfer.length) + |bytes|)
      ensures transfer.text[..transfer.length] == old(transfer.text[..transfer.length]) + bytes
    {
      var i := 0;
      while i < |bytes|
        invariant i <= |bytes| && transfer == old(transfer)
        invariant transfer.text[..transfer.length] == old(transfer.text[..transfer.length])
        invariant forall k :: 0 <= k < i ==> transfer.text[transfer.length + k] == bytes[k]
      {
        transfer.text[transfer.length + i] := bytes[i];
        i := i + 1;
      }
      transfer := transfer.(length := transfer.length + |bytes|);
    }

    /** The read loop of zc_wayland_poll. */
    method ReadAll(answers: seq<Read>) returns (progress: Progress)
      requires transfer.text != null && transfer.text.Length == BYTES + 1 && transfer.length <= BYTES + 1
      modifies `transfer, transfer.text
      ensures transfer == old(transfer).(length := transfer.length) && transfer.length <= BYTES + 1
      ensures progress == Outcome(old(transfer.text[..transfer.length]), answers)
      ensures !progress.Refused? ==> transfer.text[..transfer.length] == progress.received
    {
      var i := 0;
      while transfer.length <= BYTES
        invariant transfer == old(transfer).(length := transfer.length) && transfer.length <= BYTES + 1 && i <= |answers|
        invariant Outcome(old(transfer.text[..transfer.length]), answers)
               == Outcome(transfer.text[..transfer.length], answers[i..])
        decreases |answers| - i
      {
        if i == |answers| || answers[i].Again? {
          return Waiting(transfer.text[..transfer.length]);
        }
        if answers[i].Failed? {
          return Refused;
        }
        assert answers[i..][1..] == answers[i + 1..];
        if answers[i].Data? {
          var room := BYTES + 1 - transfer.length;
          var n := if |answers[i].bytes| < room then |answers[i].bytes| else room;
          if n == 0 {
            return Complete(transfer.text[..transfer.length]);
          }
          if 0 in answers[i].bytes[..n] {
            return Refused;
          }
          Append(answers[i].bytes[..n]);
        }
        i := i + 1;
      }
      return Refused;
    }

    /** zc_wayland_poll */
    method Poll(now: nat, answers: seq<Read>)
      requires Valid()
      modifies this, list`next, drop, drop.paths, transfer.text
      ensures Valid() && announced == old(announced) && named == old(named) && drag == old(drag)
      ensures old(transfer.offer) == null ==>
        list == old(list) && transfer == old(transfer) && drop.batch == old(drop.batch) && drop.rejected == old(drop.rejected)
      ensures old(transfer.offer) != null ==>
        var progress := if now >= old(transfer.deadline) then Refused
                        else Outcome(old(transfer.text[..transfer.length]), answers);
        match progress {
          case Waiting(received) =>
            list == old(list) && transfer == old(transfer).(length := |received|)
            && transfer.text[..transfer.length] == received
            && drop.batch == old(drop.batch) && drop.rejected == old(drop.rejected)
          case Complete(received) =>
            list == Without(old(list), old(transfer.offer)) && transfer == IDLE
            && (if Parse(received).Some? then drop.batch == Parse(received).value && drop.rejected == old(drop.rejected)
                else drop.batch == [] && drop.rejected)
          case Refused =>
            list == Without(old(list), old(transfer.offer)) && transfer == IDLE
            && drop.batch == old(drop.batch) && drop.rejected
        }
    {
      if transfer.offer != null {
        TransferIsWhole(resources, transfer);
        hide Proxies, Distinct, Without, Drop.Valid, Linked, Parse, Roles, Owned, Outcome;
        var progress := Refused;
        if now < transfer.deadline {
          progress := ReadMore(answers);
        }
        if !progress.Waiting? {
          FinishTransfer(progress.Complete?);
        }
      }
    }

    method ReadMore(answers: seq<Read>) returns (progress: Progress)
      requires Valid() && transfer.offer != null && transfer.text != null
      modifies `transfer, transfer.text
      ensures Valid() && transfer == old(transfer).(length := transfer.length)
      ensures progress == Outcome(old(transfer.text[..transfer.length]), answers)
      ensures !progress.Refused? ==> transfer.length <= transfer.text.Length
                                     && transfer.text[..transfer.length] == progress.received
    {
      TransferIsWhole(resources, transfer);
      LengthKeepsOwned(resources, transfer);
      hide Proxies, Distinct, Drop.Valid, Linked, Roles, Owned, Outcome;
      progress := ReadAll(answers);
    }

    /** free_device: nothing is left of what was announced. */
    method FreeDevice()
      requires Valid()
      modifies this, list`next, drop, drop.paths
      ensures Valid() && announced == old(announced) && named == old(named) && drop.batch == old(drop.batch)
      ensures list == [] && offers == null && drag == null && transfer == IDLE && !drop.hovered
      ensures forall p :: p in announced ==> destroyed[p] == 1
      ensures resources.pipesOpened == resources.pipesClosed && resources.buffersTaken == resources.buffersFreed
    {
      hide Proxies, Distinct, Without, Drop.Valid, Roles, Owned, Linked;
      FinishTransfer(false);
      DestroyAll(old(list));
      drop.SetHovered(false);
      NothingOwned(resources, destroyed, announced, named);
    }

    /** One event of the compositor, the pipe or the user. */
    method Step(ev: Event)
      requires Valid() && Plausible(ev, announced, named)
      modifies this, list, drop, drop.paths, transfer.text
      ensures Valid() && announced == AnnouncedAfter(ev, old(announced)) && named == NamedAfter(ev, old(named))
      ensures forall o :: o in list ==> o in old(list) || fresh(o)
      ensures transfer.text == null || transfer.text == old(transfer.text) || fresh(transfer.text)
      ensures drop.batch != old(drop.batch) ==>
                && ev.Tick? && old(transfer.offer) != null && ev.now < old(transfer.deadline)
                && var progress := Outcome(old(transfer.text[..transfer.length]), ev.answers);
                   progress.Complete? && (Parse(progress.received) == Some(drop.batch) || (Parse(progress.received) == None && drop.batch == []))
    {
      hide Proxies, Distinct, Without, Drop.Valid, Linked, Roles, Owned, Parse, Outcome;
      match ev {
        case Announce(proxy, memory) =>
          Offered(proxy, memory);
          assert |list| == |old(list)| || list == [list[0]] + list[1..];
        case MimeType(proxy, isUriList) => Mime(proxy, isUriList);
        case SelectedAction(proxy, selected) => Action(proxy, selected);
        case DragEnter(proxy, ownSurface) => Enter(proxy, ownSurface);
        case DragLeave => Leave();
        case DragDrop(pipe, memory, now) => Dropped(pipe, memory, now);
        case Clipboard(proxy) => Selection(proxy);
        case Tick(now, answers) => Poll(now, answers);
        case SeatGone => FreeDevice();
      }
    }

    /**
     A drag over the window is announced as a URI list, entered and dropped, and its payload comes in
     parts before the deadline: the composer gets the paths of the whole of it, or an error.
     */
    method DropArrives(proxy: nat, pipe: (int, int), now: nat, ticks: seq<(nat, seq<Read>)>)
      requires Valid() && proxy !in announced && proxy !in named && |list| < MAX_OFFERS && transfer.offer == null && !drop.rejected
      requires ticks != [] && forall i :: 0 <= i < |ticks| ==> ticks[i].0 < now + 2000
      requires forall i :: 0 <= i < |ticks| - 1 ==> Pauses(ticks[i].1)
      requires Ends(ticks[|ticks| - 1].1)
      modifies this, list, drop, drop.paths
      ensures Valid() && transfer == IDLE
      ensures var whole := Brought(ticks);
              if |whole| > 262144 || 0 in whole then drop.batch == old(drop.batch) && drop.rejected
              else if Parse(whole).Some? then drop.batch == Parse(whole).value && !drop.rejected
              else drop.batch == [] && drop.rejected
    {
      hide Valid, Parse, Ends, Pauses, Payload;
      StartDrop(proxy, pipe, now);
      ReadParts(now + 2000, ticks);
    }

    /** Up to the drop: the new offer is entered and becomes the transfer. */
    method StartDrop(proxy: nat, pipe: (int, int), now: nat)
      requires Valid() && proxy !in announced && proxy !in named && |list| < MAX_OFFERS && transfer.offer == null
      modifies this, list, drop`hovered, drop`rejected
      ensures Valid() && (forall i :: 0 <= i < |list| ==> list[i] in old(list) || fresh(list[i])) && drop.rejected == old(drop.rejected)
      ensures transfer.offer != null && transfer.deadline == now + 2000 && transfer.length == 0
      ensures fresh(transfer.text) && transfer.text != null && transfer.text.Length == BYTES + 1
    {
      hide Proxies, Distinct, Without, Drop.Valid, Linked, Roles, Owned;
      DragCanGo();
      Offered(proxy, true);
      assert list == [list[0]] + list[1..];
      Mime(proxy, true);
      ghost var head := list[0];
      assert head in list && head != drag;
      ghost var was := list;
      Enter(Some(proxy), true);
      assert head in list;
      DragCanGo();
      assert forall o :: o in was ==> o in old(list) || fresh(o);
      assert forall i :: 0 <= i < |list| ==> list[i] in list && list[i] in was;
      Dropped(Some(pipe), true, now);
      assert Owned(resources, transfer);
      TransferIsWhole(resources, transfer);
    }

    method ReadParts(deadline: nat, ticks: seq<(nat, seq<Read>)>)
      requires Valid() && transfer.offer != null && transfer.deadline == deadline && transfer.length == 0 && !drop.rejected
      requires transfer.text != null && transfer.text.Length == BYTES + 1
      requires ticks != [] && forall i :: 0 <= i < |ticks| ==> ticks[i].0 < deadline
      requires forall i :: 0 <= i < |ticks| - 1 ==> Pauses(ticks[i].1)
      requires Ends(ticks[|ticks| - 1].1)
      modifies this, list`next, drop, drop.paths, transfer.text
      ensures Valid() && transfer == IDLE
      ensures var whole := Brought(ticks);
              if |whole| > BYTES || 0 in whole then drop.batch == old(drop.batch) && drop.rejected
              else if Parse(whole).Some? then drop.batch == Parse(whole).value && !drop.rejected
              else drop.batch == [] && drop.rejected
    {
      hide Valid, Without, Parse, Outcome, Payload, Ends, Pauses;
      ghost var done: seq<byte> := [];
      var i := 0;
      while i < |ticks| - 1
        invariant i <= |ticks| - 1 && Valid() && done == Brought(ticks[..i])
        invariant forall i :: 0 <= i < |list| ==> list[i] in old(list)
        invariant drop.batch == old(drop.batch)
        invariant if |done| > BYTES || 0 in done then transfer.offer == null && transfer == IDLE && drop.rejected
                  else transfer.offer != null && transfer == old(transfer).(length := |done|) && !drop.rejected
                       && transfer.text[..|done|] == done
      {
        assert ticks[..i + 1][..i] == ticks[..i];
        if |done| <= BYTES { PayloadIsKept(done, ticks[i].1); }
        ghost var was := list;
        Poll(ticks[i].0, ticks[i].1);
        assert forall i :: 0 <= i < |list| ==> list[i] in list && list[i] in was;
        done := done + Payload(ticks[i].1);
        i := i + 1;
      }
      assert ticks[..|ticks| - 1] == ticks[..i];
      PayloadIsDelivered(done, ticks[i].1);
      Poll(ticks[i].0, ticks[i].1);
    }

    /** Any history of events, and then the shutdown. */
    method Run(events: seq<Event>)
      requires Valid() && AllPlausible(events, announced, named)
      modifies this, list, drop, drop.paths, transfer.text
      ensures Valid() && list == [] && transfer == IDLE
      ensures announced == AllAnnounced(events, old(announced)) && named == AllNamed(events, old(named))
      ensures forall p :: p in announced ==> destroyed[p] == 1
      ensures resources.pipesOpened == resources.pipesClosed && resources.buffersTaken == resources.buffersFreed
    {
      var i := 0;
      while i < |events|
        invariant i <= |events| && Valid() && AllPlausible(events[i..], announced, named)
        invariant AllAnnounced(events[i..], announced) == AllAnnounced(events, old(announced))
        invariant AllNamed(events[i..], named) == AllNamed(events, old(named))
        invariant forall o :: o in list ==> o in old(list) || fresh(o)
        invariant transfer.text == null || transfer.text == old(transfer.text) || fresh(transfer.text)
      {
        assert events[i..][0] == events[i] && events[i..][1..] == events[i + 1..];
        hide Valid;
        Step(events[i]);
        i := i + 1;
      }
      FreeDevice();
    }

    method DestroyAll(ghost nodes: seq<Offer>)
      requires Linked() && Accounts() && transfer.offer == null && forall o :: o in list ==> o in nodes
      modifies `offers, `drag, `destroyed, `list, nodes`next
      ensures Linked() && Accounts() && list == [] && offers == null && drag == null
    {
      while offers != null
        invariant Linked() && Accounts()
        invariant forall o :: o in list ==> o in nodes
        decreases |list|
      {
        NothingTransferred(list, offers);
        hide Proxies, Distinct, Without, Roles;
        Release(offers);
      }
    }
  }

  lemma NothingOwned(r: Resources, destroyed: multiset<nat>, announced: set<nat>, named: set<nat>)
    requires Owned(r, IDLE) && Proxies([], destroyed, announced, named)
    ensures r.pipesOpened == r.pipesClosed && r.buffersTaken == r.buffersFreed
    ensures forall p :: p in announced ==> destroyed[p] == 1
  {
    forall p | p in announced ensures destroyed[p] == 1 {
      assert !Listed([], p);
    }
  }

  lemma LengthKeepsOwned(r: Resources, t: Transfer)
    requires Owned(r, t) && t.offer != null
    ensures forall n: nat :: n <= BYTES + 1 ==> Owned(r, t.(length := n))
  {
  }

  lemma NothingTransferred(list: seq<Offer>, o: Offer)
    requires o in list && Distinct(list)
    ensures |Without(list, o)| < |list|
  {
    var k :| 0 <= k < |list| && list[k] == o;
    WithoutAt(list, k);
  }

  lemma TransferIsWhole(r: Resources, t: Transfer)
    requires Owned(r, t)
    ensures if t.offer == null then t == IDLE
            else t.text != null && t.text.Length == BYTES + 1 && t.length <= BYTES + 1
  {
  }

  lemma WithoutNull(list: seq<Offer>)
    ensures Without(list, null) == list
  {
    WithoutAbsent(list, null);
  }
}
