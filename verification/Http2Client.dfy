/**
 The client connection and its responses, tools/http2.py: reading, receiving, requesting and
 closing. The socket's future is a sequence of what its recv calls give: bytes, an exception, or,
 once it is used up, the end of the stream.
 */
module Http2Client {
  import opened Common
  import opened Http2Frames

  const NEWLINE: byte := 10

  datatype Outcome = Bytes(bytes: seq<byte>) | Raised(error: Option<Error>)

  /**
   What a response has been through: payload delivered, payload taken off the buffer by reads, flow-controlled
   bytes delivered (padding included), and whether it was closed.
   */
  datatype Books = Books(arrived: seq<byte>, taken: seq<byte>, charged: nat, abandoned: bool)

  /** What was taken, followed by what is buffered, is what arrived. */
  ghost predicate Balanced(reply: Reply, books: Books) {
    && reply.received == |books.arrived|
    && books.taken <= books.arrived
    && (if books.abandoned then reply.buffer == [] else books.taken + reply.buffer == books.arrived)
  }

  class Response {
    const stream: nat
    const generation: nat      // which of the connections made one after another it belongs to
    var reply: Reply
    ghost var books: Books

    constructor (stream: nat, generation: nat)
      ensures this.stream == stream && this.generation == generation && reply == FRESH && books == Books([], [], 0, false)
    {
      this.stream, this.generation, reply, books := stream, generation, FRESH, Books([], [], 0, false);
    }

    method Cut(count: nat) returns (result: seq<byte>)
      requires Balanced(reply, books) && 0 < count <= |reply.buffer|
      modifies this
      ensures result == old(reply.buffer)[..count] && reply == old(reply).(buffer := old(reply.buffer)[count..])
      ensures books == old(books).(taken := old(books.taken) + result) && Balanced(reply, books)
    {
      result := reply.buffer[..count];
      reply := reply.(buffer := reply.buffer[count..]);
      books := books.(taken := books.taken + result);
      assert books.taken + reply.buffer == books.arrived;
    }

    method Note(e: Event)
      requires Balanced(reply, books) && !books.abandoned && e.stream == stream
      modifies this
      ensures Balanced(reply, books) && reply == Applied(old(reply), e)
      ensures books == if e.Data? then old(books).(arrived := old(books.arrived) + e.data,
                                                   charged := old(books.charged) + |e.data| + e.padding)
                       else old(books)
    {
      match e
      case Headers(_, code, n) =>
        reply := reply.(status := Some(code), length := n);
      case Data(_, data, padding) =>
        reply := reply.(buffer := reply.buffer + data, received := reply.received + |data|);
        books := books.(arrived := books.arrived + data, charged := books.charged + |data| + padding);
        assert books.taken + reply.buffer == books.arrived;
      case Ended(_) =>
        reply := reply.(ended := true);
      case Reset(_, code) =>
        reply := reply.(ended := true);
        if code != 0 { reply := reply.(error := Some(ResetBy(code))); }
      case Other(_) =>
    }
  }

  // ---------------------------------------------------------------- the connection's state

  /** The connection as it is now: open or not, how many connections there were, and h2's next stream. */
  datatype Link = Link(open: bool, generation: nat, next: nat)

  datatype Entry = Entry(reply: Reply, books: Books)

  /** Everything that reads and receiving change, with every response ever issued. */
  datatype World = World(link: Link, responses: map<nat, Response>, credit: map<nat, nat>, entries: map<Response, Entry>)

  function Credit(credit: map<nat, nat>, stream: nat): nat {
    if stream in credit then credit[stream] else 0
  }

  function Credited(credit: map<nat, nat>, stream: nat, count: nat): map<nat, nat> {
    credit[stream := Credit(credit, stream) + count]
  }

  /** An unfinished response is registered on the present connection, so that it gets its events. */
  ghost predicate Tracked(link: Link, responses: map<nat, Response>, r: Response, ended: bool, abandoned: bool) {
    && r.generation <= link.generation
    && (r.generation == link.generation ==> r.stream < link.next)
    && (!link.open || abandoned ==> ended)
    && (!ended ==> r.generation == link.generation && r.stream in responses)
    && (r.generation == link.generation && r.stream in responses ==> responses[r.stream] == r)
  }

  /** On an open connection, what h2 was told was consumed and what is buffered is all that was delivered. */
  predicate Settled(link: Link, credit: map<nat, nat>, stream: nat, generation: nat, buffered: nat, books: Books) {
    link.open && generation == link.generation && !books.abandoned ==>
      Credit(credit, stream) + buffered == books.charged
  }

  ghost predicate Consistent(w: World, r: Response)
    requires r in w.entries
  {
    var e := w.entries[r];
    && Balanced(e.reply, e.books)
    && Tracked(w.link, w.responses, r, e.reply.ended, e.books.abandoned)
    && Settled(w.link, w.credit, r.stream, r.generation, |e.reply.buffer|, e.books)
  }

  ghost predicate Registered(w: World) {
    forall s :: s in w.responses ==>
      w.responses[s] in w.entries && w.responses[s].stream == s && !w.entries[w.responses[s]].books.abandoned
  }

  /** Streams of the present connection are issued once. */
  ghost predicate Unique(issued: set<Response>, generation: nat) {
    forall q, r ::
      (q in issued && r in issued && q.generation == generation == r.generation && q.stream == r.stream) ==> q == r
  }

  ghost predicate Valid(w: World) {
    && Registered(w)
    && (forall r :: r in w.entries ==> Consistent(w, r))
    && Unique(w.entries.Keys, w.link.generation)
    && Issued(w.credit, w.link.next)
  }

  /** h2 has credited no stream that it has yet to open. */
  ghost predicate Issued(credit: map<nat, nat>, next: nat) {
    forall s :: s in credit ==> s < next
  }

  ghost function Snapshot(w: World): (rs: Replies)
    ensures Registered(w) ==> rs.Keys == w.responses.Keys
  {
    map s | s in w.responses && w.responses[s] in w.entries :: w.entries[w.responses[s]].reply
  }

  /** Another live response of the present connection has the stream of this one. */
  ghost predicate Shadowed(w: World, r: Response) {
    w.link.open && exists q :: q in w.entries && q != r && q.generation == w.link.generation && q.stream == r.stream
                               && !w.entries[q].books.abandoned
  }

  function Taken(e: Entry, count: nat): Entry
    requires count <= |e.reply.buffer|
  {
    Entry(e.reply.(buffer := e.reply.buffer[count..]),
          e.books.(taken := e.books.taken + e.reply.buffer[..count]))
  }

  /** h2 knows the stream, or is not asked: it raises for a stream that it has yet to open. */
  predicate Knows(link: Link, stream: nat) { !link.open || stream < link.next }

  /** _take: bytes leave the buffer, h2 is told on an open socket, and an emptied, ended response goes. */
  function TakeStep(w: World, r: Response, count: nat): World
    requires r in w.entries && count <= |w.entries[r].reply.buffer|
  {
    var e := Taken(w.entries[r], count);
    if !Knows(w.link, r.stream) then w.(entries := w.entries[r := e])
    else
      World(w.link,
            if e.reply.ended && e.reply.buffer == [] then w.responses - {r.stream} else w.responses,
            if w.link.open then Credited(w.credit, r.stream, count) else w.credit,
            w.entries[r := e])
  }

  function Noted(n: Entry, e: Event): Entry {
    Entry(Applied(n.reply, e),
          if e.Data? then n.books.(arrived := n.books.arrived + e.data, charged := n.books.charged + |e.data| + e.padding)
          else n.books)
  }

  /** One event: only padding is credited at once, and events of unregistered streams are dropped. */
  ghost function DeliverStep(w: World, e: Event): World
    requires Registered(w)
  {
    if e.stream !in w.responses then w
    else
      var r := w.responses[e.stream];
      w.(credit := if e.Data? && e.padding != 0 && e.stream < w.link.next then Credited(w.credit, e.stream, e.padding) else w.credit,
         entries := w.entries[r := Noted(w.entries[r], e)])
  }

  /** Whether a response is the one registered for its stream. */
  predicate Listed(responses: map<nat, Response>, r: Response) {
    r.stream in responses && responses[r.stream] == r
  }

  function WithEnd(reply: Reply): Reply {
    reply.(ended := true,
           error := if reply.length.Some? && reply.received != reply.length.value then Some(Incomplete) else reply.error)
  }

  /** At the end of the byte stream a reply ends, and without all of the content-length it had an error. */
  predicate CutShort(was: Reply, now: Reply) {
    && now.ended && now.status == was.status && now.length == was.length && now.buffer == was.buffer && now.received == was.received
    && (was.length == None || was.length == Some(was.received) ==> now.error == was.error)
    && (was.length != None && was.length != Some(was.received) ==> now.error == Some(Incomplete))
  }

  /** A reply without an error has as many bytes as its content-length says. */
  predicate EndsWhole(reply: Reply) { reply.error.None? && reply.length.Some? ==> reply.length.value == reply.received }

  /** A response that is waited for is the one registered for its stream. */
  lemma UnfinishedIsListed(w: World, r: Response)
    requires Valid(w) && r in w.entries && !w.entries[r].reply.ended && !Shadowed(w, r)
    ensures Listed(w.responses, r)
  {
    assert Consistent(w, r);
  }

  lemma CutShortEndsWhole(was: Reply, now: Reply)
    requires CutShort(was, now)
    ensures now.ended && EndsWhole(now)
  {
  }

  lemma ListedIs(responses: map<nat, Response>, r: Response)
    requires Listed(responses, r)
    ensures r.stream in responses && responses[r.stream] == r
  {
  }

  lemma WithEndCutsShort()
    ensures forall was: Reply :: CutShort(was, WithEnd(was))
  {
  }

  function RefuseStep(w: World, last: nat): World {
    w.(entries := map r | r in w.entries ::
      if Listed(w.responses, r) then w.entries[r].(reply := Turned(w.entries[r].reply, r.stream > last)) else w.entries[r])
  }

  function HangupStep(w: World): World {
    w.(link := w.link.(open := false),
       entries := map r | r in w.entries ::
         if Listed(w.responses, r) then w.entries[r].(reply := WithEnd(w.entries[r].reply)) else w.entries[r])
  }

  /** A new connection: a new h2, whose streams start from the first again. */
  function ConnectStep(w: World): World {
    w.(link := Link(true, w.link.generation + 1, 1), credit := map[])
  }

  function IssueStep(w: World, r: Response): World {
    w.(link := w.link.(next := w.link.next + 2), responses := w.responses[w.link.next := r],
       entries := w.entries[r := Entry(FRESH, Books([], [], 0, false))])
  }

  function Closed(e: Entry): Entry {
    Entry(e.reply.(ended := true, buffer := []), e.books.(abandoned := true))
  }

  function AbandonStep(w: World, r: Response): World
    requires r in w.entries
  {
    w.(responses := w.responses - {r.stream}, entries := w.entries[r := Closed(w.entries[r])])
  }

  function DisconnectStep(w: World): World {
    w.(link := w.link.(open := false), responses := map[],
       entries := map r | r in w.entries ::
         if Listed(w.responses, r) then w.entries[r].(reply := w.entries[r].reply.(ended := true)) else w.entries[r])
  }

  /**
   How far connect gets: no socket, a socket without TLS and h2, these but not the first bytes sent,
   or a connection.
   */
  datatype Reach = Unreachable | Refused | Unsent | Reached

  /** connect: the call that makes the socket raises by itself, and what follows it closes before it raises. */
  function Attempt(w: World, reach: Reach): World {
    if w.link.open then w
    else
      match reach
      case Unreachable => w
      case Refused => DisconnectStep(w)
      case Unsent => DisconnectStep(ConnectStep(w))
      case Reached => ConnectStep(w)
  }

  /** The connection that request tries to use: a draining one is closed first. */
  function Renewed(w: World, draining: bool): World {
    if draining then DisconnectStep(w) else w
  }

  // ---------------------------------------------------------------- what the steps keep

  lemma TakenBalances(e: Entry, count: nat)
    requires Balanced(e.reply, e.books) && count <= |e.reply.buffer|
    ensures Balanced(Taken(e, count).reply, Taken(e, count).books)
  {
    var t := Taken(e, count);
    assert e.reply.buffer == e.reply.buffer[..count] + e.reply.buffer[count..];
    if !e.books.abandoned { assert t.books.taken + t.reply.buffer == e.books.arrived; }
  }

  lemma NotedBalances(n: Entry, e: Event)
    requires Balanced(n.reply, n.books) && !n.books.abandoned
    ensures Balanced(Noted(n, e).reply, Noted(n, e).books)
    ensures n.reply.ended ==> Applied(n.reply, e).ended
    ensures |Applied(n.reply, e).buffer| == |n.reply.buffer| + if e.Data? then |e.data| else 0
  {
    if e.Data? {
      assert n.books.taken + (n.reply.buffer + e.data) == (n.books.taken + n.reply.buffer) + e.data;
    }
  }

  lemma TakeKeepsOne(w: World, r: Response, count: nat, q: Response)
    requires Valid(w) && r in w.entries && q in w.entries && 0 < count <= |w.entries[r].reply.buffer|
    requires !(r.stream < w.link.next && Shadowed(w, r))
    ensures Consistent(TakeStep(w, r, count), q)
  {
    hide Balanced, Unique;
    assert Consistent(w, q);
    if q == r { TakenBalances(w.entries[r], count); }
  }

  /**
   Reading from a response keeps the connection consistent exactly if no live response of a later
   connection has its stream.
   */
  lemma TakeKeepsUnlessShadowed(w: World, r: Response, count: nat)
    requires Valid(w) && r in w.entries && 0 < count <= |w.entries[r].reply.buffer|
    ensures Valid(TakeStep(w, r, count)) <==> !(r.stream < w.link.next && Shadowed(w, r))
  {
    hide Valid, Consistent, Unique, TakeStep, Shadowed;
    if r.stream < w.link.next && Shadowed(w, r) {
      TakeBreaksTheShadow(w, r, count);
    } else {
      TakeKeepsAll(w, r, count);
    }
  }

  lemma TakeBreaksTheShadow(w: World, r: Response, count: nat)
    requires Valid(w) && r in w.entries && 0 < count <= |w.entries[r].reply.buffer|
    requires r.stream < w.link.next && Shadowed(w, r)
    ensures !Valid(TakeStep(w, r, count))
  {
    hide Balanced, Unique, Registered, Tracked;
    var q :| q in w.entries && q != r && q.generation == w.link.generation && q.stream == r.stream && !w.entries[q].books.abandoned;
    assert Consistent(w, q);
    assert !Consistent(TakeStep(w, r, count), q);
  }

  lemma TakeKeepsAll(w: World, r: Response, count: nat)
    requires Valid(w) && r in w.entries && 0 < count <= |w.entries[r].reply.buffer|
    requires !(r.stream < w.link.next && Shadowed(w, r))
    ensures Valid(TakeStep(w, r, count))
  {
    hide Consistent, Unique, Shadowed;
    var after := TakeStep(w, r, count);
    assert after.entries.Keys == w.entries.Keys;
    forall q | q in after.entries ensures Consistent(after, q) { TakeKeepsOne(w, r, count, q); }
  }

  lemma DeliverKeepsOne(w: World, e: Event, q: Response)
    requires Valid(w) && w.link.open && q in w.entries && e.stream in w.responses
    ensures Consistent(DeliverStep(w, e), q)
  {
    hide Balanced, Applied, Unique;
    var r := w.responses[e.stream];
    assert Consistent(w, q);
    if q == r { NotedBalances(w.entries[r], e); }
  }

  lemma DeliverKeeps(w: World, e: Event)
    requires Valid(w) && w.link.open
    ensures Valid(DeliverStep(w, e)) && DeliverStep(w, e).link == w.link
    ensures Snapshot(DeliverStep(w, e)) == Apply(Snapshot(w), e)
  {
    hide Consistent, Applied, Unique;
    if e.stream in w.responses {
      var after := DeliverStep(w, e);
      assert after.entries.Keys == w.entries.Keys;
      forall q | q in after.entries ensures Consistent(after, q) { DeliverKeepsOne(w, e, q); }
    }
  }

  lemma RefuseKeepsOne(w: World, last: nat, q: Response)
    requires Valid(w) && w.link.open && q in w.entries
    ensures Consistent(RefuseStep(w, last), q)
  {
    hide Unique;
    assert Consistent(w, q);
  }

  lemma RefuseKeeps(w: World, last: nat)
    requires Valid(w) && w.link.open
    ensures Valid(RefuseStep(w, last)) && RefuseStep(w, last).link == w.link
    ensures Snapshot(RefuseStep(w, last)) == Refuse(Snapshot(w), last)
  {
    hide Consistent, Unique;
    var after := RefuseStep(w, last);
    assert after.entries.Keys == w.entries.Keys;
    forall q | q in after.entries ensures Consistent(after, q) { RefuseKeepsOne(w, last, q); }
  }

  lemma HangupKeepsOne(w: World, q: Response)
    requires Valid(w) && w.link.open && q in w.entries
    ensures Consistent(HangupStep(w), q)
  {
    hide Unique;
    assert Consistent(w, q);
  }

  lemma HangupKeeps(w: World)
    requires Valid(w) && w.link.open
    ensures Valid(HangupStep(w)) && Snapshot(HangupStep(w)) == Finish(Snapshot(w))
  {
    hide Consistent, Unique;
    var after := HangupStep(w);
    assert after.entries.Keys == w.entries.Keys;
    forall q | q in after.entries ensures Consistent(after, q) { HangupKeepsOne(w, q); }
  }

  lemma ConnectKeeps(w: World)
    requires Valid(w) && !w.link.open
    ensures Valid(ConnectStep(w))
  {
    var after := ConnectStep(w);
    forall q | q in after.entries ensures Consistent(after, q) {
      assert Consistent(w, q);
    }
    assert forall q :: q in w.entries ==> Consistent(w, q);
  }

  lemma IssueKeepsOne(w: World, r: Response, q: Response)
    requires Valid(w) && w.link.open && r !in w.entries && q in w.entries
    requires r.stream == w.link.next && r.generation == w.link.generation
    ensures Consistent(IssueStep(w, r), q) && (q.generation == r.generation ==> q.stream != r.stream)
  {
    hide Unique, Registered;
    assert Consistent(w, q);
  }

  lemma IssueKeeps(w: World, r: Response)
    requires Valid(w) && w.link.open && r !in w.entries
    requires r.stream == w.link.next && r.generation == w.link.generation
    ensures Valid(IssueStep(w, r))
  {
    var after := IssueStep(w, r);
    assert Consistent(after, r);
    hide Consistent;
    forall q | q in w.entries
      ensures Consistent(after, q) && (q.generation == r.generation ==> q.stream != r.stream)
    {
      IssueKeepsOne(w, r, q);
    }
    assert after.entries.Keys == w.entries.Keys + {r};
  }

  /** Closing a response keeps the connection consistent exactly if it unregisters no unfinished other one. */
  lemma AbandonKeepsUnlessRegistered(w: World, r: Response)
    requires Valid(w) && r in w.entries
    ensures Valid(AbandonStep(w, r)) <==>
            !(r.stream in w.responses && w.responses[r.stream] != r && !w.entries[w.responses[r.stream]].reply.ended)
  {
    var after := AbandonStep(w, r);
    assert forall q :: q in w.entries ==> Consistent(w, q);
    if r.stream in w.responses && w.responses[r.stream] != r && !w.entries[w.responses[r.stream]].reply.ended {
      assert !Consistent(after, w.responses[r.stream]);
    } else {
      forall q | q in after.entries ensures Consistent(after, q) {
        assert Consistent(w, q);
      }
    }
  }

  lemma DisconnectKeeps(w: World)
    requires Valid(w)
    ensures Valid(DisconnectStep(w))
  {
    var after := DisconnectStep(w);
    forall q | q in after.entries ensures Consistent(after, q) {
      assert Consistent(w, q);
    }
  }

  /**
   A response left unread when its connection ended: after the next request on a new connection has
   taken its stream, reading its rest leaves the new, unfinished response without its events.
   */
  lemma StaleReadUnregistersTheNewResponse(w: World, old': Response, new': Response, e: Event)
    requires Valid(w) && !w.link.open && old' in w.entries && old'.stream == 1
    requires w.entries[old'].reply.buffer != []
    requires new' !in w.entries && new'.stream == 1 && new'.generation == w.link.generation + 1
    requires e.stream == 1
    ensures var issued := IssueStep(ConnectStep(w), new');
            var read := TakeStep(issued, old', |w.entries[old'].reply.buffer|);
            && Valid(issued) && !Valid(read)
            && !read.entries[new'].reply.ended && new'.stream !in read.responses
            && Registered(read) && DeliverStep(read, e) == read
  {
    ConnectKeeps(w);
    IssueKeeps(ConnectStep(w), new');
    assert Consistent(w, old');
    var issued := IssueStep(ConnectStep(w), new');
    var n := |w.entries[old'].reply.buffer|;
    assert new' in issued.entries && Shadowed(issued, old');
    TakeKeepsUnlessShadowed(issued, old', n);
  }

  /** What receiving leaves alone: reads' own books, and every byte already buffered. */
  ghost predicate OnlyArrives(was: World, now: World) {
    && now.entries.Keys == was.entries.Keys
    && now.responses == was.responses
    && now.link.generation == was.link.generation && now.link.next == was.link.next
    && forall r :: r in was.entries ==>
                     && now.entries[r].books.taken == was.entries[r].books.taken
                     && now.entries[r].books.abandoned == was.entries[r].books.abandoned
                     && was.entries[r].books.arrived <= now.entries[r].books.arrived
                     && (was.entries[r].reply.ended ==> now.entries[r].reply.ended)
  }

  lemma ValidRegisters(w: World)
    requires Valid(w)
    ensures Registered(w)
    ensures forall s :: s in w.responses ==> Balanced(w.entries[w.responses[s]].reply, w.entries[w.responses[s]].books)
  {
    forall s | s in w.responses ensures Balanced(w.entries[w.responses[s]].reply, w.entries[w.responses[s]].books) {
      assert Consistent(w, w.responses[s]);
    }
  }

  lemma EntryIsConsistent(w: World, r: Response)
    requires Valid(w) && r in w.entries
    ensures Consistent(w, r) && Balanced(w.entries[r].reply, w.entries[r].books)
  {
  }

  lemma TakeStepIs(w: World, r: Response, count: nat)
    requires r in w.entries && count <= |w.entries[r].reply.buffer|
    ensures var t, e := TakeStep(w, r, count), Taken(w.entries[r], count);
            && t.link == w.link && t.entries == w.entries[r := e]
            && t.responses == (if Knows(w.link, r.stream) && e.reply.ended && e.reply.buffer == [] then w.responses - {r.stream} else w.responses)
            && t.credit == (if Knows(w.link, r.stream) && w.link.open then Credited(w.credit, r.stream, count) else w.credit)
  {
  }

  lemma DeliverOnlyArrives(w: World, e: Event)
    requires Registered(w)
    ensures OnlyArrives(w, DeliverStep(w, e))
  {
  }

  lemma RefuseOnlyArrives(w: World, last: nat)
    ensures OnlyArrives(w, RefuseStep(w, last))
  {
  }

  lemma HangupOnlyArrives(w: World)
    ensures OnlyArrives(w, HangupStep(w))
  {
  }

  lemma OnlyArrivesThrough(a: World, b: World, c: World)
    requires OnlyArrives(a, b) && OnlyArrives(b, c)
    ensures OnlyArrives(a, c)
  {
  }

  predicate NoNewlineBefore(bytes: seq<byte>, n: int) {
    forall i :: 0 <= i < n && i < |bytes| ==> bytes[i] != '\n' as int
  }

  lemma LineStarts()
    ensures NoNewlineBefore([], 0)
  {
  }

  lemma LineIsWhole(line: seq<byte>)
    requires NoNewlineBefore(line, |line|)
    ensures NoNewlineBefore(line, |line| - 1)
  {
  }

  lemma LineGrows(result: seq<byte>, part: seq<byte>)
    requires NoNewlineBefore(result, |result|) && part != [] && NoNewlineBefore(part, |part| - 1)
    ensures var grown := result + part;
            && NoNewlineBefore(grown, |grown| - 1)
            && (grown[|grown| - 1] != NEWLINE ==> NoNewlineBefore(grown, |grown|))
            && grown[|grown| - 1] == part[|part| - 1]
  {
  }

  /** What ends an upload. */
  datatype UploadEnd = Complete | ResponseEnded | StreamGone | ReceiveFailed | WindowNegative

  /** A piece holds something and fits the frame limit and the window of its time, `start` bytes having gone before. */
  predicate PieceFits(sent: seq<seq<byte>>, seen: seq<Packet>, i: nat, start: nat, window: (seq<Packet>, nat) -> int)
    requires i < |sent|
  {
    0 < |sent[i]| <= LIMIT && |sent[i]| <= window(seen, start + |Joined(sent[..i])|)
  }

  lemma PiecesFit(sent: seq<seq<byte>>, seen: seq<seq<Packet>>, piece: seq<byte>, now: seq<Packet>, start: nat,
                  window: (seq<Packet>, nat) -> int)
    requires |seen| == |sent| && forall i :: 0 <= i < |sent| ==> PieceFits(sent, seen[i], i, start, window)
    requires 0 < |piece| <= LIMIT && |piece| <= window(now, start + |Joined(sent)|)
    ensures forall i :: 0 <= i <= |sent| ==> PieceFits(sent + [piece], (seen + [now])[i], i, start, window)
  {
    hide Joined;
    forall i | 0 <= i <= |sent| ensures PieceFits(sent + [piece], (seen + [now])[i], i, start, window) {
      assert (sent + [piece])[..i] == sent[..i];
      if i == |sent| { assert sent[..i] == sent; } else { assert PieceFits(sent, seen[i], i, start, window); }
    }
  }

  lemma JoinedNone(body: seq<byte>, start: nat)
    requires start <= |body|
    ensures Joined([]) == body[start..start]
  {
  }

  lemma {:induction false} JoinedAppended(pieces: seq<seq<byte>>, last: seq<byte>)
    ensures Joined(pieces + [last]) == Joined(pieces) + last
  {
    if pieces == [] {
      assert ([] + [last])[1..] == [] && last + [] == last;
    } else {
      assert (pieces + [last])[1..] == pieces[1..] + [last];
      JoinedAppended(pieces[1..], last);
    }
  }

  lemma JoinedNext(pieces: seq<seq<byte>>, body: seq<byte>, start: nat, from: nat, to: nat)
    requires start <= from <= to <= |body| && Joined(pieces) == body[start..from]
    ensures Joined(pieces + [body[from..to]]) == body[start..to]
  {
    JoinedAppended(pieces, body[from..to]);
    assert body[start..from] + body[from..to] == body[start..to];
  }

  /** What has arrived for a response, with h2's input, a part of a frame, and the socket's future. */
  datatype Feed = Feed(history: seq<Packet>, rest: seq<byte>, arrived: seq<byte>, socket: seq<Option<seq<byte>>>)

  /** The bytes of what recv calls gave. */
  function ChunkBytes(chunks: seq<Option<seq<byte>>>): seq<byte> {
    if chunks == [] then []
    else (if chunks[0].Some? then chunks[0].value else []) + ChunkBytes(chunks[1..])
  }

  function Received(from: Feed, to: Feed): seq<byte>
    requires |to.socket| <= |from.socket|
  {
    ChunkBytes(from.socket[..|from.socket| - |to.socket|])
  }

  /**
   From one moment to a later one, whatever was read in between: the socket gave some chunks, and unless
   a frame failed, what arrived for the stream is the payload of the whole frames in their bytes.
   */
  ghost predicate Fed(lib: Library, stream: nat, from: Feed, to: Feed) {
    && |to.socket| <= |from.socket| && to.socket == from.socket[|from.socket| - |to.socket|..]
    && from.arrived <= to.arrived
    && if Received(from, to) == [] then to == from.(socket := to.socket)
       else
         var p := Collect(lib, from.history, from.rest + Received(from, to));
         !p.failed ==>
           && to.history == p.history && to.rest == p.rest
           && to.arrived == from.arrived + PayloadOf(EventsOf(p.items), stream)
  }

  /** No recv call raised, and no frame in the bytes received failed. */
  predicate Unbroken(lib: Library, from: Feed, to: Feed)
    requires |to.socket| <= |from.socket|
  {
    && None !in from.socket[..|from.socket| - |to.socket|]
    && (Received(from, to) == [] || !Collect(lib, from.history, from.rest + Received(from, to)).failed)
  }

  lemma {:induction false} ChunkBytesOfBoth(a: seq<Option<seq<byte>>>, b: seq<Option<seq<byte>>>)
    ensures ChunkBytes(a + b) == ChunkBytes(a) + ChunkBytes(b)
  {
    if a == [] {
      assert a + b == b;
    } else {
      assert (a + b)[1..] == a[1..] + b;
      ChunkBytesOfBoth(a[1..], b);
    }
  }

  lemma {:induction false} PayloadOfBoth(a: seq<Event>, b: seq<Event>, stream: nat)
    ensures PayloadOf(a + b, stream) == PayloadOf(a, stream) + PayloadOf(b, stream)
  {
    if a == [] {
      assert a + b == b;
    } else {
      assert (a + b)[1..] == a[1..] + b;
      PayloadOfBoth(a[1..], b, stream);
    }
  }

  /** Collecting the bytes of two stretches one after the other: all of it fails if the first does. */
  lemma PayloadInTwo(lib: Library, history: seq<Packet>, rest: seq<byte>, a: seq<byte>, b: seq<byte>, stream: nat)
    ensures var p, all := Collect(lib, history, rest + a), Collect(lib, history, rest + (a + b));
            && (p.failed ==> all.failed)
            && (!p.failed ==>
                  var q := Collect(lib, p.history, p.rest + b);
                  && all.history == q.history && all.rest == q.rest && all.failed == q.failed
                  && PayloadOf(EventsOf(all.items), stream) == PayloadOf(EventsOf(p.items), stream) + PayloadOf(EventsOf(q.items), stream))
  {
    hide Collect, EventsOf, PayloadOf;
    assert rest + (a + b) == (rest + a) + b;
    CollectInTwo(lib, history, rest + a, b);
    var p := Collect(lib, history, rest + a);
    if !p.failed {
      var q := Collect(lib, p.history, p.rest + b);
      RefusalsOfBoth(map[], p.items, q.items);
      PayloadOfBoth(EventsOf(p.items), EventsOf(q.items), stream);
    }
  }

  lemma FedTwice(lib: Library, stream: nat, a: Feed, b: Feed, c: Feed)
    requires Fed(lib, stream, a, b) && Fed(lib, stream, b, c)
    ensures Fed(lib, stream, a, c) && |c.socket| <= |b.socket| <= |a.socket|
    ensures Unbroken(lib, a, c) <==> Unbroken(lib, a, b) && Unbroken(lib, b, c)
  {
    hide Collect, EventsOf, PayloadOf;
    var n, k, m := |a.socket|, |b.socket|, |c.socket|;
    assert a.socket[..n - m] == a.socket[..n - k] + b.socket[..k - m];
    assert a.socket[n - m..] == b.socket[k - m..];
    ChunkBytesOfBoth(a.socket[..n - k], b.socket[..k - m]);
    PayloadInTwo(lib, a.history, a.rest, Received(a, b), Received(b, c), stream);
    if Received(a, b) != [] && Received(b, c) != [] && !Collect(lib, a.history, a.rest + Received(a, c)).failed {
      var p := Collect(lib, a.history, a.rest + Received(a, b));
      var q := Collect(lib, p.history, p.rest + Received(b, c));
      assert a.arrived + PayloadOf(EventsOf(p.items), stream) + PayloadOf(EventsOf(q.items), stream) ==
             a.arrived + (PayloadOf(EventsOf(p.items), stream) + PayloadOf(EventsOf(q.items), stream));
    }
    assert Received(a, b) == [] ==> Received(a, c) == Received(b, c);
    assert Received(b, c) == [] ==> Received(a, c) == Received(a, b);
  }

  lemma FedHere(lib: Library, stream: nat, feed: Feed)
    ensures Fed(lib, stream, feed, feed) && Unbroken(lib, feed, feed)
  {
    assert feed.socket[..0] == [] && feed.socket[0..] == feed.socket;
  }

  /** A recv call that gave no bytes: an exception, or the end of the stream. */
  lemma FedByNothing(lib: Library, stream: nat, from: Feed, to: Feed)
    requires to.socket == (if from.socket == [] then [] else from.socket[1..])
    requires from.socket != [] && from.socket[0].Some? ==> from.socket[0].value == []
    requires to.history == from.history && to.rest == from.rest && to.arrived == from.arrived
    ensures Fed(lib, stream, from, to) && (Unbroken(lib, from, to) <==> from.socket == [] || from.socket[0].Some?)
  {
    if from.socket != [] {
      assert from.socket[..1] == [from.socket[0]] && from.socket[..1][1..] == [];
      assert ChunkBytes(from.socket[..1]) == [];
    }
  }

  lemma FedByData(lib: Library, stream: nat, from: Feed, to: Feed, data: seq<byte>, failed: bool)
    requires from.socket != [] && from.socket[0] == Some(data) && data != [] && to.socket == from.socket[1..]
    requires from.arrived <= to.arrived
    requires var p := Collect(lib, from.history, from.rest + data);
             && failed == p.failed && to.history == p.history && to.rest == p.rest
             && (!failed ==> to.arrived == from.arrived + PayloadOf(EventsOf(p.items), stream))
    ensures Fed(lib, stream, from, to) && (Unbroken(lib, from, to) <==> !failed)
  {
    assert from.socket[..1] == [Some(data)] && from.socket[..1][1..] == [];
    assert ChunkBytes(from.socket[..1]) == data + [] == data;
  }

  lemma BooksStay(w: World, r: Response)
    requires Valid(w) && r in w.entries
    ensures Balanced(w.entries[r].reply, w.entries[r].books)
  {
    assert Consistent(w, r);
  }

  /** The moment a read began: whether its response was shadowed then, its feed and books, and the connection. */
  datatype Begin = Begin(shadowed: bool, feed: Feed, books: Books, link: Link)

  lemma EndsWholeAnyway(reply: Reply)
    ensures forall buffer :: EndsWhole(reply.(buffer := buffer)) <==> EndsWhole(reply)
  {
  }

  /** One call of read or readline. */
  datatype Want = Amount(amount: Option<nat>) | Line(limit: int)

  /**
   What arrives for a stream depends on the bytes received alone: more of them, however cut and whatever
   was read in between, bring more of the same payload, and as many bring as much.
   */
  lemma FeedsAgree(lib: Library, stream: nat, from: Feed, to: Feed, other: Feed, more: Feed)
    requires Fed(lib, stream, from, to) && Fed(lib, stream, other, more)
    requires other.history == from.history && other.rest == from.rest && other.arrived == from.arrived
    requires Received(from, to) <= Received(other, more) && Unbroken(lib, other, more)
    ensures to.arrived <= more.arrived
    ensures Received(from, to) == Received(other, more) ==> to.arrived == more.arrived && to.history == more.history && to.rest == more.rest
  {
    hide Collect, EventsOf, PayloadOf;
    var few, many := Received(from, to), Received(other, more);
    assert many == few + many[|few|..];
    PayloadInTwo(lib, from.history, from.rest, few, many[|few|..], stream);
    var p := Collect(lib, from.history, from.rest + few);
    var q := Collect(lib, p.history, p.rest + many[|few|..]);
    assert from.arrived + (PayloadOf(EventsOf(p.items), stream) + PayloadOf(EventsOf(q.items), stream)) ==
           (from.arrived + PayloadOf(EventsOf(p.items), stream)) + PayloadOf(EventsOf(q.items), stream);
  }

  /**
   Two connections that start alike and are sent the same bytes in different chunks, and two different
   mixes of read and readline on them. Reads raise only for a response's error, a recv call that raised, a
   frame that failed, or a stream that h2 has yet to open; without these, what one has returned and
   buffered is the beginning of what the other has, as far as it has received, and the same if they have
   received the same.
   */
  method TwoMixes(c: Connection, r: Response, wants: seq<Want>, d: Connection, q: Response, others: seq<Want>)
    returns (one: seq<byte>, two: seq<byte>, raised: bool)
    requires c != d && c.issued !! d.issued && c.lib == d.lib
    requires Valid(c.State()) && r in c.issued && !Shadowed(c.State(), r) && Valid(d.State()) && q in d.issued && !Shadowed(d.State(), q)
    requires r.stream == q.stream && r.books == q.books && !r.books.abandoned
    requires c.history == d.history && c.incoming == d.incoming && Knows(c.link, r.stream) && Knows(d.link, q.stream)
    modifies c, c.issued, d, d.issued
    ensures |c.socket| <= |old(c.socket)| && |d.socket| <= |old(d.socket)|
    ensures var from, to, other, more := old(c.FeedOf(r)), c.FeedOf(r), old(d.FeedOf(q)), d.FeedOf(q);
            r.reply.error.None? && q.reply.error.None? && Unbroken(c.lib, from, to) && Unbroken(c.lib, other, more) ==>
              && !raised
              && (Received(from, to) <= Received(other, more) ==> one + r.reply.buffer <= two + q.reply.buffer)
              && (Received(from, to) == Received(other, more) ==> one + r.reply.buffer == two + q.reply.buffer)
  {
    hide Valid, Shadowed, Snapshot, Fed, Unbroken, Balanced, ChunkBytes, Knows;
    ghost var from, other, books := c.FeedOf(r), d.FeedOf(q), r.books;
    var first, second;
    one, first := c.ReadMix(r, wants);
    ghost var to, reply, after := c.FeedOf(r), r.reply, r.books;
    two, second := d.ReadMix(q, others);
    raised := first || second;
    FedSockets(c.lib, r.stream, from, to);
    FedSockets(c.lib, r.stream, other, d.FeedOf(q));
    if !raised { MixesAgree(c.lib, r.stream, books, from, to, one, reply, after, other, d.FeedOf(q), two, q.reply, q.books); }
  }

  lemma FedSockets(lib: Library, stream: nat, from: Feed, to: Feed)
    requires Fed(lib, stream, from, to)
    ensures |to.socket| <= |from.socket|
  {
  }

  lemma MixesAgree(lib: Library, stream: nat, books: Books, from: Feed, to: Feed, one: seq<byte>, reply: Reply, after: Books,
                   other: Feed, more: Feed, two: seq<byte>, reply2: Reply, after2: Books)
    requires Fed(lib, stream, from, to) && Fed(lib, stream, other, more)
    requires other.history == from.history && other.rest == from.rest
    requires from.arrived == other.arrived == books.arrived && to.arrived == after.arrived && more.arrived == after2.arrived
    requires Balanced(reply, after) && !after.abandoned && after.taken == books.taken + one
    requires Balanced(reply2, after2) && !after2.abandoned && after2.taken == books.taken + two
    ensures |to.socket| <= |from.socket| && |more.socket| <= |other.socket|
    ensures Unbroken(lib, other, more) && Received(from, to) <= Received(other, more) ==>
              && one + reply.buffer <= two + reply2.buffer
              && (Received(from, to) == Received(other, more) ==> one + reply.buffer == two + reply2.buffer)
  {
    FedSockets(lib, stream, from, to);
    FedSockets(lib, stream, other, more);
    if Unbroken(lib, other, more) && Received(from, to) <= Received(other, more) {
      hide Fed, Unbroken, ChunkBytes;
      FeedsAgree(lib, stream, from, to, other, more);
      AfterTaken(books.taken, one, reply.buffer, to.arrived, two, reply2.buffer, more.arrived);
    }
  }

  lemma AfterTaken(taken: seq<byte>, one: seq<byte>, buffer: seq<byte>, arrived: seq<byte>, two: seq<byte>, other: seq<byte>, more: seq<byte>)
    requires taken + one + buffer == arrived && taken + two + other == more && arrived <= more
    ensures one + buffer <= two + other && (arrived == more ==> one + buffer == two + other)
  {
    assert taken + (one + buffer) == arrived && taken + (two + other) == more;
    assert arrived[|taken|..] == one + buffer && more[|taken|..] == two + other;
    assert arrived == more[..|arrived|];
  }

  /** What an unfinished response has buffered shows what arrived for it. */
  lemma BufferShows(was: World, now: World, r: Response)
    requires Valid(was) && Valid(now) && OnlyArrives(was, now) && r in was.entries && !was.entries[r].reply.ended
    ensures r.stream in was.responses && r.stream in Snapshot(was) && r.stream in Snapshot(now)
    ensures Snapshot(was)[r.stream] == was.entries[r].reply && Snapshot(now)[r.stream] == now.entries[r].reply
    ensures was.entries[r].books.taken + was.entries[r].reply.buffer == was.entries[r].books.arrived
    ensures was.entries[r].books.taken + now.entries[r].reply.buffer == now.entries[r].books.arrived
    ensures was.entries[r].books.arrived <= now.entries[r].books.arrived
  {
    assert Consistent(was, r) && Consistent(now, r);
  }

  lemma DataArrives(was: World, now: World, r: Response, lib: Library, c: Inbound, data: seq<byte>)
    requires Valid(was) && Valid(now) && OnlyArrives(was, now) && r in was.entries && !was.entries[r].reply.ended
    requires c.replies == Snapshot(was) && Snapshot(now) == Http2Frames.Receive(lib, c, data).replies
    ensures var p := Collect(lib, c.history, c.rest + data);
            !p.failed ==> now.entries[r].books.arrived == was.entries[r].books.arrived + PayloadOf(EventsOf(p.items), r.stream)
    ensures was.entries[r].books.arrived <= now.entries[r].books.arrived
  {
    hide Valid, OnlyArrives, Snapshot, Collect, EventsOf, PayloadOf, Http2Frames.Receive;
    BufferShows(was, now, r);
    ReceiveIs(lib, c, data, r.stream);
    var p := Collect(lib, c.history, c.rest + data);
    var taken, buffer, payload := was.entries[r].books.taken, was.entries[r].reply.buffer, PayloadOf(EventsOf(p.items), r.stream);
    assert taken + (buffer + payload) == (taken + buffer) + payload;
  }

  lemma ReceiveIs(lib: Library, c: Inbound, data: seq<byte>, s: nat)
    ensures var p, after := Collect(lib, c.history, c.rest + data), Http2Frames.Receive(lib, c, data);
            && after.failed == p.failed && after.history == p.history && after.rest == p.rest
            && after.replies.Keys == c.replies.Keys
            && (!p.failed && s in c.replies ==> after.replies[s].buffer == c.replies[s].buffer + PayloadOf(EventsOf(p.items), s))
  {
    hide Collect, EventsOf, PayloadOf, Refusals, Dispatch;
    var p := Collect(lib, c.history, c.rest + data);
    if s in c.replies {
      RefusalsAre(c.replies, p.items, s);
      DispatchAddsPayload(Refusals(c.replies, p.items), EventsOf(p.items), s);
    }
  }

  lemma NothingArrives(was: World, now: World, r: Response)
    requires Valid(was) && Valid(now) && OnlyArrives(was, now) && r in was.entries && !was.entries[r].reply.ended
    requires Snapshot(now) == Finish(Snapshot(was)) || now == was
    ensures now.entries[r].books.arrived == was.entries[r].books.arrived
  {
    BufferShows(was, now, r);
  }

  lemma ShadowedIsEnded(w: World, r: Response)
    requires Valid(w) && r in w.entries && Shadowed(w, r)
    ensures w.entries[r].reply.ended
  {
    assert Consistent(w, r);
  }

  lemma UnfinishedIsOpen(w: World, r: Response)
    requires Valid(w) && r in w.entries && !w.entries[r].reply.ended
    ensures w.link.open
  {
    assert Consistent(w, r);
  }

  lemma TakeKeepsBalance(w: World, r: Response, count: nat)
    requires Valid(w) && r in w.entries && count <= |w.entries[r].reply.buffer|
    ensures var e := TakeStep(w, r, count).entries[r]; e == Taken(w.entries[r], count) && Balanced(e.reply, e.books)
    ensures Shadowed(TakeStep(w, r, count), r) ==> Shadowed(w, r)
  {
    assert Consistent(w, r);
    TakenBalances(w.entries[r], count);
  }

  lemma RetireKeeps(w: World, r: Response)
    requires Valid(w) && r in w.entries && w.entries[r].reply.ended && !Shadowed(w, r)
    ensures var after := w.(responses := w.responses - {r.stream}); Valid(after) && !Shadowed(after, r)
  {
    hide Balanced, Settled, Unique;
    var after := w.(responses := w.responses - {r.stream});
    forall q | q in after.entries ensures Consistent(after, q) {
      assert Consistent(w, q);
    }
  }

  lemma ArrivalsKeepUnshadowed(was: World, now: World, r: Response)
    requires OnlyArrives(was, now) && !Shadowed(was, r) && was.link.open && r in was.entries
    ensures !Shadowed(now, r)
    ensures now.entries[r].books.taken == was.entries[r].books.taken
    ensures was.entries[r].books.arrived <= now.entries[r].books.arrived
    ensures now.entries[r].books.abandoned == was.entries[r].books.abandoned
  {
  }

  // ---------------------------------------------------------------- whole runs

  /** What may happen to a connection and its responses, in any order. */
  datatype Move =
    | Taking(taker: Response, count: nat)
    | Retiring(reader: Response)
    | Delivering(event: Event)
    | Refusing(last: nat)
    | HangingUp
    | Connecting
    | Issuing(issued: Response)
    | Abandoning(closed: Response)
    | Disconnecting

  ghost predicate Possible(w: World, m: Move) {
    match m
    case Taking(r, count) => r in w.entries && 0 < count <= |w.entries[r].reply.buffer|
    case Retiring(r) => r in w.entries && w.entries[r].reply.ended
    case Delivering(_) => w.link.open
    case Refusing(_) => w.link.open
    case HangingUp => w.link.open
    case Connecting => !w.link.open
    case Issuing(r) => w.link.open && r !in w.entries && r.stream == w.link.next && r.generation == w.link.generation
    case Abandoning(r) => r in w.entries
    case Disconnecting => true
  }

  ghost function After(w: World, m: Move): World
    requires Valid(w) && Possible(w, m)
  {
    match m
    case Taking(r, count) => TakeStep(w, r, count)
    case Retiring(r) => w.(responses := w.responses - {r.stream})
    case Delivering(e) => DeliverStep(w, e)
    case Refusing(last) => RefuseStep(w, last)
    case HangingUp => HangupStep(w)
    case Connecting => ConnectStep(w)
    case Issuing(r) => IssueStep(w, r)
    case Abandoning(r) => AbandonStep(w, r)
    case Disconnecting => DisconnectStep(w)
  }

  /** Another response, unfinished, is registered for this one's stream. */
  ghost predicate Supplanted(w: World, r: Response)
    requires Registered(w)
  {
    r.stream in w.responses && w.responses[r.stream] != r && !w.entries[w.responses[r.stream]].reply.ended
  }

  /** The move is not made on a response whose stream has passed to a later one. */
  ghost predicate Current(w: World, m: Move)
    requires Registered(w)
  {
    match m
    case Taking(r, _) => !(r.stream < w.link.next && Shadowed(w, r))
    case Retiring(r) => !Supplanted(w, r)
    case Abandoning(r) => !Supplanted(w, r)
    case _ => true
  }

  lemma RetireKeepsUnlessSupplanted(w: World, r: Response)
    requires Valid(w) && r in w.entries && w.entries[r].reply.ended
    ensures Valid(w.(responses := w.responses - {r.stream})) <==> !Supplanted(w, r)
  {
    hide Balanced, Settled, Unique;
    var after := w.(responses := w.responses - {r.stream});
    if Supplanted(w, r) {
      assert Consistent(w, w.responses[r.stream]);
      assert !Consistent(after, w.responses[r.stream]);
    } else {
      forall q | q in after.entries ensures Consistent(after, q) {
        assert Consistent(w, q);
      }
    }
  }

  lemma MoveKeepsIfCurrent(w: World, m: Move)
    requires Valid(w) && Possible(w, m)
    ensures Valid(After(w, m)) <==> Current(w, m)
  {
    hide Consistent, Unique, Issued, Shadowed, TakeStep, DeliverStep, RefuseStep, HangupStep, ConnectStep, IssueStep,
      AbandonStep, DisconnectStep, Snapshot;
    match m
    case Taking(r, count) => TakeKeepsUnlessShadowed(w, r, count);
    case Retiring(r) => RetireKeepsUnlessSupplanted(w, r);
    case Delivering(e) => DeliverKeeps(w, e);
    case Refusing(last) => RefuseKeeps(w, last);
    case HangingUp => HangupKeeps(w);
    case Connecting => ConnectKeeps(w);
    case Issuing(r) => IssueKeeps(w, r);
    case Abandoning(r) => AbandonKeepsUnlessRegistered(w, r);
    case Disconnecting => DisconnectKeeps(w);
  }

  /** A run goes on for as long as the books are in order, each move being possible where it is made. */
  ghost predicate IsRun(w: World, moves: seq<Move>)
    requires Valid(w)
    decreases |moves|
  {
    moves == [] || (Possible(w, moves[0]) && (Valid(After(w, moves[0])) ==> IsRun(After(w, moves[0]), moves[1..])))
  }

  ghost predicate AllCurrent(w: World, moves: seq<Move>)
    requires Valid(w) && IsRun(w, moves)
    decreases |moves|
  {
    moves == [] || (Current(w, moves[0]) && (Valid(After(w, moves[0])) ==> AllCurrent(After(w, moves[0]), moves[1..])))
  }

  /** Every state of the run is consistent. */
  ghost predicate StaysValid(w: World, moves: seq<Move>)
    requires Valid(w) && IsRun(w, moves)
    decreases |moves|
  {
    moves == [] || (Valid(After(w, moves[0])) && StaysValid(After(w, moves[0]), moves[1..]))
  }

  /**
   Over any run of reads, requests, closes and whatever is received, on one connection after another,
   the books of every response stay in order if and only if no move is made on a response whose stream
   has passed to a later one.
   */
  lemma {:induction false} BooksStayInOrder(w: World, moves: seq<Move>)
    requires Valid(w) && IsRun(w, moves)
    ensures StaysValid(w, moves) <==> AllCurrent(w, moves)
    decreases |moves|
  {
    hide Valid, Current, After;
    if moves != [] {
      MoveKeepsIfCurrent(w, moves[0]);
      if Valid(After(w, moves[0])) { BooksStayInOrder(After(w, moves[0]), moves[1..]); }
    }
  }

  // ---------------------------------------------------------------- parsing step by step

  /** What is collected from here completes what was collected so far. */
  ghost predicate Continues(lib: Library, h: seq<Packet>, bytes: seq<byte>, history: seq<Packet>, rest: seq<byte>, items: seq<Item>) {
    var p, q := Collect(lib, h, bytes), Collect(lib, history, rest);
    p.history == q.history && p.rest == q.rest && p.failed == q.failed && p.items == items + q.items
  }

  ghost predicate Parsed(lib: Library, h: seq<Packet>, bytes: seq<byte>, history: seq<Packet>, rest: seq<byte>, failed: bool, items: seq<Item>) {
    var p := Collect(lib, h, bytes);
    p.history == history && p.rest == rest && p.failed == failed && p.items == items
  }

  lemma ParseStarts(lib: Library, history: seq<Packet>, bytes: seq<byte>, rs: Replies)
    ensures Continues(lib, history, bytes, history, bytes, [])
    ensures EventsOf([]) == [] && rs == Refusals(rs, []) && !Draining([])
  {
  }

  lemma OnlyArrivesHere(w: World)
    ensures OnlyArrives(w, w)
  {
  }

  lemma ParseFails(lib: Library, h: seq<Packet>, bytes: seq<byte>, history: seq<Packet>, rest: seq<byte>, items: seq<Item>)
    requires Continues(lib, h, bytes, history, rest, items)
    requires |rest| >= 9 && (lib.refuses(rest[..9]) || Length(rest) > LIMIT)
    ensures Parsed(lib, h, bytes, history, rest, true, items)
  {
  }

  lemma ParseEnds(lib: Library, h: seq<Packet>, bytes: seq<byte>, history: seq<Packet>, rest: seq<byte>, items: seq<Item>)
    requires Continues(lib, h, bytes, history, rest, items) && NextFrame(lib, rest).Wait?
    ensures Parsed(lib, h, bytes, history, rest, false, items)
  {
  }

  lemma ParseTakes(lib: Library, h: seq<Packet>, bytes: seq<byte>, history: seq<Packet>, rest: seq<byte>, items: seq<Item>)
    requires Continues(lib, h, bytes, history, rest, items) && NextFrame(lib, rest).Took?
    ensures var packet := rest[..9 + Length(rest)];
            var after, handed, effect := rest[9 + Length(rest)..], Handed(history, packet), Effect(lib, history, packet);
            if effect.None? then Parsed(lib, h, bytes, handed, after, true, items)
            else Continues(lib, h, bytes, handed, after, items + effect.value)
  {
    hide Effect, Handed, Length, NextFrame, Collect;
    CollectOne(lib, history, rest);
    var packet := rest[..9 + Length(rest)];
    var after, handed, effect := rest[9 + Length(rest)..], Handed(history, packet), Effect(lib, history, packet);
    if effect.Some? {
      assert items + (effect.value + Collect(lib, handed, after).items) == (items + effect.value) + Collect(lib, handed, after).items;
    }
  }

  lemma CollectOne(lib: Library, history: seq<Packet>, rest: seq<byte>)
    requires NextFrame(lib, rest).Took?
    ensures 9 + Length(rest) <= |rest|
    ensures var packet := rest[..9 + Length(rest)];
            var after, handed, effect := rest[9 + Length(rest)..], Handed(history, packet), Effect(lib, history, packet);
            var p, q := Collect(lib, history, rest), Collect(lib, handed, after);
            if effect.None? then p.history == handed && p.rest == after && p.items == [] && p.failed
            else p.history == q.history && p.rest == q.rest && p.items == effect.value + q.items && p.failed == q.failed
  {
    hide Effect, Handed;
  }

  lemma {:induction false} RefusalsOfBoth(rs: Replies, a: seq<Item>, b: seq<Item>)
    ensures Refusals(rs, a + b) == Refusals(Refusals(rs, a), b)
    ensures EventsOf(a + b) == EventsOf(a) + EventsOf(b)
  {
    if a == [] {
      assert [] + b == b;
    } else {
      assert (a + b)[1..] == a[1..] + b;
      RefusalsOfBoth(if a[0].Refusal? then Refuse(rs, a[0].last) else rs, a[1..], b);
    }
  }

  lemma ItemsNext(rs: Replies, a: seq<Item>, b: seq<Item>)
    ensures Refusals(rs, a + b) == Refusals(Refusals(rs, a), b)
    ensures EventsOf(a + b) == EventsOf(a) + EventsOf(b)
    ensures Draining(a + b) <==> Draining(a) || Draining(b)
  {
    RefusalsOfBoth(rs, a, b);
    DrainingOfBoth(a, b);
  }

  lemma RefusalOnly(rs: Replies, last: nat)
    ensures Refusals(rs, [Refusal(last)]) == Refuse(rs, last)
    ensures EventsOf([Refusal(last)]) == [] && Draining([Refusal(last)])
  {
    assert [Refusal(last)][0].Refusal?;
    assert [Refusal(last)][1..] == [];
  }

  // ---------------------------------------------------------------- the objects

  class Connection {
    const lib: Library
    var link: Link
    var incoming: seq<byte>
    var history: seq<Packet>
    var responses: map<nat, Response>
    var draining: bool
    var credit: map<nat, nat>            // bytes acknowledged to h2, by stream
    var socket: seq<Option<seq<byte>>>
    ghost var issued: set<Response>

    constructor (lib: Library)
      ensures this.lib == lib && link == Link(false, 0, 1) && responses == map[] && issued == {} && Valid(State())
    {
      this.lib := lib;
      link, incoming, history, responses, draining, credit, socket := Link(false, 0, 1), [], [], map[], false, map[], [];
      issued := {};
    }

    ghost function State(): (w: World)
      reads this`link, this`responses, this`credit, this`issued, issued
      ensures w.entries.Keys == issued
    {
      World(link, responses, credit, Entries())
    }

    ghost function Entries(): (es: map<Response, Entry>)
      reads this`issued, issued
      ensures es.Keys == issued
    {
      map r | r in issued :: Entry(r.reply, r.books)
    }

    ghost function Inside(): Inbound
      reads this, issued
    {
      Inbound(history, incoming, Snapshot(State()), draining, false)
    }

    lemma EntriesAre()
      ensures forall r :: r in issued ==> Entries()[r] == Entry(r.reply, r.books)
    {
    }

    lemma EntriesBecome(es: map<Response, Entry>)
      requires es.Keys == issued && forall q :: q in issued ==> es[q] == Entry(q.reply, q.books)
      ensures Entries() == es
    {
    }

    /** Only one response has changed since the entries were `was`. */
    lemma EntryNoted(was: map<Response, Entry>, r: Response)
      requires r in issued && was.Keys == issued
      requires forall q :: q in issued && q != r ==> was[q] == Entry(q.reply, q.books)
      ensures Entries() == was[r := Entry(r.reply, r.books)]
    {
    }

    /** _take: the bytes, or an exception from h2 after they have left the buffer. */
    method Take(r: Response, count: nat) returns (result: Option<seq<byte>>)
      requires Valid(State()) && r in issued && 0 < count <= |r.reply.buffer|
      modifies this`credit, this`responses, r
      ensures State() == TakeStep(old(State()), r, count)
      ensures result == if Knows(link, r.stream) then Some(old(r.reply.buffer)[..count]) else None
      ensures Valid(State()) <==> !old(r.stream < link.next && Shadowed(State(), r))
    {
      hide Valid, Consistent, Shadowed, Balanced, Entries, Snapshot, TakeStep, Credited;
      ghost var was := State();
      EntriesAre();
      TakeKeepsUnlessShadowed(was, r, count);
      TakeStepIs(was, r, count);
      EntryIsConsistent(was, r);
      var bytes := r.Cut(count);
      EntryNoted(was.entries, r);
      if !Knows(link, r.stream) { return None; }
      if link.open { credit := Credited(credit, r.stream, count); }
      if r.reply.ended && r.reply.buffer == [] { responses := responses - {r.stream}; }
      return Some(bytes);
    }

    method Deliver(e: Event)
      requires Valid(State()) && link.open
      modifies this`credit, issued
      ensures Valid(State()) && State() == DeliverStep(old(State()), e)
      ensures OnlyArrives(old(State()), State())
      ensures Snapshot(State()) == Apply(old(Snapshot(State())), e)
    {
      hide Valid, Consistent, Balanced, Entries, Snapshot, OnlyArrives, Applied;
      ghost var was := State();
      ValidRegisters(was);
      DeliverKeeps(was, e);
      DeliverOnlyArrives(was, e);
      if e.stream !in responses { return; }
      var r := responses[e.stream];
      EntriesAre();
      r.Note(e);
      EntryNoted(was.entries, r);
      if e.Data? && e.padding != 0 && e.stream < link.next { credit := Credited(credit, e.stream, e.padding); }
    }

    /** What a GOAWAY does to the responses. */
    method MarkRefused(last: nat)
      requires Valid(State()) && link.open
      modifies issued
      ensures Valid(State()) && State() == RefuseStep(old(State()), last)
      ensures OnlyArrives(old(State()), State())
      ensures Snapshot(State()) == Refuse(old(Snapshot(State())), last)
    {
      hide Valid, Consistent, Balanced, Snapshot, OnlyArrives, Entries;
      ghost var was := State();
      EntriesAre();
      ValidRegisters(was);
      RefuseKeeps(was, last);
      RefuseOnlyArrives(was, last);
      forall s | s in responses && responses[s].stream > last {
        responses[s].reply := Turned(responses[s].reply, true);
      }
      EntriesBecome(RefuseStep(was, last).entries);
    }

    /** What the end of the byte stream does. */
    method Hangup()
      requires Valid(State()) && link.open
      modifies this`link, issued
      ensures Valid(State()) && State() == HangupStep(old(State()))
      ensures OnlyArrives(old(State()), State())
      ensures Snapshot(State()) == Finish(old(Snapshot(State())))
      ensures forall n :: n in responses ==> responses[n] in issued && CutShort(old(responses[n].reply), responses[n].reply)
      ensures forall r :: r in issued && !Listed(responses, r) ==> r.reply == old(r.reply)
    {
      hide Valid, Consistent, Balanced, Snapshot, OnlyArrives, Entries, WithEnd, CutShort;
      ghost var was := State();
      EntriesAre();
      ValidRegisters(was);
      HangupKeeps(was);
      HangupOnlyArrives(was);
      WithEndCutsShort();
      forall s | s in responses {
        responses[s].reply := WithEnd(responses[s].reply);
      }
      link := link.(open := false);
      EntriesBecome(HangupStep(was).entries);
    }

    /** One frame: a GOAWAY is taken here, any other frame goes to h2. */
    method Handle(packet: Packet) returns (events: Option<seq<Event>>)
      requires Valid(State()) && link.open
      modifies this`history, this`draining, issued
      ensures Valid(State()) && OnlyArrives(old(State()), State())
      ensures history == Handed(old(history), packet)
      ensures var effect := Effect(lib, old(history), packet);
              && (events.None? <==> effect.None?)
              && (effect.None? ==> State() == old(State()) && draining == old(draining))
              && (effect.Some? ==> events.value == EventsOf(effect.value)
                                   && Snapshot(State()) == Refusals(old(Snapshot(State())), effect.value)
                                   && draining == (old(draining) || Draining(effect.value)))
    {
      hide Valid, OnlyArrives, Snapshot, Entries, Consistent;
      OnlyArrivesHere(State());
      if IsGoAway(packet) {
        var said := lib.goAway(packet);
        if said.None? || said.value.1 != 0 { return None; }
        draining := true;
        RefusalOnly(Snapshot(State()), said.value.0);
        MarkRefused(said.value.0);
        return Some([]);
      }
      var reaction := lib.react(history, packet);
      history := history + [packet];
      if reaction.Fails? { return None; }
      NotesAre(Snapshot(State()), reaction.events);
      return Some(reaction.events);
    }

    /** Takes whole frames off `incoming`: refusals act at once, events are kept for later. */
    method Parse() returns (events: seq<Event>, failed: bool, ghost items: seq<Item>)
      requires Valid(State()) && link.open
      modifies this`incoming, this`history, this`draining, issued
      ensures Valid(State()) && OnlyArrives(old(State()), State())
      ensures Parsed(lib, old(history), old(incoming), history, incoming, failed, items)
      ensures events == EventsOf(items) && Snapshot(State()) == Refusals(old(Snapshot(State())), items)
      ensures draining == (old(draining) || Draining(items))
    {
      hide Valid, OnlyArrives, Snapshot, Entries, Continues, Parsed, EventsOf, Refusals, Draining, Effect, Handed, Collect;
      events, failed, items := [], false, [];
      ghost var was := State();
      OnlyArrivesHere(was);
      ParseStarts(lib, history, incoming, Snapshot(was));
      while |incoming| >= 9
        invariant Valid(State()) && OnlyArrives(was, State()) && link.open
        invariant Continues(lib, old(history), old(incoming), history, incoming, items)
        invariant events == EventsOf(items) && Snapshot(State()) == Refusals(Snapshot(was), items)
        invariant draining == (old(draining) || Draining(items))
        decreases |incoming|
      {
        if lib.refuses(incoming[..9]) || Length(incoming) > LIMIT {
          ParseFails(lib, old(history), old(incoming), history, incoming, items);
          failed := true;
          return;
        }
        if |incoming| < 9 + Length(incoming) { break; }
        ghost var known, effect := State(), Effect(lib, history, incoming[..9 + Length(incoming)]);
        ParseTakes(lib, old(history), old(incoming), history, incoming, items);
        var packet := incoming[..9 + Length(incoming)];
        incoming := incoming[9 + Length(incoming)..];
        var more := Handle(packet);
        OnlyArrivesThrough(was, known, State());
        if more.None? {
          failed := true;
          return;
        }
        ItemsNext(Snapshot(was), items, effect.value);
        events, items := events + more.value, items + effect.value;
      }
      ParseEnds(lib, old(history), old(incoming), history, incoming, items);
    }

    /** Dispatches a batch of events, in order. */
    method DeliverAll(events: seq<Event>)
      requires Valid(State()) && link.open
      modifies this`credit, issued
      ensures Valid(State()) && OnlyArrives(old(State()), State())
      ensures Snapshot(State()) == Dispatch(old(Snapshot(State())), events)
    {
      hide Valid, OnlyArrives, Snapshot, Entries, Apply;
      ghost var was := State();
      OnlyArrivesHere(was);
      var i := 0;
      assert events[0..] == events;
      while i < |events|
        invariant 0 <= i <= |events|
        invariant Valid(State()) && OnlyArrives(was, State())
        invariant Dispatch(Snapshot(State()), events[i..]) == Dispatch(Snapshot(was), events)
      {
        ghost var known := State();
        assert events[i..][0] == events[i] && events[i..][1..] == events[i + 1..];
        Deliver(events[i]);
        OnlyArrivesThrough(was, known, State());
        i := i + 1;
      }
      assert events[i..] == [];
    }

    /** _receive: what the next recv call gives, or an exception, which drops the batch's events. */
    method Receive() returns (failed: bool)
      requires Valid(State()) && link.open
      modifies this`link, this`incoming, this`history, this`draining, this`credit, this`socket, issued
      ensures Valid(State()) && OnlyArrives(old(State()), State())
      ensures link.next == old(link.next)
      ensures if old(socket) == [] then socket == [] && !link.open else socket == old(socket)[1..]
      ensures old(socket) != [] && old(socket)[0].Some? && old(socket)[0].value != [] ==>
                var after := Http2Frames.Receive(lib, old(Inside()), old(socket)[0].value);
                failed == after.failed && Inside() == after.(failed := false) && link == old(link)
      ensures old(socket) == [] || old(socket)[0] == Some([]) ==>
                && !failed && !link.open && Inside() == old(Inside()).(replies := Finish(old(Snapshot(State()))))
                && (forall n :: n in responses ==> responses[n] in issued && CutShort(old(responses[n].reply), responses[n].reply))
                && (forall r :: r in issued && !Listed(responses, r) ==> r.reply == old(r.reply))
      ensures old(socket) != [] && old(socket)[0].None? ==> failed && State() == old(State()) && Inside() == old(Inside())
    {
      hide Valid, OnlyArrives, Snapshot, Entries, Collect, Refusals, Dispatch, EventsOf, Draining;
      ghost var was := State();
      OnlyArrivesHere(was);
      var data := [];
      if socket != [] {
        var given := socket[0];
        socket := socket[1..];
        if given.None? { return true; }
        data := given.value;
      }
      if data == [] {
        Hangup();
        return false;
      }
      incoming := incoming + data;
      var events, stopped := Batch();
      if stopped { return true; }
      ghost var known := State();
      DeliverAll(events);
      OnlyArrivesThrough(was, known, State());
      return false;
    }

    method Batch() returns (events: seq<Event>, failed: bool)
      requires Valid(State()) && link.open
      modifies this`incoming, this`history, this`draining, issued
      ensures Valid(State()) && OnlyArrives(old(State()), State())
      ensures var p := Collect(lib, old(history), old(incoming));
              && history == p.history && incoming == p.rest && failed == p.failed && events == EventsOf(p.items)
              && Snapshot(State()) == Refusals(old(Snapshot(State())), p.items)
              && draining == (old(draining) || Draining(p.items))
    {
      hide Valid, OnlyArrives, Snapshot, Entries, Collect, Refusals, EventsOf, Draining;
      ghost var items;
      events, failed, items := Parse();
    }

    /** The response's end of a read: it is done with, and its stream's registration goes. */
    method Retire(r: Response)
      requires r in issued && r.reply.ended
      modifies this`responses
      ensures responses == old(responses) - {r.stream}
      ensures old(Valid(State()) && !Shadowed(State(), r)) ==> Valid(State()) && !Shadowed(State(), r)
    {
      hide Valid, Shadowed, Entries;
      ghost var was := State();
      EntriesAre();
      if Valid(was) && !Shadowed(was, r) { RetireKeeps(was, r); }
      responses := responses - {r.stream};
    }

    /** Take, as a step of a read by a response that may be shadowed. */
    method TakeSome(r: Response, count: nat, ghost shadowed: bool) returns (result: Option<seq<byte>>)
      requires Valid(State()) && r in issued && 0 < count <= |r.reply.buffer|
      requires shadowed || !Shadowed(State(), r)
      modifies this`credit, this`responses, r
      ensures !shadowed ==> Valid(State()) && !Shadowed(State(), r)
      ensures r.reply == old(r.reply).(buffer := old(r.reply.buffer)[count..]) && Balanced(r.reply, r.books)
      ensures r.books == old(r.books).(taken := r.books.taken)
      ensures |r.reply.buffer| == |old(r.reply.buffer)| - count
      ensures r.books.taken == old(r.books.taken) + old(r.reply.buffer)[..count]
      ensures if Knows(link, r.stream) then result == Some(old(r.reply.buffer)[..count]) else result.None?
    {
      hide Valid, Shadowed, Entries, TakeStep, Balanced, Credited;
      ghost var was := State();
      EntriesAre();
      EntryIsConsistent(was, r);
      TakeKeepsBalance(was, r, count);
      result := Take(r, count);
      EntriesAre();
    }

    /** What has arrived for a response, and what is there to come. */
    ghost function FeedOf(r: Response): Feed
      reads this`history, this`incoming, this`socket, r`books
    {
      Feed(history, incoming, r.books.arrived, socket)
    }

    /** Receiving, as a step of a read: the response is not finished, so the socket is open. */
    method Await(r: Response) returns (failed: bool)
      requires Valid(State()) && r in issued && !r.reply.ended && !Shadowed(State(), r)
      modifies this`link, this`incoming, this`history, this`draining, this`credit, this`socket, issued
      ensures Valid(State()) && !Shadowed(State(), r)
      ensures Balanced(r.reply, r.books) && r.books.taken == old(r.books.taken)
      ensures Fed(lib, r.stream, old(FeedOf(r)), FeedOf(r)) && r.books.abandoned == old(r.books.abandoned)
      ensures failed <==> !Unbroken(lib, old(FeedOf(r)), FeedOf(r))
      ensures link.next == old(link.next) && old(link.open) && (!link.open ==> r.reply.ended && EndsWhole(r.reply))
      ensures |socket| < |old(socket)| || (|socket| == |old(socket)| && old(link.open) && !link.open)
    {
      hide Valid, Shadowed, Entries, Snapshot, OnlyArrives, Balanced, Tracked, Settled, Fed, Unbroken, Consistent, Finish,
        Http2Frames.Receive, CutShort, EndsWhole, Listed;
      ghost var was, inside, feed := State(), Inside(), FeedOf(r);
      ghost var before := r.reply;
      EntriesAre();
      UnfinishedIsOpen(was, r);
      UnfinishedIsListed(was, r);
      ListedIs(responses, r);
      failed := Receive();
      EntriesAre();
      BooksStay(State(), r);
      ArrivalsKeepUnshadowed(was, State(), r);
      if feed.socket != [] && feed.socket[0].Some? && feed.socket[0].value != [] {
        DataArrives(was, State(), r, lib, inside, feed.socket[0].value);
        ReceiveIs(lib, inside, feed.socket[0].value, r.stream);
        FedByData(lib, r.stream, feed, FeedOf(r), feed.socket[0].value, failed);
      } else {
        NothingArrives(was, State(), r);
        FedByNothing(lib, r.stream, feed, FeedOf(r));
        if !link.open {
          assert responses[r.stream] == r;
          CutShortEndsWhole(before, r.reply);
        }
      }
    }

    /** Response.read: a number of bytes or, without one, all. */
    method Read(r: Response, amount: Option<nat>) returns (outcome: Outcome)
      requires Valid(State()) && r in issued
      modifies this, issued
      ensures issued == old(issued) && (!old(Shadowed(State(), r)) ==> Valid(State()) && !Shadowed(State(), r))
      ensures Balanced(r.reply, r.books) && Fed(lib, r.stream, old(FeedOf(r)), FeedOf(r))
      ensures r.books.abandoned == old(r.books.abandoned)
      ensures link.next == old(link.next) && (link.open ==> old(link.open))
      ensures outcome == Raised(None) ==> !Knows(old(link), r.stream) || !Unbroken(lib, old(FeedOf(r)), FeedOf(r))
      ensures outcome != Raised(None) ==> Unbroken(lib, old(FeedOf(r)), FeedOf(r))
      ensures !Knows(old(link), r.stream) && old(r.reply.buffer) != [] && amount != Some(0) ==>
                outcome == Raised(None) && |r.reply.buffer| == if amount.None? then 0 else Max(|old(r.reply.buffer)| - amount.value, 0)
      ensures outcome.Bytes? ==> r.books.taken == old(r.books.taken) + outcome.bytes
      ensures outcome.Bytes? && amount.Some? ==> |outcome.bytes| <= amount.value
      ensures outcome.Bytes? && (amount.None? || |outcome.bytes| < amount.value) ==>
                r.reply.ended && r.reply.buffer == [] && r.reply.error.None?
      ensures outcome.Bytes? && (amount.None? || |outcome.bytes| < amount.value) && old(link.open) && !link.open ==>
                r.reply.length.None? || r.reply.length == Some(r.reply.received)
      ensures outcome.Raised? && outcome.error.Some? ==> r.reply.error == outcome.error && r.reply.buffer == []
    {
      hide Valid, Shadowed, Entries, Balanced, Snapshot, Fed, Unbroken, Knows;
      ghost var b := Begin(Shadowed(State(), r), FeedOf(r), r.books, link);
      ReadStarts(r, b);
      FedHere(lib, r.stream, b.feed);
      outcome := ReadOn(r, amount, b);
    }

    /** The loop of a read that began at `b`. */
    method ReadOn(r: Response, amount: Option<nat>, ghost b: Begin) returns (outcome: Outcome)
      requires r in issued && Going(r, b) && MayTake(r, b.shadowed, false) && b.books == r.books && b.link == link
      requires |socket| <= |b.feed.socket| && Unbroken(lib, b.feed, FeedOf(r))
      modifies this, issued
      ensures issued == old(issued) && Going(r, b)
      ensures outcome == Raised(None) ==> !Knows(b.link, r.stream) || !Unbroken(lib, b.feed, FeedOf(r))
      ensures outcome != Raised(None) ==> Unbroken(lib, b.feed, FeedOf(r))
      ensures !Knows(b.link, r.stream) && old(r.reply.buffer) != [] && amount != Some(0) ==>
                outcome == Raised(None) && |r.reply.buffer| == if amount.None? then 0 else Max(|old(r.reply.buffer)| - amount.value, 0)
      ensures outcome.Bytes? ==> r.books.taken == b.books.taken + outcome.bytes
      ensures outcome.Bytes? && amount.Some? ==> |outcome.bytes| <= amount.value
      ensures outcome.Bytes? && (amount.None? || |outcome.bytes| < amount.value) ==>
                r.reply.ended && r.reply.buffer == [] && r.reply.error.None?
      ensures outcome.Raised? && outcome.error.Some? ==> r.reply.error == outcome.error && r.reply.buffer == []
    {
      hide Valid, Shadowed, Entries, Balanced, Snapshot, Fed, Unbroken, Knows, Going, MayTake;
      ghost var lost, n := !Knows(link, r.stream) && r.reply.buffer != [] && amount != Some(0), |r.reply.buffer|;
      var result := [];
      while amount.None? || |result| < amount.value
        invariant issued == old(issued) && Going(r, b) && |socket| <= |b.feed.socket| && Unbroken(lib, b.feed, FeedOf(r))
        invariant (amount.None? || |result| < amount.value) ==> MayTake(r, b.shadowed, false)
        invariant r.books.taken == b.books.taken + result && (amount.Some? ==> |result| <= amount.value)
        invariant lost ==> result == [] && |r.reply.buffer| == n && link == b.link
        decreases |socket|, if link.open then 1 else 0, |r.reply.buffer|
      {
        if r.reply.buffer != [] {
          var part := TakeRoom(r, amount, b, result);
          if part.None? { return Raised(None); }
          result := result + part.value;
        } else if r.reply.error.Some? {
          return Raised(r.reply.error);
        } else if r.reply.ended {
          RetirePart(r, b);
          break;
        } else {
          var failed := AwaitPart(r, b);
          if failed { return Raised(None); }
        }
      }
      return Bytes(result);
    }

    /** What a read keeps while it goes on: its response's books, and the connection unless that is shadowed. */
    ghost predicate Going(r: Response, b: Begin)
      reads this, issued, r
    {
      && (!b.shadowed ==> Valid(State()) && !Shadowed(State(), r))
      && Balanced(r.reply, r.books) && Fed(lib, r.stream, b.feed, FeedOf(r))
      && r.books.abandoned == b.books.abandoned
      && link.next == b.link.next && (link.open ==> b.link.open)
      && (b.link.open && !link.open ==> EndsWhole(r.reply))
    }

    /** A shadowed response is ended, and takes from its buffer once at most. */
    ghost predicate MayTake(r: Response, shadowed: bool, full: bool)
      reads this, issued, r
    {
      shadowed ==> r.reply.ended && (Valid(State()) || r.reply.buffer == [] || full)
    }

    method TakePart(r: Response, count: nat, ghost b: Begin) returns (part: Option<seq<byte>>)
      requires r in issued && Going(r, b) && MayTake(r, b.shadowed, false) && 0 < count <= |r.reply.buffer|
      modifies this`credit, this`responses, r
      ensures r.reply == old(r.reply).(buffer := old(r.reply.buffer)[count..])
      ensures (part.Some? <==> Knows(link, r.stream)) && (part.None? ==> !Knows(b.link, r.stream))
      ensures part.Some? ==> part.value == old(r.reply.buffer)[..count] && r.books.taken == old(r.books.taken) + part.value
      ensures FeedOf(r) == old(FeedOf(r)) && Going(r, b)
    {
      hide Valid, Shadowed, Entries, Balanced, Fed, EndsWhole;
      EndsWholeAnyway(r.reply);
      part := TakeSome(r, count, b.shadowed);
    }

    /** As much from the buffer as a read of `amount` bytes that has `result` still wants. */
    method TakeRoom(r: Response, amount: Option<nat>, ghost b: Begin, result: seq<byte>) returns (part: Option<seq<byte>>)
      requires r in issued && Going(r, b) && MayTake(r, b.shadowed, false) && r.reply.buffer != []
      requires amount.Some? ==> |result| < amount.value
      modifies this`credit, this`responses, r
      ensures |r.reply.buffer| == (if amount.None? then 0 else Max(|old(r.reply.buffer)| - (amount.value - |result|), 0)) < |old(r.reply.buffer)|
      ensures (part.Some? <==> Knows(link, r.stream)) && (part.None? ==> !Knows(b.link, r.stream))
      ensures FeedOf(r) == old(FeedOf(r)) && Going(r, b)
      ensures part.Some? ==>
                && r.books.taken == old(r.books.taken) + part.value
                && (amount.Some? ==> |result + part.value| <= amount.value)
                && ((amount.None? || |result + part.value| < amount.value) ==> MayTake(r, b.shadowed, false))
    {
      hide Valid, Shadowed, Entries, Balanced, Fed, Knows, Going;
      var room := if amount.None? then |r.reply.buffer| else amount.value - |result|;
      part := TakePart(r, Min(room, |r.reply.buffer|), b);
    }

    method AwaitPart(r: Response, ghost b: Begin) returns (failed: bool)
      requires r in issued && Going(r, b) && MayTake(r, b.shadowed, false) && !r.reply.ended
      requires Unbroken(lib, b.feed, FeedOf(r))
      modifies this`link, this`incoming, this`history, this`draining, this`credit, this`socket, issued
      ensures Going(r, b) && MayTake(r, b.shadowed, false) && r.books.taken == old(r.books.taken)
      ensures failed <==> !Unbroken(lib, b.feed, FeedOf(r))
      ensures |socket| < |old(socket)| || (|socket| == |old(socket)| && old(link.open) && !link.open)
    {
      hide Valid, Shadowed, Entries, Balanced, Fed, EndsWhole;
      ghost var now := FeedOf(r);
      failed := Await(r);
      FedTwice(lib, r.stream, b.feed, now, FeedOf(r));
    }

    method RetirePart(r: Response, ghost b: Begin)
      requires r in issued && Going(r, b) && r.reply.ended
      modifies this`responses
      ensures Going(r, b)
    {
      hide Valid, Shadowed, Entries, Balanced, Fed, EndsWhole;
      Retire(r);
    }

    lemma ReadStarts(r: Response, b: Begin)
      requires Valid(State()) && r in issued && b == Begin(Shadowed(State(), r), FeedOf(r), r.books, link)
      ensures Going(r, b) && MayTake(r, b.shadowed, false) && Balanced(r.reply, r.books)
    {
      hide Valid, Shadowed, Entries, Balanced, Fed;
      EntriesAre();
      EntryIsConsistent(State(), r);
      FedHere(lib, r.stream, b.feed);
      if b.shadowed { ShadowedIsEnded(State(), r); }
    }

    /** Where a line ends in the buffer, or the buffer's end. */
    method LineEnd(buffer: seq<byte>) returns (n: nat)
      requires buffer != []
      ensures 0 < n <= |buffer|
      ensures NoNewlineBefore(buffer, n - 1)
      ensures n < |buffer| ==> buffer[n - 1] == NEWLINE
    {
      n := 0;
      while n < |buffer| && buffer[n] != NEWLINE
        invariant 0 <= n <= |buffer|
        invariant forall i :: 0 <= i < n ==> buffer[i] != NEWLINE
      {
        n := n + 1;
      }
      if n < |buffer| { n := n + 1; }
    }

    /** The next bytes of a line from the buffer, `room` of them at most. */
    method TakeLine(r: Response, room: nat, ghost b: Begin) returns (part: Option<seq<byte>>)
      requires r in issued && Going(r, b) && MayTake(r, b.shadowed, false) && r.reply.buffer != [] && 0 < room
      modifies this`credit, this`responses, r
      ensures |r.reply.buffer| < |old(r.reply.buffer)|
      ensures (part.Some? <==> Knows(link, r.stream)) && (part.None? ==> !Knows(b.link, r.stream))
      ensures FeedOf(r) == old(FeedOf(r)) && Going(r, b)
      ensures part.Some? ==>
                && r.books.taken == old(r.books.taken) + part.value
                && 0 < |part.value| <= room && NoNewlineBefore(part.value, |part.value| - 1)
                && (part.value[|part.value| - 1] == NEWLINE || |part.value| == room < |old(r.reply.buffer)| || MayTake(r, b.shadowed, false))
    {
      hide Valid, Shadowed, Entries, Balanced, Fed, Going;
      var count := LineEnd(r.reply.buffer);
      if room < count { count := room; }
      part := TakePart(r, count, b);
    }

    /** Response.readline: up to and with a newline, a limit or the end, whichever comes first. */
    method Readline(r: Response, limit: int) returns (outcome: Outcome)
      requires Valid(State()) && r in issued
      modifies this, issued
      ensures issued == old(issued) && (!old(Shadowed(State(), r)) ==> Valid(State()) && !Shadowed(State(), r))
      ensures Balanced(r.reply, r.books) && Fed(lib, r.stream, old(FeedOf(r)), FeedOf(r))
      ensures r.books.abandoned == old(r.books.abandoned)
      ensures link.next == old(link.next) && (link.open ==> old(link.open))
      ensures outcome == Raised(None) ==> !Knows(old(link), r.stream) || !Unbroken(lib, old(FeedOf(r)), FeedOf(r))
      ensures outcome != Raised(None) ==> Unbroken(lib, old(FeedOf(r)), FeedOf(r))
      ensures outcome.Bytes? ==> r.books.taken == old(r.books.taken) + outcome.bytes
      ensures outcome.Bytes? ==> NoNewlineBefore(outcome.bytes, |outcome.bytes| - 1)
      ensures outcome.Bytes? && limit >= 0 ==> |outcome.bytes| <= limit
      ensures outcome.Bytes? ==>
                || (outcome.bytes != [] && outcome.bytes[|outcome.bytes| - 1] == '\n' as int)
                || (limit >= 0 && |outcome.bytes| == limit)
                || (r.reply.ended && r.reply.buffer == [] && r.reply.error.None?
                    && (old(link.open) && !link.open ==> r.reply.length.None? || r.reply.length == Some(r.reply.received)))
      ensures outcome.Raised? && outcome.error.Some? ==> r.reply.error == outcome.error && r.reply.buffer == []
    {
      hide Valid, Shadowed, Entries, Balanced, Snapshot, Fed, Unbroken, Knows, NoNewlineBefore;
      ghost var b := Begin(Shadowed(State(), r), FeedOf(r), r.books, link);
      ReadStarts(r, b);
      FedHere(lib, r.stream, b.feed);
      outcome := ReadlineOn(r, limit, b);
    }

    /** The loop of a readline that began at `b`. */
    method ReadlineOn(r: Response, limit: int, ghost b: Begin) returns (outcome: Outcome)
      requires r in issued && Going(r, b) && MayTake(r, b.shadowed, false) && b.books == r.books && b.link == link
      requires |socket| <= |b.feed.socket| && Unbroken(lib, b.feed, FeedOf(r))
      modifies this, issued
      ensures issued == old(issued) && Going(r, b)
      ensures outcome == Raised(None) ==> !Knows(b.link, r.stream) || !Unbroken(lib, b.feed, FeedOf(r))
      ensures outcome != Raised(None) ==> Unbroken(lib, b.feed, FeedOf(r))
      ensures outcome.Bytes? ==> r.books.taken == b.books.taken + outcome.bytes
      ensures outcome.Bytes? ==> NoNewlineBefore(outcome.bytes, |outcome.bytes| - 1)
      ensures outcome.Bytes? && limit >= 0 ==> |outcome.bytes| <= limit
      ensures outcome.Bytes? ==>
                || (outcome.bytes != [] && outcome.bytes[|outcome.bytes| - 1] == '\n' as int)
                || (limit >= 0 && |outcome.bytes| == limit)
                || (r.reply.ended && r.reply.buffer == [] && r.reply.error.None?)
      ensures outcome.Raised? && outcome.error.Some? ==> r.reply.error == outcome.error && r.reply.buffer == []
    {
      hide Valid, Shadowed, Entries, Balanced, Snapshot, Fed, Unbroken, Knows, Going, MayTake, NoNewlineBefore;
      var result := [];
      LineStarts();
      while limit < 0 || |result| < limit
        invariant issued == old(issued) && Going(r, b) && |socket| <= |b.feed.socket| && Unbroken(lib, b.feed, FeedOf(r))
        invariant (limit < 0 || |result| < limit) ==> MayTake(r, b.shadowed, false)
        invariant r.books.taken == b.books.taken + result
        invariant NoNewlineBefore(result, |result|) && (limit >= 0 ==> |result| <= limit)
        decreases |socket|, if link.open then 1 else 0, |r.reply.buffer|
      {
        if r.reply.buffer != [] {
          var room := if limit < 0 then |r.reply.buffer| else limit - |result|;
          var part := TakeLine(r, room, b);
          if part.None? { return Raised(None); }
          LineGrows(result, part.value);
          result := result + part.value;
          if result[|result| - 1] == NEWLINE { return Bytes(result); }
        } else if r.reply.error.Some? {
          return Raised(r.reply.error);
        } else if r.reply.ended {
          break;
        } else {
          var failed := AwaitPart(r, b);
          if failed { return Raised(None); }
        }
      }
      LineIsWhole(result);
      return Bytes(result);
    }

    /** Any reads one after another, until one raises. */
    method ReadMix(r: Response, wants: seq<Want>) returns (bytes: seq<byte>, raised: bool)
      requires Valid(State()) && r in issued && !Shadowed(State(), r)
      modifies this, issued
      ensures issued == old(issued) && Valid(State()) && !Shadowed(State(), r)
      ensures Balanced(r.reply, r.books) && Fed(lib, r.stream, old(FeedOf(r)), FeedOf(r))
      ensures r.books.abandoned == old(r.books.abandoned)
      ensures !raised ==> r.books.taken == old(r.books.taken) + bytes && Unbroken(lib, old(FeedOf(r)), FeedOf(r))
      ensures raised ==> !Knows(old(link), r.stream) || !Unbroken(lib, old(FeedOf(r)), FeedOf(r)) || r.reply.error.Some?
    {
      hide Valid, Shadowed, Entries, Balanced, Fed, Unbroken, Snapshot;
      ghost var feed, at := FeedOf(r), link;
      FedHere(lib, r.stream, feed);
      BooksStay(State(), r);
      EntriesAre();
      bytes, raised := [], false;
      var i := 0;
      while i < |wants| && !raised
        invariant issued == old(issued) && Valid(State()) && !Shadowed(State(), r)
        invariant Balanced(r.reply, r.books) && Fed(lib, r.stream, feed, FeedOf(r)) && r.books.abandoned == old(r.books.abandoned)
        invariant link.next == at.next && (link.open ==> at.open) && |socket| <= |feed.socket|
        invariant !raised ==> r.books.taken == old(r.books.taken) + bytes && Unbroken(lib, feed, FeedOf(r))
        invariant raised ==> !Knows(at, r.stream) || !Unbroken(lib, feed, FeedOf(r)) || r.reply.error.Some?
      {
        ghost var now := FeedOf(r);
        var outcome := ReadOne(r, wants[i]);
        FedTwice(lib, r.stream, feed, now, FeedOf(r));
        if outcome.Raised? { raised := true; } else { bytes := bytes + outcome.bytes; }
        i := i + 1;
      }
    }

    method ReadOne(r: Response, want: Want) returns (outcome: Outcome)
      requires Valid(State()) && r in issued && !Shadowed(State(), r)
      modifies this, issued
      ensures issued == old(issued) && Valid(State()) && !Shadowed(State(), r)
      ensures Balanced(r.reply, r.books) && Fed(lib, r.stream, old(FeedOf(r)), FeedOf(r))
      ensures r.books.abandoned == old(r.books.abandoned)
      ensures link.next == old(link.next) && (link.open ==> old(link.open))
      ensures outcome.Bytes? ==> r.books.taken == old(r.books.taken) + outcome.bytes && Unbroken(lib, old(FeedOf(r)), FeedOf(r))
      ensures outcome.Raised? ==> !Knows(old(link), r.stream) || !Unbroken(lib, old(FeedOf(r)), FeedOf(r)) || r.reply.error.Some?
    {
      hide Valid, Shadowed, Entries, Balanced, Fed, Unbroken, Snapshot;
      match want
      case Amount(amount) => outcome := Read(r, amount);
      case Line(limit) => outcome := Readline(r, limit);
    }

    /** Response.close. What is buffered is dropped, and never credited. */
    method Abandon(r: Response)
      requires Valid(State()) && r in issued
      modifies this`responses, r
      ensures State() == AbandonStep(old(State()), r)
      ensures Valid(State()) <==> !old(r.stream in responses && responses[r.stream] != r && !responses[r.stream].reply.ended)
    {
      hide Valid, Entries, Consistent;
      ghost var was := State();
      ValidRegisters(was);
      EntriesAre();
      AbandonKeepsUnlessRegistered(was, r);
      r.reply := r.reply.(ended := true, buffer := []);
      r.books := r.books.(abandoned := true);
      EntryNoted(was.entries, r);
      responses := responses - {r.stream};
    }

    /** connect: nothing on an open connection, and as far as it gets on a closed one. */
    method Connect(reach: Reach) returns (ok: bool)
      requires Valid(State())
      modifies this`link, this`incoming, this`history, this`draining, this`credit, this`responses, issued
      ensures Valid(State()) && State() == Attempt(old(State()), reach)
      ensures ok <==> old(link.open) || reach.Reached?
      ensures ok ==> link.open && responses == old(responses)
      ensures !ok && reach.Unreachable? ==> responses == old(responses) && forall q :: q in issued ==> q.reply == old(q.reply)
      ensures !ok && !reach.Unreachable? ==> responses == map[]
      ensures if !old(link.open) && (reach.Reached? || reach.Unsent?) then history == [] && incoming == [] && !draining
              else history == old(history) && incoming == old(incoming) && draining == old(draining)
    {
      hide Valid, Entries;
      if link.open { return true; }
      if reach.Unreachable? { return false; }
      if !reach.Refused? {
        ConnectKeeps(State());
        link, incoming, history, draining, credit := Link(true, link.generation + 1, 1), [], [], false, map[];
        if reach.Reached? { return true; }
      }
      Disconnect();
      return false;
    }

    /** Connection.close. */
    method Disconnect()
      requires Valid(State())
      modifies this`link, this`responses, issued
      ensures Valid(State()) && State() == DisconnectStep(old(State()))
    {
      hide Valid, Entries, Consistent;
      ghost var was := State();
      EntriesAre();
      ValidRegisters(was);
      DisconnectKeeps(was);
      forall s | s in responses { responses[s].reply := responses[s].reply.(ended := true); }
      EntriesBecome(DisconnectStep(was).entries);
      link, responses := link.(open := false), map[];
    }

    /**
     The opening of request: a draining connection is replaced once its responses are done, and the
     new response is registered for h2's next stream.
     */
    method Request(reach: Reach) returns (r: Option<Response>)
      requires Valid(State())
      modifies this, issued
      ensures Valid(State())
      ensures var busy, tried := old(draining) && old(responses) != map[], Attempt(Renewed(old(State()), old(draining)), reach);
              && (r.Some? <==> !busy && tried.link.open)
              && State() == if busy then old(State()) else if r.None? then tried else IssueStep(tried, r.value)
      ensures r.Some? ==> fresh(r.value) && issued == old(issued) + {r.value} && r.value.reply == FRESH
      ensures r.Some? ==> link.open && r.value.generation == link.generation && Listed(responses, r.value) && link.next == r.value.stream + 2
      ensures r.Some? && (!old(link.open) || old(draining)) ==> history == [] && incoming == [] && !draining
    {
      hide Valid, Entries, Consistent;
      if draining {
        if responses != map[] { return None; }
        Disconnect();
      }
      var ok := Connect(reach);
      if !ok { return None; }
      var response := Issue();
      return Some(response);
    }

    method Issue() returns (response: Response)
      requires Valid(State()) && link.open
      modifies this`responses, this`link, this`issued
      ensures Valid(State()) && fresh(response) && State() == IssueStep(old(State()), response)
      ensures response.stream == old(link.next) && response.generation == link.generation && response.reply == FRESH
      ensures issued == old(issued) + {response}
    {
      hide Valid, Entries;
      ghost var was := State();
      EntriesAre();
      response := new Response(link.next, link.generation);
      IssueKeeps(was, response);
      responses := responses[link.next := response];
      link := link.(next := link.next + 2);
      issued := issued + {response};
      EntriesBecome(IssueStep(was, response).entries);
    }

    /**
     The rest of request, from `start` bytes into the body: pieces no longer than the frame limit and
     the window, which depends on what was received and sent so far. A closed window waits for the peer;
     h2 raises exactly for a negative one, and `gone` says when it finds the stream closed. Whatever
     stops it, what was sent continues the body; `seen` is what had been received before each piece.
     */
    method Upload(r: Response, body: seq<byte>, start: nat, window: (seq<Packet>, nat) -> int, gone: (seq<Packet>, nat) -> bool)
      returns (sent: seq<seq<byte>>, end: UploadEnd, ghost seen: seq<seq<Packet>>)
      requires Valid(State()) && r in issued && !Shadowed(State(), r) && start <= |body|
      modifies this`link, this`incoming, this`history, this`draining, this`credit, this`socket, issued
      ensures Valid(State())
      ensures Joined(sent) <= body[start..] && (end.Complete? <==> Joined(sent) == body[start..])
      ensures |seen| == |sent| && forall i :: 0 <= i < |sent| ==> PieceFits(sent, seen[i], i, start, window)
      ensures Fed(lib, r.stream, old(FeedOf(r)), FeedOf(r)) && (end.ReceiveFailed? <==> !Unbroken(lib, old(FeedOf(r)), FeedOf(r)))
      ensures end.ResponseEnded? ==> r.reply.ended
      ensures end.StreamGone? ==> gone(history, start + |Joined(sent)|)
      ensures end.WindowNegative? <==>
                && Unbroken(lib, old(FeedOf(r)), FeedOf(r)) && !r.reply.ended && Joined(sent) != body[start..] && window(history, start + |Joined(sent)|) < 0
      ensures start < |body| && !old(r.reply.ended) && window(old(history), start) < 0 ==> end.WindowNegative? && sent == []
    {
      hide Valid, Shadowed, Entries, Balanced, Snapshot, Joined, PieceFits, Fed, Unbroken;
      ghost var feed := FeedOf(r);
      FedHere(lib, r.stream, feed);
      var offset := start;
      sent, seen := [], [];
      JoinedNone(body, start);
      while offset < |body| && !r.reply.ended
        invariant start <= offset <= |body| && Joined(sent) == body[start..offset]
        invariant Valid(State()) && !Shadowed(State(), r)
        invariant |seen| == |sent| && forall i :: 0 <= i < |sent| ==> PieceFits(sent, seen[i], i, start, window)
        invariant Fed(lib, r.stream, feed, FeedOf(r)) && Unbroken(lib, feed, FeedOf(r))
        invariant start < |body| && !old(r.reply.ended) && window(old(history), start) < 0 ==>
                    !r.reply.ended && history == old(history) && sent == [] && offset == start
        decreases |socket|, if link.open then 1 else 0, |body| - offset
      {
        var count := window(history, offset);
        if LIMIT < count { count := LIMIT; }
        if |body| - offset < count { count := |body| - offset; }
        if count == 0 {
          ghost var now := FeedOf(r);
          var failed := Await(r);
          FedTwice(lib, r.stream, feed, now, FeedOf(r));
          if failed { return sent, ReceiveFailed, seen; }
          continue;
        }
        if count < 0 { return sent, WindowNegative, seen; }
        if gone(history, offset) { return sent, StreamGone, seen; }
        JoinedNext(sent, body, start, offset, offset + count);
        PiecesFit(sent, seen, body[offset..offset + count], history, start, window);
        sent, seen, offset := sent + [body[offset..offset + count]], seen + [history], offset + count;
      }
      assert body[start..][..offset - start] == body[start..offset];
      end := if offset < |body| then ResponseEnded else Complete;
    }
  }

  /** The window of a stream with an initial one of 65535, or of 1000 once a SETTINGS frame has said so. */
  function ShrinkingWindow(history: seq<Packet>, sent: nat): int {
    (if SETTINGS in history then 1000 else 65535) - sent
  }

  /** SETTINGS_INITIAL_WINDOW_SIZE of 1000. */
  const SETTINGS: Packet := [0, 0, 6, 4, 0, 0, 0, 0, 0, 0, 4, 0, 0, 3, 232]

  function NeverGone(history: seq<Packet>, sent: nat): bool { false }

  /**
   An upload on an open, unfinished stream of which 60000 bytes are sent when that frame comes: the
   window was 5535 and is now negative, and the request fails instead of waiting for it to grow.
   */
  method UploadMeetsSettings(c: Connection, r: Response, body: seq<byte>) returns (end: UploadEnd)
    requires Valid(c.State()) && r in c.issued && !Shadowed(c.State(), r) && !r.reply.ended
    requires |body| == 60010 && c.history == [SETTINGS]
    modifies c, c.issued
    ensures ShrinkingWindow([], 60000) == 5535 && ShrinkingWindow([SETTINGS], 60000) == -59000
    ensures end.WindowNegative?
  {
    hide Valid, Shadowed;
    ghost var seen;
    var sent;
    sent, end, seen := c.Upload(r, body, 60000, ShrinkingWindow, NeverGone);
  }

  /**
   A response left unread when its connection ended, read after connecting again: h2 has yet to open
   its stream and raises after the bytes have left the buffer, so that nobody gets them.
   */
  method StaleReadLosesBytes(c: Connection, r: Response) returns (outcome: Outcome)
    requires Valid(c.State()) && r in c.issued && !c.link.open && r.reply.buffer != [] && 1 <= r.stream
    modifies c, c.issued
    ensures outcome == Raised(None) && r.reply.buffer == []
  {
    hide Valid, Shadowed;
    var ok := c.Connect(Reached);
    outcome := c.Read(r, None);
  }
}
