/**
 What tools/http2.py makes of received bytes, lines 130-186, as functions: frames (section 4.1 of
 RFC 9113), the events h2 reports for them, and their effect on the open responses.
 */
module Http2Frames {
  import opened Common

  type Packet = seq<byte>

  const LIMIT: nat := 16384        // h2's max_inbound_frame_size
  const GO_AWAY: byte := 7

  // ---------------------------------------------------------------- events

  datatype Error = Refused | ResetBy(code: nat) | Incomplete

  datatype Event =
    | Headers(stream: nat, status: nat, length: Option<nat>)
    | Data(stream: nat, data: seq<byte>, padding: nat)
    | Ended(stream: nat)
    | Reset(stream: nat, code: nat)
    | Other(stream: nat)

  /** The fields of a response that receiving changes. */
  datatype Reply = Reply(status: Option<nat>, length: Option<nat>, buffer: seq<byte>, ended: bool, error: Option<Error>, received: nat)

  const FRESH := Reply(None, None, [], false, None, 0)

  type Replies = map<nat, Reply>

  function Applied(r: Reply, e: Event): Reply {
    match e
    case Headers(_, status, length) => r.(status := Some(status), length := length)
    case Data(_, data, _) => r.(buffer := r.buffer + data, received := r.received + |data|)
    case Ended(_) => r.(ended := true)
    case Reset(_, code) => r.(ended := true, error := if code != 0 then Some(ResetBy(code)) else r.error)
    case Other(_) => r
  }

  function Apply(rs: Replies, e: Event): (after: Replies)
    ensures after.Keys == rs.Keys
  {
    if e.stream in rs then rs[e.stream := Applied(rs[e.stream], e)] else rs
  }

  function Dispatch(rs: Replies, es: seq<Event>): (after: Replies)
    ensures after.Keys == rs.Keys
  {
    if es == [] then rs else Dispatch(Apply(rs, es[0]), es[1..])
  }

  /** What being refused does to a response. */
  function Turned(r: Reply, turned: bool): Reply {
    if turned then r.(error := Some(Refused), ended := true) else r
  }

  /** A GOAWAY without an error refuses the streams above the last one accepted. */
  function Refuse(rs: Replies, last: nat): (after: Replies)
    ensures after.Keys == rs.Keys
  {
    map s | s in rs :: Turned(rs[s], s > last)
  }

  /** The end of the byte stream ends every response, and fails those short of their length. */
  function Finish(rs: Replies): (after: Replies)
    ensures after.Keys == rs.Keys
  {
    map s | s in rs ::
      rs[s].(ended := true,
             error := if rs[s].length.Some? && rs[s].received != rs[s].length.value then Some(Incomplete) else rs[s].error)
  }

  // ---------------------------------------------------------------- frames

  datatype Reaction = Fails | Events(events: seq<Event>)

  /**
   The libraries: whether hyperframe refuses a frame's first nine bytes, how h2 reacts to a frame
   after all the frames it has had, and what a GOAWAY frame says, its last stream and error code.
   */
  datatype Library = Library(refuses: Packet -> bool, react: (seq<Packet>, Packet) -> Reaction, goAway: Packet -> Option<(nat, nat)>)

  function Length(header: seq<byte>): nat
    requires |header| >= 3
  {
    (header[0] as int) * 65536 + (header[1] as int) * 256 + header[2] as int
  }

  predicate IsGoAway(packet: Packet) { |packet| >= 9 && packet[3] == GO_AWAY }

  /** What one frame leads to, in order. */
  datatype Item = Note(event: Event) | Refusal(last: nat)

  /** Frames taken off a buffer: all of them, those handed to h2, what is left, and whether one failed. */
  datatype Parse = Parse(frames: seq<Packet>, history: seq<Packet>, rest: seq<byte>, items: seq<Item>, failed: bool)

  datatype Step = Wait | Bad | Took(packet: Packet)

  function NextFrame(lib: Library, bytes: seq<byte>): (step: Step)
    ensures step.Took? ==> 9 <= |step.packet| <= |bytes| && step.packet == bytes[..|step.packet|]
                           && |step.packet| == 9 + Length(bytes)
    ensures step.Wait? ==> |bytes| < 9 || |bytes| < 9 + Length(bytes) <= 9 + LIMIT
  {
    if |bytes| < 9 then Wait
    else if lib.refuses(bytes[..9]) || Length(bytes) > LIMIT then Bad
    else if |bytes| < 9 + Length(bytes) then Wait
    else Took(bytes[..9 + Length(bytes)])
  }

  /** What a whole frame does: the items it leads to, or nothing if it fails. */
  function Effect(lib: Library, history: seq<Packet>, packet: Packet): Option<seq<Item>> {
    if IsGoAway(packet) then
      var said := lib.goAway(packet);
      if said.None? || said.value.1 != 0 then None else Some([Refusal(said.value.0)])
    else
      var reaction := lib.react(history, packet);
      if reaction.Fails? then None else Some(Notes(reaction.events))
  }

  function Notes(es: seq<Event>): (items: seq<Item>)
    ensures |items| == |es| && forall i :: 0 <= i < |es| ==> items[i] == Note(es[i])
  {
    seq(|es|, i requires 0 <= i < |es| => Note(es[i]))
  }

  function Handed(history: seq<Packet>, packet: Packet): seq<Packet> {
    if IsGoAway(packet) then history else history + [packet]
  }

  function Collect(lib: Library, history: seq<Packet>, bytes: seq<byte>): Parse
    decreases |bytes|
  {
    var step := NextFrame(lib, bytes);
    if step.Wait? then Parse([], history, bytes, [], false)
    else if step.Bad? then Parse([], history, bytes, [], true)
    else
      var rest := bytes[|step.packet|..];
      var effect := Effect(lib, history, step.packet);
      if effect.None? then Parse([step.packet], Handed(history, step.packet), rest, [], true)
      else
        var p := Collect(lib, Handed(history, step.packet), rest);
        p.(frames := [step.packet] + p.frames, items := effect.value + p.items)
  }

  function Joined(packets: seq<Packet>): seq<byte> {
    if packets == [] then [] else packets[0] + Joined(packets[1..])
  }

  predicate Whole(f: Packet) { |f| >= 9 && |f| == 9 + Length(f) }

  predicate Partial(rest: seq<byte>) { |rest| < 9 || |rest| < 9 + Length(rest) <= 9 + LIMIT }

  predicate Divides(p: Parse, bytes: seq<byte>) {
    && Joined(p.frames) + p.rest == bytes
    && (forall i :: 0 <= i < |p.frames| ==> Whole(p.frames[i]))
    && (!p.failed ==> Partial(p.rest))
  }

  lemma DividesMore(p: Parse, bytes: seq<byte>, first: Packet)
    requires Divides(p, bytes) && Whole(first)
    ensures Divides(p.(frames := [first] + p.frames), first + bytes)
  {
    hide Whole, Partial;
    JoinedWithFirst(first, p.frames);
    assert (first + Joined(p.frames)) + p.rest == first + (Joined(p.frames) + p.rest);
  }

  /** No byte is lost or made up, every frame is whole, and what waits is shorter than a frame. */
  lemma {:induction false} FramesAreWhole(lib: Library, history: seq<Packet>, bytes: seq<byte>)
    ensures Divides(Collect(lib, history, bytes), bytes)
    decreases |bytes|
  {
    hide Effect, Whole, Divides, Partial, Length, NextFrame, Joined;
    NextFrameIsWhole(lib, bytes);
    var step := NextFrame(lib, bytes);
    if step.Took? {
      var rest := bytes[|step.packet|..];
      var handed := Handed(history, step.packet);
      var q := if Effect(lib, history, step.packet).None? then Parse([], handed, rest, [], true) else Collect(lib, handed, rest);
      if Effect(lib, history, step.packet).None? {
        NothingDivides(q, rest);
        DividesMore(q, rest, step.packet);
        assert [step.packet] + [] == [step.packet];
      } else {
        FramesAreWhole(lib, handed, rest);
        DividesMore(q, rest, step.packet);
        DividesLikewise(q.(frames := [step.packet] + q.frames), Collect(lib, history, bytes), bytes);
      }
    } else {
      NothingDivides(Collect(lib, history, bytes), bytes);
    }
  }

  lemma NothingDivides(p: Parse, bytes: seq<byte>)
    requires p.frames == [] && p.rest == bytes && (p.failed || Partial(bytes))
    ensures Divides(p, bytes)
  {
  }

  lemma DividesLikewise(p: Parse, q: Parse, bytes: seq<byte>)
    requires Divides(p, bytes) && q.frames == p.frames && q.rest == p.rest && q.failed == p.failed
    ensures Divides(q, bytes)
  {
  }

  lemma NextFrameIsWhole(lib: Library, bytes: seq<byte>)
    ensures var step := NextFrame(lib, bytes);
            && (step.Took? ==> Whole(step.packet) && |step.packet| <= |bytes| && bytes == step.packet + bytes[|step.packet|..])
            && (step.Wait? ==> Partial(bytes))
  {
    var step := NextFrame(lib, bytes);
    if step.Took? { LengthOfHeader(bytes, |step.packet|); }
  }

  lemma JoinedWithFirst(first: Packet, rest: seq<Packet>)
    ensures Joined([first] + rest) == first + Joined(rest)
  {
    assert ([first] + rest)[1..] == rest;
  }

  lemma LengthOfHeader(bytes: seq<byte>, n: nat)
    requires 9 <= n <= |bytes|
    ensures Length(bytes[..n]) == Length(bytes)
    ensures bytes == bytes[..n] + bytes[n..]
  {
  }

  /** Collecting from two chunks, one after the other. */
  function Then(lib: Library, p: Parse, more: seq<byte>): Parse {
    if p.failed then p.(rest := p.rest + more)
    else
      var q := Collect(lib, p.history, p.rest + more);
      q.(frames := p.frames + q.frames, items := p.items + q.items)
  }

  lemma NextFrameOfMore(lib: Library, a: seq<byte>, b: seq<byte>)
    ensures !NextFrame(lib, a).Wait? ==> NextFrame(lib, a + b) == NextFrame(lib, a)
  {
    if |a| >= 9 {
      assert (a + b)[..9] == a[..9];
      if |a| >= 9 + Length(a) { assert (a + b)[..9 + Length(a)] == a[..9 + Length(a)]; }
    }
  }

  lemma JoinParses(packet: Packet, effect: seq<Item>, p: Parse, q: Parse)
    ensures [packet] + (p.frames + q.frames) == ([packet] + p.frames) + q.frames
    ensures effect + (p.items + q.items) == (effect + p.items) + q.items
    ensures [] + q.frames == q.frames && [] + q.items == q.items
  {
  }

  lemma RestOfMore(a: seq<byte>, b: seq<byte>, n: nat)
    requires n <= |a|
    ensures (a + b)[n..] == a[n..] + b
  {
  }

  /** Where a chunk ends does not matter to the frames, their effects or the failure they come to. */
  lemma {:induction false} CollectInTwo(lib: Library, history: seq<Packet>, a: seq<byte>, b: seq<byte>)
    ensures Collect(lib, history, a + b) == Then(lib, Collect(lib, history, a), b)
    decreases |a|
  {
    hide Effect, NextFrame, Handed;
    var step := NextFrame(lib, a);
    NextFrameOfMore(lib, a, b);
    if step.Took? {
      var rest := a[|step.packet|..];
      RestOfMore(a, b, |step.packet|);
      var effect := Effect(lib, history, step.packet);
      if effect.Some? {
        CollectInTwo(lib, Handed(history, step.packet), rest, b);
        var p := Collect(lib, Handed(history, step.packet), rest);
        JoinParses(step.packet, effect.value, p, Collect(lib, p.history, p.rest + b));
      }
    } else if step.Wait? {
      JoinParses([], [], Collect(lib, history, a), Collect(lib, history, a + b));
    }
  }

  // ---------------------------------------------------------------- receiving

  /** Refusals take effect while frames are collected, events only after the last of them. */
  function Refusals(rs: Replies, items: seq<Item>): (after: Replies)
    ensures after.Keys == rs.Keys
  {
    if items == [] then rs
    else if items[0].Refusal? then Refusals(Refuse(rs, items[0].last), items[1..])
    else Refusals(rs, items[1..])
  }

  function EventsOf(items: seq<Item>): seq<Event> {
    if items == [] then []
    else if items[0].Note? then [items[0].event] + EventsOf(items[1..])
    else EventsOf(items[1..])
  }

  /** A connection's receiving side. */
  datatype Inbound = Inbound(history: seq<Packet>, rest: seq<byte>, replies: Replies, draining: bool, failed: bool)

  predicate Draining(items: seq<Item>) { exists i :: 0 <= i < |items| && items[i].Refusal? }

  /** One call of _receive with data; a failure keeps the refusals and drops the events. */
  function Receive(lib: Library, c: Inbound, data: seq<byte>): Inbound {
    var p := Collect(lib, c.history, c.rest + data);
    var refused := Refusals(c.replies, p.items);
    Inbound(p.history, p.rest, if p.failed then refused else Dispatch(refused, EventsOf(p.items)),
            c.draining || Draining(p.items), p.failed)
  }

  /** Calls of _receive until one fails. */
  function ReceiveAll(lib: Library, c: Inbound, chunks: seq<seq<byte>>): Inbound
    decreases |chunks|
  {
    if chunks == [] || c.failed then c else ReceiveAll(lib, Receive(lib, c, chunks[0]), chunks[1..])
  }

  /** The items taken one by one, in the order of their frames. */
  function InOrder(rs: Replies, items: seq<Item>): (after: Replies)
    ensures after.Keys == rs.Keys
  {
    if items == [] then rs
    else InOrder(if items[0].Note? then Apply(rs, items[0].event) else Refuse(rs, items[0].last), items[1..])
  }

  predicate AlikeReplies(a: Reply, b: Reply) {
    && a.status == b.status && a.length == b.length && a.buffer == b.buffer && a.ended == b.ended
    && a.received == b.received && (a.error.Some? <==> b.error.Some?)
  }

  /** Equal but for which of two errors a failed response reports. */
  predicate Alike(a: Replies, b: Replies) {
    a.Keys == b.Keys && forall s :: s in a ==> AlikeReplies(a[s], b[s])
  }

  lemma AlikeOne(a: Reply, b: Reply, e: Event)
    requires AlikeReplies(a, b)
    ensures AlikeReplies(Applied(a, e), Applied(b, e))
  {
  }

  lemma AlikeAfter(a: Replies, b: Replies, e: Event)
    requires Alike(a, b)
    ensures Alike(Apply(a, e), Apply(b, e))
  {
    hide AlikeReplies, Applied;
    if e.stream in a { AlikeOne(a[e.stream], b[e.stream], e); }
  }

  lemma AlikeTurned(a: Reply, b: Reply, turned: bool)
    requires AlikeReplies(a, b)
    ensures AlikeReplies(Turned(a, turned), Turned(b, turned))
  {
  }

  lemma AlikeRefused(a: Replies, b: Replies, last: nat)
    requires Alike(a, b)
    ensures Alike(Refuse(a, last), Refuse(b, last))
  {
    hide AlikeReplies, Turned;
    forall s | s in a ensures AlikeReplies(Refuse(a, last)[s], Refuse(b, last)[s]) {
      AlikeTurned(a[s], b[s], s > last);
    }
  }

  lemma OneCommutes(r: Reply, e: Event, turned: bool)
    ensures AlikeReplies(Applied(Turned(r, turned), e), Turned(Applied(r, e), turned))
    ensures AlikeReplies(r, r)
  {
  }

  lemma RefusalCommutes(rs: Replies, e: Event, last: nat)
    ensures Alike(Apply(Refuse(rs, last), e), Refuse(Apply(rs, e), last))
  {
    hide AlikeReplies, Applied, Turned;
    var a, b := Apply(Refuse(rs, last), e), Refuse(Apply(rs, e), last);
    forall s | s in rs ensures AlikeReplies(a[s], b[s]) {
      OneCommutes(rs[s], e, s > last);
      OneCommutes(Turned(rs[s], s > last), e, false);
    }
  }

  lemma {:induction false} AlikeAfterAll(a: Replies, b: Replies, es: seq<Event>)
    requires Alike(a, b)
    ensures Alike(Dispatch(a, es), Dispatch(b, es))
  {
    hide Alike;
    if es != [] {
      AlikeAfter(a, b, es[0]);
      AlikeAfterAll(Apply(a, es[0]), Apply(b, es[0]), es[1..]);
    }
  }

  lemma {:induction false} AlikeInOrder(a: Replies, b: Replies, items: seq<Item>)
    requires Alike(a, b)
    ensures Alike(InOrder(a, items), InOrder(b, items))
  {
    hide Alike;
    if items != [] {
      if items[0].Note? {
        AlikeAfter(a, b, items[0].event);
        AlikeInOrder(Apply(a, items[0].event), Apply(b, items[0].event), items[1..]);
      } else {
        AlikeRefused(a, b, items[0].last);
        AlikeInOrder(Refuse(a, items[0].last), Refuse(b, items[0].last), items[1..]);
      }
    }
  }

  lemma AlikeIsTransitive(a: Replies, b: Replies, c: Replies)
    requires Alike(a, b) && Alike(b, c)
    ensures Alike(a, c)
  {
  }

  lemma {:induction false} AlikeRefusals(a: Replies, b: Replies, items: seq<Item>)
    requires Alike(a, b)
    ensures Alike(Refusals(a, items), Refusals(b, items))
  {
    hide Alike;
    if items != [] {
      if items[0].Refusal? {
        AlikeRefused(a, b, items[0].last);
        AlikeRefusals(Refuse(a, items[0].last), Refuse(b, items[0].last), items[1..]);
      } else {
        AlikeRefusals(a, b, items[1..]);
      }
    }
  }

  lemma {:induction false} RefusalsCommute(rs: Replies, e: Event, items: seq<Item>)
    ensures Alike(Apply(Refusals(rs, items), e), Refusals(Apply(rs, e), items))
  {
    hide Alike, Apply;
    if items == [] {
      AlikeItself(Apply(rs, e));
    } else if items[0].Refusal? {
      RefusalCommutes(rs, e, items[0].last);
      AlikeRefusals(Apply(Refuse(rs, items[0].last), e), Refuse(Apply(rs, e), items[0].last), items[1..]);
      RefusalsCommute(Refuse(rs, items[0].last), e, items[1..]);
      AlikeIsTransitive(Apply(Refusals(rs, items), e), Refusals(Apply(Refuse(rs, items[0].last), e), items[1..]),
                        Refusals(Apply(rs, e), items));
    } else {
      RefusalsCommute(rs, e, items[1..]);
    }
  }

  lemma AlikeItself(a: Replies)
    ensures Alike(a, a)
  {
  }

  /** Taking refusals first and events last is like taking all in order. */
  lemma {:induction false} BatchIsInOrder(rs: Replies, items: seq<Item>)
    ensures Alike(Dispatch(Refusals(rs, items), EventsOf(items)), InOrder(rs, items))
  {
    hide Alike, Apply;
    if items == [] {
      AlikeItself(rs);
    } else if items[0].Refusal? {
      BatchIsInOrder(Refuse(rs, items[0].last), items[1..]);
    } else {
      var e, rest := items[0].event, items[1..];
      RefusalsCommute(rs, e, rest);
      assert EventsOf(items)[1..] == EventsOf(rest);
      var batch, swapped := Apply(Refusals(rs, rest), e), Refusals(Apply(rs, e), rest);
      AlikeAfterAll(batch, swapped, EventsOf(rest));
      BatchIsInOrder(Apply(rs, e), rest);
      AlikeIsTransitive(Dispatch(batch, EventsOf(rest)), Dispatch(swapped, EventsOf(rest)), InOrder(rs, items));
    }
  }

  lemma {:induction false} InOrderOfBoth(rs: Replies, a: seq<Item>, b: seq<Item>)
    ensures InOrder(rs, a + b) == InOrder(InOrder(rs, a), b)
  {
    if a == [] {
      assert [] + b == b;
    } else {
      assert (a + b)[1..] == a[1..] + b;
      InOrderOfBoth(if a[0].Note? then Apply(rs, a[0].event) else Refuse(rs, a[0].last), a[1..], b);
    }
  }

  /**
   However the bytes of a connection are cut into chunks, the same frames reach h2, the same part of
   a frame is left over, and the open responses come out alike, provided no frame fails.
   */
  lemma {:induction false} ChunkingDoesNotMatter(lib: Library, c: Inbound, rs: Replies, chunks: seq<seq<byte>>)
    requires !c.failed && Alike(c.replies, rs) && Collect(lib, c.history, c.rest) == Parse([], c.history, c.rest, [], false)
    requires !Collect(lib, c.history, c.rest + Joined(chunks)).failed
    ensures var p := Collect(lib, c.history, c.rest + Joined(chunks));
            var d := ReceiveAll(lib, c, chunks);
            && d.history == p.history && d.rest == p.rest && !d.failed
            && d.draining == (c.draining || Draining(p.items))
            && Alike(d.replies, InOrder(rs, p.items))
    decreases |chunks|
  {
    hide Alike, Dispatch, Refusals, EventsOf, Collect;
    if chunks == [] {
      assert c.rest + Joined(chunks) == c.rest;
    } else {
      var first, rest := c.rest + chunks[0], Joined(chunks[1..]);
      assert c.rest + Joined(chunks) == first + rest;
      CollectInTwo(lib, c.history, first, rest);
      var p := Collect(lib, c.history, first);
      var d := Receive(lib, c, chunks[0]);
      NothingWaits(lib, c.history, first);
      var q := Collect(lib, d.history, d.rest + rest);
      InOrderOfBoth(rs, p.items, q.items);
      BatchIsInOrder(c.replies, p.items);
      AlikeInOrder(c.replies, rs, p.items);
      AlikeIsTransitive(d.replies, InOrder(c.replies, p.items), InOrder(rs, p.items));
      ChunkingDoesNotMatter(lib, d, InOrder(rs, p.items), chunks[1..]);
      DrainingOfBoth(p.items, q.items);
    }
  }

  lemma DrainingOfBoth(a: seq<Item>, b: seq<Item>)
    ensures Draining(a + b) <==> Draining(a) || Draining(b)
  {
    if Draining(a) { var i :| 0 <= i < |a| && a[i].Refusal?; assert (a + b)[i].Refusal?; }
    if Draining(b) { var i :| 0 <= i < |b| && b[i].Refusal?; assert (a + b)[|a| + i].Refusal?; }
  }

  /** What collecting leaves over holds no whole frame. */
  lemma {:induction false} NothingWaits(lib: Library, history: seq<Packet>, bytes: seq<byte>)
    requires !Collect(lib, history, bytes).failed
    ensures var p := Collect(lib, history, bytes);
            Collect(lib, p.history, p.rest) == Parse([], p.history, p.rest, [], false)
    decreases |bytes|
  {
    var step := NextFrame(lib, bytes);
    if step.Took? { NothingWaits(lib, Handed(history, step.packet), bytes[|step.packet|..]); }
  }

  /**
   One whole frame, its length in three bytes, highest first. h2 gets every frame but a GOAWAY, type 7,
   and its events reach their responses. A GOAWAY without an error code refuses the responses above its
   last stream and leaves the others as they were; one with an error code, or not to be read, fails.
   */
  lemma OneFrame(lib: Library, c: Inbound, high: byte, middle: byte, low: byte, kind: byte, more: seq<byte>)
    requires high as int * 65536 + middle as int * 256 + low as int == |more| - 5 <= 16384
    requires c.rest == [] && !lib.refuses([high, middle, low, kind] + more[..5])
    ensures var frame := [high, middle, low, kind] + more;
            var d, said := Receive(lib, c, frame), lib.goAway(frame);
            && d.rest == [] && d.replies.Keys == c.replies.Keys
            && if kind == 7 && said.Some? && said.value.1 == 0 then
                 && !d.failed && d.draining && d.history == c.history
                 && forall s :: s in c.replies ==>
                      var was, now := c.replies[s], d.replies[s];
                      if s > said.value.0 then
                        && now.ended && now.error == Some(Refused) && now.status == was.status && now.length == was.length
                        && now.buffer == was.buffer && now.received == was.received
                      else now == was
               else if kind == 7 then
                 d.failed && d.draining == c.draining && d.history == c.history && d.replies == c.replies
               else
                 && d.draining == c.draining && d.history == c.history + [frame]
                 && (d.failed <==> lib.react(c.history, frame).Fails?)
                 && d.replies == if d.failed then c.replies else Dispatch(c.replies, lib.react(c.history, frame).events)
  {
    hide Collect, NextFrame, Refuse, Notes, Refusals, EventsOf, Draining, Dispatch;
    var frame := [high, middle, low, kind] + more;
    assert c.rest + frame == frame && frame[..9] == [high, middle, low, kind] + more[..5];
    WholeFrame(lib, c.history, frame);
    var effect := Effect(lib, c.history, frame);
    if effect.Some? { OneEffect(c.replies, effect.value, lib.react(c.history, frame)); }
    NoEffect(c.replies);
    var said := lib.goAway(frame);
    if kind == 7 && said.Some? && said.value.1 == 0 {
      assert IsGoAway(frame) && effect == Some([Refusal(said.value.0)]);
      var d := Receive(lib, c, frame);
      assert d.replies == Dispatch(Refuse(c.replies, said.value.0), []);
      DispatchNothing(Refuse(c.replies, said.value.0));
      forall s | s in c.replies ensures d.replies[s] == Turned(c.replies[s], s > said.value.0) { RefusesOne(c.replies, said.value.0, s); }
    }
  }

  lemma RefusesOne(rs: Replies, last: nat, s: nat)
    requires s in rs
    ensures Refuse(rs, last)[s] == Turned(rs[s], s > last)
  {
  }

  lemma DispatchNothing(rs: Replies)
    ensures Dispatch(rs, []) == rs
  {
  }

  lemma NoEffect(rs: Replies)
    ensures Refusals(rs, []) == rs && !Draining([])
  {
  }

  lemma WholeFrame(lib: Library, history: seq<Packet>, frame: Packet)
    requires 9 <= |frame| == 9 + Length(frame) && Length(frame) <= LIMIT && !lib.refuses(frame[..9])
    ensures var p, effect := Collect(lib, history, frame), Effect(lib, history, frame);
            p.rest == [] && p.history == Handed(history, frame) && p.failed == effect.None?
            && p.items == if effect.Some? then effect.value else []
  {
    hide Effect, Handed;
    assert frame[..|frame|] == frame && frame[|frame|..] == [];
    assert NextFrame(lib, frame) == Took(frame);
    var effect := Effect(lib, history, frame);
    if effect.Some? {
      assert Collect(lib, Handed(history, frame), []) == Parse([], Handed(history, frame), [], [], false);
      assert effect.value + [] == effect.value;
    }
  }

  lemma OneEffect(rs: Replies, items: seq<Item>, reaction: Reaction)
    ensures |items| == 1 && items[0].Refusal? ==>
              EventsOf(items) == [] && Refusals(rs, items) == Refuse(rs, items[0].last) && Draining(items)
    ensures reaction.Events? && items == Notes(reaction.events) ==>
              EventsOf(items) == reaction.events && Refusals(rs, items) == rs && !Draining(items)
  {
    if |items| == 1 { assert items[1..] == []; }
    if reaction.Events? && items == Notes(reaction.events) { NotesAre(rs, reaction.events); }
  }

  lemma {:induction false} NotesAre(rs: Replies, es: seq<Event>)
    ensures EventsOf(Notes(es)) == es && Refusals(rs, Notes(es)) == rs && !Draining(Notes(es))
  {
    if es != [] {
      assert Notes(es)[1..] == Notes(es[1..]);
      NotesAre(rs, es[1..]);
    }
  }

  // ---------------------------------------------------------------- failures

  /** The payload that events bring to a stream. */
  function PayloadOf(es: seq<Event>, stream: nat): seq<byte> {
    if es == [] then []
    else (if es[0].Data? && es[0].stream == stream then es[0].data else []) + PayloadOf(es[1..], stream)
  }

  lemma {:induction false} DispatchAddsPayload(rs: Replies, es: seq<Event>, s: nat)
    requires s in rs
    ensures Dispatch(rs, es)[s].buffer == rs[s].buffer + PayloadOf(es, s)
    ensures Dispatch(rs, es)[s].received == rs[s].received + |PayloadOf(es, s)|
  {
    if es != [] { DispatchAddsPayload(Apply(rs, es[0]), es[1..], s); }
  }

  /** The status and length of the last headers that events bring to a stream. */
  function HeadersOf(es: seq<Event>, stream: nat): Option<(nat, Option<nat>)> {
    if es == [] then None
    else
      var later := HeadersOf(es[1..], stream);
      if later.Some? then later
      else if es[0].Headers? && es[0].stream == stream then Some((es[0].status, es[0].length)) else None
  }

  /** The error of the last reset with a code that events bring to a stream. */
  function ErrorOf(es: seq<Event>, stream: nat): Option<Error> {
    if es == [] then None
    else
      var later := ErrorOf(es[1..], stream);
      if later.Some? then later
      else if es[0].Reset? && es[0].stream == stream && es[0].code != 0 then Some(ResetBy(es[0].code)) else None
  }

  predicate Ending(es: seq<Event>, stream: nat) {
    exists i :: 0 <= i < |es| && (es[i].Ended? || es[i].Reset?) && es[i].stream == stream
  }

  predicate Failing(es: seq<Event>, stream: nat) {
    exists i :: 0 <= i < |es| && es[i].Reset? && es[i].code != 0 && es[i].stream == stream
  }

  predicate Refuses(items: seq<Item>, stream: nat) {
    exists i :: 0 <= i < |items| && items[i].Refusal? && items[i].last < stream
  }

  lemma {:induction false} DispatchIs(rs: Replies, es: seq<Event>, s: nat)
    requires s in rs
    ensures var r, headers := Dispatch(rs, es)[s], HeadersOf(es, s);
            && (headers.Some? ==> r.status == Some(headers.value.0) && r.length == headers.value.1)
            && (headers.None? ==> r.status == rs[s].status && r.length == rs[s].length)
            && (r.ended <==> rs[s].ended || Ending(es, s))
            && (r.error.Some? <==> rs[s].error.Some? || Failing(es, s))
            && r.error == (if ErrorOf(es, s).Some? then ErrorOf(es, s) else rs[s].error)
  {
    if es != [] {
      DispatchIs(Apply(rs, es[0]), es[1..], s);
      OneMoreEvent(es, s);
      hide Dispatch, HeadersOf, Ending, Failing;
    }
  }

  lemma OneMoreEvent(es: seq<Event>, s: nat)
    requires es != []
    ensures Ending(es, s) <==> Ending(es[1..], s) || ((es[0].Ended? || es[0].Reset?) && es[0].stream == s)
    ensures Failing(es, s) <==> Failing(es[1..], s) || (es[0].Reset? && es[0].code != 0 && es[0].stream == s)
    ensures var later := HeadersOf(es[1..], s);
            HeadersOf(es, s) == if later.Some? then later
                                else if es[0].Headers? && es[0].stream == s then Some((es[0].status, es[0].length)) else None
  {
    var rest := es[1..];
    assert forall i :: 0 <= i < |rest| ==> rest[i] == es[i + 1];
    if Ending(es, s) {
      var i :| 0 <= i < |es| && (es[i].Ended? || es[i].Reset?) && es[i].stream == s;
      assert i > 0 ==> rest[i - 1] == es[i];
    }
    if Failing(es, s) {
      var i :| 0 <= i < |es| && es[i].Reset? && es[i].code != 0 && es[i].stream == s;
      assert i > 0 ==> rest[i - 1] == es[i];
    }
  }

  lemma {:induction false} RefusalsAre(rs: Replies, items: seq<Item>, s: nat)
    requires s in rs
    ensures var r := Refusals(rs, items)[s];
            && r.status == rs[s].status && r.length == rs[s].length && r.buffer == rs[s].buffer && r.received == rs[s].received
            && (r.ended <==> rs[s].ended || Refuses(items, s)) && r.error == (if Refuses(items, s) then Some(Refused) else rs[s].error)
  {
    if items != [] {
      RefusalsAre(if items[0].Refusal? then Refuse(rs, items[0].last) else rs, items[1..], s);
      assert forall i :: 0 <= i < |items| - 1 ==> items[1..][i] == items[i + 1];
      if Refuses(items, s) {
        var i :| 0 <= i < |items| && items[i].Refusal? && items[i].last < s;
        assert i > 0 ==> items[1..][i - 1] == items[i];
      }
    }
  }

  /**
   Events that bring an open response nothing new: no payload, no headers but those it has, and no end
   or error unless it has one or is refused anyway.
   */
  predicate NothingNew(r: Reply, es: seq<Event>, stream: nat, refused: bool) {
    var headers := HeadersOf(es, stream);
    && PayloadOf(es, stream) == []
    && (headers.None? || (r.status == Some(headers.value.0) && r.length == headers.value.1))
    && (refused || r.ended || !Ending(es, stream))
    && (refused || r.error.Some? || !Failing(es, stream))
  }

  /**
   A frame that fails takes the events of the frames before it in the same chunk with it. Cutting the
   chunk just before makes a difference exactly if those events bring something new to an open response.
   */
  lemma FailureDropsItsChunk(lib: Library, c: Inbound, a: seq<byte>, b: seq<byte>)
    requires var p := Collect(lib, c.history, c.rest + a); !p.failed && Collect(lib, p.history, p.rest + b).failed
    ensures var p := Collect(lib, c.history, c.rest + a);
            var items := Collect(lib, c.history, c.rest + (a + b)).items;
            var cut, whole := Receive(lib, Receive(lib, c, a), b), Receive(lib, c, a + b);
            && cut.failed && whole.failed && cut.history == whole.history && cut.rest == whole.rest
            && cut.draining == whole.draining
            && (Alike(cut.replies, whole.replies) <==>
                forall s :: s in c.replies ==> NothingNew(c.replies[s], EventsOf(p.items), s, Refuses(items, s)))
  {
    hide Collect, Refusals, Dispatch, NothingNew, EventsOf, Alike, Refuses, Draining;
    CollectInTwo(lib, c.history, c.rest + a, b);
    assert c.rest + (a + b) == (c.rest + a) + b;
    var p := Collect(lib, c.history, c.rest + a);
    var q := Collect(lib, p.history, p.rest + b);
    DrainingOfBoth(p.items, q.items);
    RepliesApart(c.replies, p.items, q.items);
  }

  lemma RepliesApart(rs: Replies, a: seq<Item>, b: seq<Item>)
    ensures Alike(Refusals(Dispatch(Refusals(rs, a), EventsOf(a)), b), Refusals(rs, a + b)) <==>
            forall s :: s in rs ==> NothingNew(rs[s], EventsOf(a), s, Refuses(a + b, s))
  {
    hide Refusals, Dispatch, NothingNew, EventsOf, AlikeReplies, Refuses;
    var cut, whole := Refusals(Dispatch(Refusals(rs, a), EventsOf(a)), b), Refusals(rs, a + b);
    forall s | s in rs
      ensures AlikeReplies(cut[s], whole[s]) <==> NothingNew(rs[s], EventsOf(a), s, Refuses(a + b, s))
    {
      ReplyApart(rs, a, b, s);
    }
  }

  lemma ReplyApart(rs: Replies, a: seq<Item>, b: seq<Item>, s: nat)
    requires s in rs
    ensures AlikeReplies(Refusals(Dispatch(Refusals(rs, a), EventsOf(a)), b)[s], Refusals(rs, a + b)[s])
            <==> NothingNew(rs[s], EventsOf(a), s, Refuses(a + b, s))
  {
    hide Refusals, Dispatch, PayloadOf, EventsOf, Refuses, HeadersOf, Ending, Failing;
    var es, middle := EventsOf(a), Dispatch(Refusals(rs, a), EventsOf(a));
    RefusalsAre(rs, a, s);
    DispatchIs(Refusals(rs, a), es, s);
    DispatchAddsPayload(Refusals(rs, a), es, s);
    RefusalsAre(middle, b, s);
    RefusalsAre(rs, a + b, s);
    RefusedByBoth(a, b, s);
    var payload, buffer := PayloadOf(es, s), rs[s].buffer;
    assert |buffer + payload| == |buffer| + |payload|;
    assert buffer + [] == buffer;
  }

  lemma RefusedByBoth(a: seq<Item>, b: seq<Item>, s: nat)
    ensures Refuses(a + b, s) <==> Refuses(a, s) || Refuses(b, s)
  {
    if Refuses(a, s) { var i :| 0 <= i < |a| && a[i].Refusal? && a[i].last < s; assert (a + b)[i] == a[i]; }
    if Refuses(b, s) { var i :| 0 <= i < |b| && b[i].Refusal? && b[i].last < s; assert (a + b)[|a| + i] == b[i]; }
  }

  function BringsOneByte(history: seq<Packet>, packet: Packet): Reaction { Events([Data(1, [65], 0)]) }

  function RefusesNothing(header: Packet): bool { false }

  function NoGoAway(packet: Packet): Option<(nat, nat)> { None }

  /**
   Stream 1 is open; `a` is a DATA frame of one byte, and `b` starts a frame beyond the limit. The
   byte reaches the response only if the two come apart.
   */
  lemma PayloadCanBeDropped(c: Inbound, a: seq<byte>, b: seq<byte>)
    requires c == Inbound([], [], map[1 := FRESH], false, false)
    requires a == [0, 0, 1, 0, 0, 0, 0, 0, 1, 65] && b == [255, 255, 255, 0, 0, 0, 0, 0, 1]
    ensures var lib := Library(RefusesNothing, BringsOneByte, NoGoAway);
            && Receive(lib, Receive(lib, c, a), b).replies[1].buffer == [65]
            && Receive(lib, c, a + b).replies[1].buffer == []
  {
    hide Collect, Refusals, Dispatch, EventsOf, PayloadOf, Notes;
    var lib := Library(RefusesNothing, BringsOneByte, NoGoAway);
    var items := [Note(Data(1, [65], 0))];
    assert c.rest + a == a && c.rest + (a + b) == a + b;
    assert Notes([Data(1, [65], 0)]) == items;
    WholeFrame(lib, [], a);
    var p := Collect(lib, [], a);
    assert p.items == items && p.rest == [] && !p.failed;
    OneEvent(Data(1, [65], 0));
    assert p.rest + b == b;
    BadFrame(lib, p.history, b);
    CollectInTwo(lib, [], a, b);
    assert items + [] == items;
    RefusalsAre(c.replies, items, 1);
    DispatchAddsPayload(Refusals(c.replies, items), EventsOf(items), 1);
    NoEffect(Dispatch(Refusals(c.replies, items), EventsOf(items)));
  }

  lemma BadFrame(lib: Library, history: seq<Packet>, bytes: seq<byte>)
    requires NextFrame(lib, bytes).Bad?
    ensures Collect(lib, history, bytes) == Parse([], history, bytes, [], true)
  {
  }

  lemma OneEvent(e: Event)
    ensures EventsOf([Note(e)]) == [e]
    ensures e.Data? ==> PayloadOf([e], e.stream) == e.data
  {
    assert [Note(e)][1..] == [] && [e][1..] == [];
  }
}
