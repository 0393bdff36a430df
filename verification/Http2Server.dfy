/**
 The test server's session, tests/http2_server.py, lines 42-157: handler threads submit one command
 at a time for their stream, and one owner sends what flow control lets it, putting the rest back.
 */
module Http2Server {
  import opened Common

  const BUDGET: nat := 256 * 1024

  datatype Kind = Headers | Data | End

  datatype Command = Command(id: nat, stream: nat, kind: Kind, payload: seq<byte>)

  datatype Content = Head | Byte(value: byte) | Fin

  /** What h2 is given, with the command it is of; how a payload is cut into frames does not matter. */
  datatype Item = Item(command: nat, content: Content)

  type Streams = map<nat, seq<Item>>

  function Bytes(id: nat, payload: seq<byte>): (items: seq<Item>)
    ensures |items| == |payload| && forall i :: 0 <= i < |payload| ==> items[i] == Item(id, Byte(payload[i]))
  {
    seq(|payload|, i requires 0 <= i < |payload| => Item(id, Byte(payload[i])))
  }

  function Output(c: Command): (items: seq<Item>)
    ensures forall i :: 0 <= i < |items| ==> items[i].command == c.id
  {
    match c.kind
    case Headers => [Item(c.id, Head)]
    case Data => Bytes(c.id, c.payload)
    case End => [Item(c.id, Fin)]
  }

  function On(wire: Streams, stream: nat): seq<Item> {
    if stream in wire then wire[stream] else []
  }

  function Given(wire: Streams, stream: nat, items: seq<Item>): (after: Streams)
    ensures forall s: nat :: On(after, s) == if s == stream then On(wire, s) + items else On(wire, s)
  {
    var after := if items == [] then wire else wire[stream := On(wire, stream) + items];
    assert On(wire, stream) + [] == On(wire, stream);
    after
  }

  // ---------------------------------------------------------------- flow control

  /** The windows that h2 keeps, of the connection and of each stream. */
  datatype Flow = Flow(shared: int, own: map<nat, int>)

  function OwnWindow(f: Flow, stream: nat): int {
    if stream in f.own then f.own[stream] else 0
  }

  /** h2's local_flow_control_window. */
  function Window(f: Flow, stream: nat): int { Min(OwnWindow(f, stream), f.shared) }

  function Spent(f: Flow, stream: nat, n: nat): Flow {
    if n == 0 then f else Flow(f.shared - n, f.own[stream := OwnWindow(f, stream) - n])
  }

  lemma SpentTwice(f: Flow, stream: nat, n: nat, more: nat)
    ensures Spent(Spent(f, stream, n), stream, more) == Spent(f, stream, n + more)
    ensures OwnWindow(Spent(f, stream, n), stream) == OwnWindow(f, stream) - n && Spent(f, stream, n).shared == f.shared - n
    ensures Window(Spent(f, stream, n), stream) == Window(f, stream) - n
    ensures forall s: nat :: s != stream ==> OwnWindow(Spent(f, stream, n), s) == OwnWindow(f, s)
  {
  }

  /** A SETTINGS frame moves every stream's window by the change of the initial one (section 6.9.2 of RFC 9113). */
  function Resettled(f: Flow, was: nat, now: nat): Flow {
    f.(own := map s | s in f.own :: f.own[s] + now - was)
  }

  // ---------------------------------------------------------------- a command's turn

  /** How much of a payload one turn sends. */
  function Sent(c: Command, window: int): (n: nat)
    ensures n <= |c.payload|
  {
    if window < 0 || c.kind != Data then 0 else Min(Min(|c.payload|, window), BUDGET)
  }

  /** The exceptions of a turn before the flush: a closed stream, h2's own, or a negative window. */
  predicate Raises(c: Command, closedStreams: set<nat>, refused: set<nat>, window: int) {
    c.stream in closedStreams || c.stream in refused || (c.kind == Data && c.payload != [] && window < 0)
  }

  /** What a command that does not raise gives to h2 when it is its turn. */
  function Part(c: Command, window: int): (items: seq<Item>)
    ensures items <= Output(c)
  {
    if c.kind == Data then Bytes(c.id, c.payload[..Sent(c, window)]) else Output(c)
  }

  /** What is left of it, to be put back. */
  function Left(c: Command, window: int): Command { c.(payload := c.payload[Sent(c, window)..]) }

  predicate PutsBack(c: Command, window: int) { c.kind == Data && Sent(c, window) < |c.payload| }

  lemma PartAndRest(c: Command, window: int)
    ensures PutsBack(c, window) ==> Output(c) == Part(c, window) + Output(Left(c, window)) && Output(Left(c, window)) != []
    ensures !PutsBack(c, window) ==> Part(c, window) == Output(c)
  {
    assert c.payload[..|c.payload|] == c.payload;
  }

  function FrameSize(left: nat, window: int, frame: nat, budget: nat): (size: int)
    requires frame > 0 && budget > 0 && left > 0
    ensures size <= left && size <= window && size <= frame && size <= budget
    ensures size < 0 <==> window < 0
    ensures size == 0 <==> window == 0
  {
    Min(Min(left, window), Min(frame, budget))
  }

  // ---------------------------------------------------------------- the queue

  /** What the queued commands of a stream have yet to give to h2. */
  function Rest(queue: seq<Command>, stream: nat): seq<Item> {
    if queue == [] then []
    else (if queue[0].stream == stream then Output(queue[0]) else []) + Rest(queue[1..], stream)
  }

  /** The bytes of payload in a queue. */
  function Total(queue: seq<Command>): nat {
    if queue == [] then 0 else |queue[0].payload| + Total(queue[1..])
  }

  predicate Queued(queue: seq<Command>, stream: nat) {
    exists i :: 0 <= i < |queue| && queue[i].stream == stream
  }

  predicate Waits(queue: seq<Command>, id: nat) {
    exists i :: 0 <= i < |queue| && queue[i].id == id
  }

  /** A handler waits for its command, so that a stream never has two of them queued. */
  predicate OneEach(queue: seq<Command>) {
    forall i, j :: 0 <= i < j < |queue| ==> queue[i].stream != queue[j].stream && queue[i].id != queue[j].id
  }

  /** Every accepted command is either queued or has its result, and not both. */
  ghost predicate Accounted(queue: seq<Command>, results: map<nat, bool>, accepted: nat) {
    forall id: nat :: (id < accepted <==> Waits(queue, id) || id in results) && !(Waits(queue, id) && id in results)
  }

  /** No result is given twice. */
  ghost predicate Extends(was: map<nat, bool>, now: map<nat, bool>) {
    forall id: nat :: id in was ==> id in now && now[id] == was[id]
  }

  lemma {:induction false} RestOfBoth(a: seq<Command>, b: seq<Command>, s: nat)
    ensures Rest(a + b, s) == Rest(a, s) + Rest(b, s)
  {
    if a == [] {
      assert a + b == b;
    } else {
      assert (a + b)[1..] == a[1..] + b;
      RestOfBoth(a[1..], b, s);
    }
  }

  lemma {:induction false} TotalOfBoth(a: seq<Command>, b: seq<Command>)
    ensures Total(a + b) == Total(a) + Total(b)
  {
    if a == [] {
      assert a + b == b;
    } else {
      assert (a + b)[1..] == a[1..] + b;
      TotalOfBoth(a[1..], b);
    }
  }

  lemma {:induction false} TotalIsMore(queue: seq<Command>, k: nat)
    requires k < |queue|
    ensures |queue[k].payload| <= Total(queue)
  {
    if k > 0 { TotalIsMore(queue[1..], k - 1); }
  }

  lemma {:induction false} RestOfNone(queue: seq<Command>, s: nat)
    requires !Queued(queue, s)
    ensures Rest(queue, s) == []
  {
    if queue != [] {
      assert queue[0].stream != s;
      forall i | 0 <= i < |queue| - 1 ensures queue[1..][i].stream != s { assert queue[1..][i] == queue[i + 1]; }
      RestOfNone(queue[1..], s);
    }
  }

  lemma RestOfOne(c: Command, s: nat)
    ensures Rest([c], s) == if c.stream == s then Output(c) else []
    ensures Total([c]) == |c.payload|
  {
    assert [c][1..] == [];
    assert Rest([c], s) == (if c.stream == s then Output(c) else []) + [];
  }

  /** The first of a queue is the only one of its stream. */
  lemma FirstIsAlone(queue: seq<Command>)
    requires OneEach(queue) && queue != []
    ensures !Queued(queue[1..], queue[0].stream) && !Waits(queue[1..], queue[0].id)
    ensures OneEach(queue[1..])
  {
    assert forall i :: 0 <= i < |queue| - 1 ==> queue[1..][i] == queue[i + 1];
  }

  lemma QueueOfMore(queue: seq<Command>, c: Command)
    ensures forall s: nat :: Queued(queue + [c], s) <==> Queued(queue, s) || s == c.stream
    ensures forall id: nat :: Waits(queue + [c], id) <==> Waits(queue, id) || id == c.id
    ensures forall s: nat :: Rest(queue + [c], s) == Rest(queue, s) + if s == c.stream then Output(c) else []
  {
    var after := queue + [c];
    assert after[|queue|] == c;
    forall s: nat ensures Queued(queue, s) ==> Queued(after, s) {
      if Queued(queue, s) { var i :| 0 <= i < |queue| && queue[i].stream == s; assert after[i].stream == s; }
    }
    forall id: nat ensures Waits(queue, id) ==> Waits(after, id) {
      if Waits(queue, id) { var i :| 0 <= i < |queue| && queue[i].id == id; assert after[i].id == id; }
    }
    forall s: nat ensures Rest(after, s) == Rest(queue, s) + if s == c.stream then Output(c) else [] {
      RestOfBoth(queue, [c], s);
      RestOfOne(c, s);
    }
  }

  lemma QueueOfFewer(queue: seq<Command>)
    requires queue != []
    ensures forall s: nat :: Queued(queue, s) <==> Queued(queue[1..], s) || s == queue[0].stream
    ensures forall id: nat :: Waits(queue, id) <==> Waits(queue[1..], id) || id == queue[0].id
    ensures forall s: nat :: s != queue[0].stream ==> Rest(queue[1..], s) == Rest(queue, s)
  {
    var rest := queue[1..];
    assert forall i :: 0 <= i < |rest| ==> rest[i] == queue[i + 1];
    forall s: nat ensures Queued(queue, s) ==> Queued(rest, s) || s == queue[0].stream {
      if Queued(queue, s) { var i :| 0 <= i < |queue| && queue[i].stream == s; assert i > 0 ==> rest[i - 1].stream == s; }
    }
    forall s: nat ensures Queued(rest, s) ==> Queued(queue, s) {
      if Queued(rest, s) { var i :| 0 <= i < |rest| && rest[i].stream == s; assert queue[i + 1].stream == s; }
    }
    forall id: nat ensures Waits(queue, id) ==> Waits(rest, id) || id == queue[0].id {
      if Waits(queue, id) { var i :| 0 <= i < |queue| && queue[i].id == id; assert i > 0 ==> rest[i - 1].id == id; }
    }
    forall id: nat ensures Waits(rest, id) ==> Waits(queue, id) {
      if Waits(rest, id) { var i :| 0 <= i < |rest| && rest[i].id == id; assert queue[i + 1].id == id; }
    }
    forall s: nat | s != queue[0].stream ensures Rest(rest, s) == Rest(queue, s) {
      assert [] + Rest(rest, s) == Rest(rest, s);
    }
  }

  lemma OneEachMore(queue: seq<Command>, c: Command)
    requires OneEach(queue) && !Queued(queue, c.stream) && !Waits(queue, c.id)
    ensures OneEach(queue + [c])
  {
    forall i | 0 <= i < |queue| ensures queue[i].stream != c.stream && queue[i].id != c.id {}
  }

  /** The first queued command of a stream is all that the stream has queued. */
  lemma RestOfFirst(queue: seq<Command>)
    requires OneEach(queue) && queue != []
    ensures Rest(queue, queue[0].stream) == Output(queue[0]) && Rest(queue[1..], queue[0].stream) == []
  {
    FirstIsAlone(queue);
    RestOfNone(queue[1..], queue[0].stream);
    assert Output(queue[0]) + [] == Output(queue[0]);
  }

  lemma QueuePutBack(queue: seq<Command>, left: Command)
    requires OneEach(queue) && queue != [] && left.stream == queue[0].stream && left.id == queue[0].id
    ensures Queued(queue, left.stream)
    ensures var after := queue[1..] + [left];
            && OneEach(after)
            && (forall s: nat :: Queued(after, s) <==> Queued(queue, s))
            && (forall id: nat :: Waits(after, id) <==> Waits(queue, id))
            && (forall s: nat :: Rest(after, s) == if s == left.stream then Output(left) else Rest(queue, s))
  {
    FirstIsAlone(queue);
    QueueOfFewer(queue);
    RestOfFirst(queue);
    QueueOfMore(queue[1..], left);
    OneEachMore(queue[1..], left);
    hide Output, Rest, Queued, Waits, OneEach;
    assert [] + Output(left) == Output(left);
    forall s: nat ensures s != left.stream ==> Rest(queue[1..], s) + [] == Rest(queue[1..], s) {}
  }

  // ---------------------------------------------------------------- order on each stream

  /**
   What handlers submitted, and what went wrong: streams with a command that failed before h2 had all
   its output, streams that accepted a command after that, and streams that gave h2 more after that.
   */
  datatype Books = Books(script: Streams, gapped: set<nat>, again: set<nat>, late: set<nat>)

  /** Up to the first item of a command that failed, the wire is the script. */
  predicate Short(wire: seq<Item>, script: seq<Item>, results: map<nat, bool>) {
    wire < script && script[|wire|].command in results
  }

  predicate Diverges(wire: seq<Item>, script: seq<Item>) {
    exists i :: 0 <= i < |wire| && i < |script| && wire[i] != script[i]
  }

  /** One stream: the wire and what is queued are the script; or a part is missing; or the wire went on without it. */
  predicate Follows(gapped: bool, again: bool, late: bool, queued: bool, wire: seq<Item>, rest: seq<Item>,
                    script: seq<Item>, results: map<nat, bool>) {
    && (gapped && queued ==> again) && (late ==> gapped && again)
    && (!gapped ==> wire + rest == script)
    && (gapped && !late ==> Short(wire, script, results))
    && (late ==> Diverges(wire, script))
  }

  ghost predicate StreamFollows(queue: seq<Command>, wire: Streams, b: Books, results: map<nat, bool>, s: nat) {
    Follows(s in b.gapped, s in b.again, s in b.late, Queued(queue, s), On(wire, s), Rest(queue, s), On(b.script, s), results)
  }

  ghost predicate Sound(queue: seq<Command>, wire: Streams, b: Books, results: map<nat, bool>, accepted: nat) {
    && OneEach(queue) && Accounted(queue, results, accepted)
    && forall s: nat :: StreamFollows(queue, wire, b, results, s)
  }

  lemma Associates(a: seq<Item>, b: seq<Item>, c: seq<Item>)
    ensures a + (b + c) == (a + b) + c
  {
  }

  lemma FollowsSubmission(gapped: bool, again: bool, late: bool, wire: seq<Item>, rest: seq<Item>, script: seq<Item>,
                          results: map<nat, bool>, more: seq<Item>)
    requires Follows(gapped, again, late, false, wire, rest, script, results)
    ensures Follows(gapped, again || gapped, late, true, wire, rest + more, script + more, results)
  {
    Associates(wire, rest, more);
    if late {
      var i :| 0 <= i < |wire| && i < |script| && wire[i] != script[i];
      assert (script + more)[i] == script[i];
    }
  }

  /** A turn gives `part` of the one queued command of a stream, and `rest` of it stays queued or is lost. */
  lemma FollowsTurn(gapped: bool, again: bool, late: bool, wire: seq<Item>, output: seq<Item>, script: seq<Item>,
                    results: map<nat, bool>, id: nat, part: seq<Item>, rest: seq<Item>, now: map<nat, bool>, lost: bool)
    requires Follows(gapped, again, late, true, wire, output, script, results)
    requires output == part + rest && forall i :: 0 <= i < |output| ==> output[i].command == id
    requires id !in results && (if lost then now == results[id := false] else now.Keys >= results.Keys)
    ensures Follows(gapped || (lost && rest != []), again, late || (gapped && part != []), !lost && rest != [],
                    wire + part, if lost then [] else rest, script, now)
  {
    Associates(wire, part, rest);
    if gapped && part != [] && !late {
      assert (wire + part)[|wire|] == output[0];
    } else if late {
      var i :| 0 <= i < |wire| && i < |script| && wire[i] != script[i];
      assert (wire + part)[i] == wire[i];
    } else if !gapped && lost && rest != [] {
      assert script[|wire + part|] == output[|part|];
    } else if !gapped {
      assert rest == [] ==> wire + part == wire + output;
    } else {
      assert wire + part == wire;
    }
  }

  function SubmitBooks(b: Books, c: Command): Books {
    b.(script := Given(b.script, c.stream, Output(c)), again := if c.stream in b.gapped then b.again + {c.stream} else b.again)
  }

  /** The books after a turn of `c` that gave `part` to h2; `lost` if it failed. */
  function TurnBooks(b: Books, c: Command, part: seq<Item>, lost: bool): Books {
    b.(gapped := if lost && part != Output(c) then b.gapped + {c.stream} else b.gapped,
       late := if c.stream in b.gapped && part != [] then b.late + {c.stream} else b.late)
  }

  lemma SubmitKeeps(queue: seq<Command>, wire: Streams, b: Books, results: map<nat, bool>, accepted: nat, c: Command)
    requires Sound(queue, wire, b, results, accepted) && c.id == accepted && !Queued(queue, c.stream)
    ensures Sound(queue + [c], wire, SubmitBooks(b, c), results, accepted + 1)
  {
    hide Output, Rest, Queued, Waits, OneEach, Follows, Given, On;
    QueueOfMore(queue, c);
    assert !Waits(queue, accepted);
    OneEachMore(queue, c);
    var after := SubmitBooks(b, c);
    forall s: nat ensures StreamFollows(queue + [c], wire, after, results, s) {
      assert StreamFollows(queue, wire, b, results, s);
      if s == c.stream {
        FollowsSubmission(s in b.gapped, s in b.again, s in b.late, On(wire, s), Rest(queue, s), On(b.script, s), results, Output(c));
      } else {
        assert Rest(queue, s) + [] == Rest(queue, s);
      }
    }
  }

  /** A turn of the first command that puts the rest of it back. */
  lemma PutBackKeeps(queue: seq<Command>, wire: Streams, b: Books, results: map<nat, bool>, accepted: nat, window: int)
    requires Sound(queue, wire, b, results, accepted) && queue != [] && PutsBack(queue[0], window)
    ensures queue[0].id !in results
    ensures var c := queue[0];
            Sound(queue[1..] + [Left(c, window)], Given(wire, c.stream, Part(c, window)), TurnBooks(b, c, Part(c, window), false),
                  results, accepted)
  {
    hide Output, Rest, Queued, Waits, OneEach, StreamFollows, Given, Part, Sent, PutsBack, TurnBooks;
    var c, left := queue[0], Left(queue[0], window);
    PartAndRest(c, window);
    QueuePutBack(queue, left);
    WaitsAt(queue, 0);
    var part := Part(c, window);
    forall s: nat ensures StreamFollows(queue[1..] + [left], Given(wire, c.stream, part), TurnBooks(b, c, part, false), results, s) {
      PutBackStream(queue, wire, b, results, part, left, s);
    }
  }

  lemma PutBackStream(queue: seq<Command>, wire: Streams, b: Books, results: map<nat, bool>, part: seq<Item>, left: Command, s: nat)
    requires queue != [] && OneEach(queue) && StreamFollows(queue, wire, b, results, s) && queue[0].id !in results
    requires left.stream == queue[0].stream && left.id == queue[0].id
    requires Output(queue[0]) == part + Output(left) && Output(left) != []
    ensures var c := queue[0];
            StreamFollows(queue[1..] + [left], Given(wire, c.stream, part), TurnBooks(b, c, part, false), results, s)
  {
    hide Output, Rest, Queued, Waits, OneEach, Follows, Given, On;
    var c := queue[0];
    QueuePutBack(queue, left);
    RestOfFirst(queue);
    if s == c.stream {
      FollowsTurn(s in b.gapped, s in b.again, s in b.late, On(wire, s), Output(c), On(b.script, s), results, c.id,
                  part, Output(left), results, false);
    }
  }

  lemma WaitsAt(queue: seq<Command>, i: nat)
    requires i < |queue|
    ensures Waits(queue, queue[i].id)
  {
  }

  /** A turn of the first command that gives it its result: all of it given if it went well. */
  lemma CompleteKeeps(queue: seq<Command>, wire: Streams, b: Books, results: map<nat, bool>, accepted: nat, part: seq<Item>, ok: bool)
    requires Sound(queue, wire, b, results, accepted) && queue != []
    requires part <= Output(queue[0]) && (ok ==> part == Output(queue[0]))
    ensures var c := queue[0];
            && c.id !in results
            && Sound(queue[1..], Given(wire, c.stream, part), TurnBooks(b, c, part, !ok), results[c.id := ok], accepted)
  {
    var c, rest := queue[0], Output(queue[0])[|part|..];
    assert Output(c) == part + rest && (rest == [] <==> part == Output(c));
    hide Output, Rest, Queued, Waits, OneEach, StreamFollows, Given, TurnBooks;
    FirstIsAlone(queue);
    QueueOfFewer(queue);
    WaitsAt(queue, 0);
    var given, books, now := Given(wire, c.stream, part), TurnBooks(b, c, part, !ok), results[c.id := ok];
    forall s: nat ensures StreamFollows(queue[1..], given, books, now, s) {
      CompleteStream(queue, wire, b, results, part, rest, ok, s);
    }
  }

  lemma CompleteStream(queue: seq<Command>, wire: Streams, b: Books, results: map<nat, bool>, part: seq<Item>, rest: seq<Item>,
                       ok: bool, s: nat)
    requires queue != [] && OneEach(queue) && StreamFollows(queue, wire, b, results, s) && queue[0].id !in results
    requires Output(queue[0]) == part + rest && (rest == [] <==> part == Output(queue[0])) && (ok ==> rest == [])
    ensures var c := queue[0];
            StreamFollows(queue[1..], Given(wire, c.stream, part), TurnBooks(b, c, part, !ok), results[c.id := ok], s)
  {
    hide Output, Rest, Queued, Waits, OneEach, Follows, Given, On;
    var c := queue[0];
    FirstIsAlone(queue);
    QueueOfFewer(queue);
    RestOfFirst(queue);
    if s == c.stream {
      FollowsTurn(s in b.gapped, s in b.again, s in b.late, On(wire, s), Output(c), On(b.script, s), results, c.id,
                  part, rest, results[c.id := ok], !ok);
    } else {
      FollowsResult(s in b.gapped, s in b.again, s in b.late, Queued(queue, s), On(wire, s), Rest(queue, s), On(b.script, s),
                    results, results[c.id := ok]);
    }
  }

  lemma FollowsResult(gapped: bool, again: bool, late: bool, queued: bool, wire: seq<Item>, rest: seq<Item>,
                      script: seq<Item>, results: map<nat, bool>, now: map<nat, bool>)
    requires Follows(gapped, again, late, queued, wire, rest, script, results) && results.Keys <= now.Keys
    ensures Follows(gapped, again, late, queued, wire, rest, script, now)
  {
  }

  /**
   What h2 was given for a stream is the beginning of what was submitted on it exactly if h2 was given
   nothing more once a command had failed with a part missing; without such a failure it is all of
   it but for what is queued.
   */
  lemma OutputFollowsTheScript(queue: seq<Command>, wire: Streams, b: Books, results: map<nat, bool>, accepted: nat, s: nat)
    requires Sound(queue, wire, b, results, accepted)
    ensures On(wire, s) <= On(b.script, s) <==> s !in b.late
    ensures s in b.late ==> s in b.gapped && s in b.again
    ensures s !in b.gapped && !Queued(queue, s) ==> On(wire, s) == On(b.script, s)
    ensures s in b.gapped && s !in b.late ==> On(wire, s) < On(b.script, s)
  {
    assert StreamFollows(queue, wire, b, results, s);
    if s !in b.gapped && !Queued(queue, s) {
      RestOfNone(queue, s);
      assert On(wire, s) + [] == On(wire, s);
    }
  }

  /**
   A turn keeps what h2 was given for its stream the beginning of what was submitted exactly if nothing
   is given or no command of the stream failed before with a part missing.
   */
  lemma TurnKeepsTheBeginning(queue: seq<Command>, wire: Streams, b: Books, results: map<nat, bool>, accepted: nat,
                              part: seq<Item>, ok: bool)
    requires Sound(queue, wire, b, results, accepted) && queue != []
    requires part <= Output(queue[0]) && (ok ==> part == Output(queue[0]))
    requires On(wire, queue[0].stream) <= On(b.script, queue[0].stream)
    ensures var s := queue[0].stream; On(Given(wire, s, part), s) <= On(b.script, s) <==> part == [] || s !in b.gapped
  {
    hide Sound, On, Given;
    var s := queue[0].stream;
    OutputFollowsTheScript(queue, wire, b, results, accepted, s);
    CompleteKeeps(queue, wire, b, results, accepted, part, ok);
    OutputFollowsTheScript(queue[1..], Given(wire, s, part), TurnBooks(b, queue[0], part, !ok), results[queue[0].id := ok], accepted, s);
  }

  lemma PuttingBackKeepsTheBeginning(queue: seq<Command>, wire: Streams, b: Books, results: map<nat, bool>, accepted: nat, window: int)
    requires Sound(queue, wire, b, results, accepted) && queue != [] && PutsBack(queue[0], window)
    requires On(wire, queue[0].stream) <= On(b.script, queue[0].stream)
    ensures var s, part := queue[0].stream, Part(queue[0], window);
            On(Given(wire, s, part), s) <= On(b.script, s) <==> part == [] || s !in b.gapped
  {
    hide Sound, On, Given, Part, PutsBack;
    var s, part := queue[0].stream, Part(queue[0], window);
    OutputFollowsTheScript(queue, wire, b, results, accepted, s);
    PutBackKeeps(queue, wire, b, results, accepted, window);
    OutputFollowsTheScript(queue[1..] + [Left(queue[0], window)], Given(wire, s, part), TurnBooks(b, queue[0], part, false), results, accepted, s);
  }

  // ---------------------------------------------------------------- a pass

  /** What a pass cannot change: resets and refusals, the windows it starts with, and the socket. */
  datatype Env = Env(closedStreams: set<nat>, refused: set<nat>, flow: Flow, down: bool)

  /** h2 has a reason to raise for a command. */
  predicate Troubled(c: Command, env: Env) {
    Raises(c, env.closedStreams, env.refused, Window(env.flow, c.stream))
  }

  predicate Fails(results: map<nat, bool>, id: nat) { id in results && !results[id] }

  /**
   What has become of the commands that a pass has looked at: those with trouble failed, any other
   is completed or waits, and it failed only if the socket is down.
   */
  ghost predicate Judged(done: seq<Command>, queue: seq<Command>, results: map<nat, bool>, env: Env) {
    forall k :: 0 <= k < |done| ==>
                  && (Troubled(done[k], env) ==> Fails(results, done[k].id))
                  && (done[k].id in results || Waits(queue, done[k].id))
                  && (Fails(results, done[k].id) ==> Troubled(done[k], env) || env.down)
  }

  /** A command put back: a part of the payload is sent, and why not more. */
  predicate IsRest(c: Command, whole: Command, were: Flow, now: Flow) {
    && c.id == whole.id && c.stream == whole.stream && c.kind == whole.kind == Data
    && 0 < |c.payload| <= |whole.payload| && c.payload == whole.payload[|whole.payload| - |c.payload|..]
    && OwnWindow(now, c.stream) == OwnWindow(were, c.stream) - (|whole.payload| - |c.payload|)
    && (|whole.payload| - |c.payload| == BUDGET || Window(now, c.stream) <= 0)
  }

  predicate StillWaits(c: Command, taken: seq<Command>, were: Flow, now: Flow) {
    exists i :: 0 <= i < |taken| && IsRest(c, taken[i], were, now)
  }

  ghost predicate AllStill(queue: seq<Command>, taken: seq<Command>, were: Flow, now: Flow) {
    forall k :: 0 <= k < |queue| ==> StillWaits(queue[k], taken, were, now)
  }

  /** The connection's window: it never turns negative, and loses no more than was sent. */
  predicate Shared(were: Flow, now: Flow, taken: nat, ahead: nat, behind: nat) {
    && (if were.shared < 0 then now.shared == were.shared else 0 <= now.shared <= were.shared)
    && were.shared - now.shared + ahead + behind <= taken
  }

  /** The windows of streams still to be looked at. */
  ghost predicate Untouched(pending: seq<Command>, were: Flow, now: Flow) {
    forall k :: 0 <= k < |pending| ==> OwnWindow(now, pending[k].stream) == OwnWindow(were, pending[k].stream)
  }

  ghost predicate FailedOne(done: seq<Command>, results: map<nat, bool>, s: nat) {
    exists k :: 0 <= k < |done| && done[k].stream == s && Fails(results, done[k].id)
  }

  /** The streams with failures are those from before and those of the pass. */
  ghost predicate Blames(done: seq<Command>, results: map<nat, bool>, before: set<nat>, failed: set<nat>) {
    forall s: nat :: s in failed <==> s in before || FailedOne(done, results, s)
  }

  lemma JudgedMore(done: seq<Command>, c: Command, before: seq<Command>, known: map<nat, bool>, queue: seq<Command>,
                   results: map<nat, bool>, env: Env)
    requires Judged(done, before, known, env) && forall k :: 0 <= k < |done| ==> done[k].id != c.id
    requires if queue == before then
               && c.id in results && results == known[c.id := results[c.id]]
               && (Troubled(c, env) ==> !results[c.id]) && (!results[c.id] ==> Troubled(c, env) || env.down)
             else
               && |queue| == |before| + 1 && queue == before + [queue[|before|]] && queue[|before|].id == c.id
               && results == known && c.id !in known && !Troubled(c, env)
    ensures Judged(done + [c], queue, results, env)
  {
    if queue != before { QueueOfMore(before, queue[|before|]); }
    hide Waits, Troubled;
    var all := done + [c];
    forall k | 0 <= k < |all|
      ensures Troubled(all[k], env) ==> Fails(results, all[k].id)
      ensures all[k].id in results || Waits(queue, all[k].id)
      ensures Fails(results, all[k].id) ==> Troubled(all[k], env) || env.down
    {
      if k < |done| { assert all[k] == done[k] && (done[k].id in known <==> done[k].id in results); }
    }
  }

  lemma BlamesMore(done: seq<Command>, c: Command, known: map<nat, bool>, results: map<nat, bool>, before: set<nat>,
                   was: set<nat>, failed: set<nat>)
    requires Blames(done, known, before, was) && forall k :: 0 <= k < |done| ==> done[k].id != c.id
    requires results == known || (c.id in results && results == known[c.id := results[c.id]])
    requires results == known ==> c.id !in known
    requires failed == if Fails(results, c.id) then was + {c.stream} else was
    ensures Blames(done + [c], results, before, failed)
  {
    var all := done + [c];
    assert all[|done|] == c;
    forall s: nat ensures FailedOne(all, results, s) <==> FailedOne(done, known, s) || (s == c.stream && Fails(results, c.id)) {
      if FailedOne(all, results, s) {
        var k :| 0 <= k < |all| && all[k].stream == s && Fails(results, all[k].id);
        if k < |done| { assert done[k].stream == s && Fails(known, done[k].id); }
      }
      if FailedOne(done, known, s) {
        var k :| 0 <= k < |done| && done[k].stream == s && Fails(known, done[k].id);
        assert all[k].stream == s && Fails(results, all[k].id);
      }
    }
  }

  /** Less of the connection's window is as good a reason to wait. */
  lemma StillLess(queue: seq<Command>, taken: seq<Command>, were: Flow, now: Flow, next: Flow)
    requires AllStill(queue, taken, were, now) && next.shared <= now.shared && Untouched(queue, now, next)
    ensures AllStill(queue, taken, were, next)
  {
    forall k | 0 <= k < |queue| ensures StillWaits(queue[k], taken, were, next) {
      var i :| 0 <= i < |taken| && IsRest(queue[k], taken[i], were, now);
      assert IsRest(queue[k], taken[i], were, next);
    }
  }

  /** A payload put back waits for a window unless it used its budget. */
  lemma StillMore(queue: seq<Command>, c: Command, taken: seq<Command>, i: nat, were: Flow, now: Flow)
    requires AllStill(queue, taken, were, Spent(now, c.stream, Sent(c, Window(now, c.stream))))
    requires i < |taken| && taken[i] == c && OwnWindow(now, c.stream) == OwnWindow(were, c.stream)
    requires PutsBack(c, Window(now, c.stream)) && 0 <= Window(now, c.stream)
    ensures var w := Window(now, c.stream);
            AllStill(queue + [Left(c, w)], taken, were, Spent(now, c.stream, Sent(c, w)))
  {
    var w := Window(now, c.stream);
    SpentTwice(now, c.stream, Sent(c, w), 0);
    hide Spent, Window;
    assert IsRest(Left(c, w), taken[i], were, Spent(now, c.stream, Sent(c, w)));
  }

  lemma SharedSpends(were: Flow, now: Flow, taken: nat, pending: seq<Command>, commands: seq<Command>, n: nat, back: seq<Command>)
    requires pending != [] && Shared(were, now, taken, Total(pending), Total(commands))
    requires n <= |pending[0].payload| && (n > 0 ==> n <= now.shared)
    requires back == [] || (|back| == 1 && |back[0].payload| == |pending[0].payload| - n)
    ensures Shared(were, Spent(now, pending[0].stream, n), taken, Total(pending[1..]), Total(commands + back))
  {
    TotalOfBoth(commands, back);
    if back != [] { assert back[1..] == []; }
  }

  lemma UntouchedSpends(pending: seq<Command>, were: Flow, now: Flow, stream: nat, n: nat)
    requires Untouched(pending, were, now) && !Queued(pending, stream)
    ensures Untouched(pending, were, Spent(now, stream, n))
  {
    SpentTwice(now, stream, n, 0);
    hide Spent;
    forall k | 0 <= k < |pending| ensures pending[k].stream != stream {}
  }

  /** Trouble for a command that has yet its turn is what it was when the pass started. */
  lemma TroubleStays(c: Command, env: Env, now: Flow, taken: nat, ahead: nat, behind: nat)
    requires Shared(env.flow, now, taken, ahead, behind) && OwnWindow(now, c.stream) == OwnWindow(env.flow, c.stream)
    ensures Troubled(c, env) <==> Raises(c, env.closedStreams, env.refused, Window(now, c.stream))
  {
  }

  /** A pass over `taken` that has looked at the first i commands. */
  ghost predicate InPass(env: Env, taken: seq<Command>, i: nat, commands: seq<Command>, results: map<nat, bool>, flow: Flow,
                         before: set<nat>, failed: set<nat>) {
    && i <= |taken| && OneEach(taken)
    && Judged(taken[..i], commands, results, env) && Blames(taken[..i], results, before, failed)
    && AllStill(commands, taken, env.flow, flow) && Untouched(taken[i..], env.flow, flow)
    && Shared(env.flow, flow, Total(taken), Total(taken[i..]), Total(commands))
  }

  lemma PassStarts(env: Env, taken: seq<Command>, results: map<nat, bool>, failed: set<nat>)
    requires OneEach(taken)
    ensures InPass(env, taken, 0, [], results, env.flow, failed, failed)
  {
    assert taken[0..] == taken;
  }

  lemma TurnKeepsPass(env: Env, taken: seq<Command>, i: nat, commands: seq<Command>, results: map<nat, bool>, flow: Flow,
                      before: set<nat>, failed: set<nat>, after: seq<Command>, now: map<nat, bool>, next: Flow, fails: set<nat>)
    requires i < |taken| && InPass(env, taken, i, commands, results, flow, before, failed)
    requires !Queued(commands, taken[i].stream) && taken[i].id !in results
    requires var c := taken[i];
             var w := Window(flow, c.stream);
             var raises := Raises(c, env.closedStreams, env.refused, w);
             && next == Spent(flow, c.stream, if raises then 0 else Sent(c, w))
             && if !raises && PutsBack(c, w) then after == commands + [Left(c, w)] && now == results && fails == failed
                else
                  && after == commands && c.id in now && now == results[c.id := now[c.id]]
                  && fails == (if now[c.id] then failed else failed + {c.stream})
                  && (raises ==> !now[c.id]) && (!raises && !env.down ==> now[c.id])
    ensures InPass(env, taken, i + 1, after, now, next, before, fails)
  {
    var c, w := taken[i], Window(flow, taken[i].stream);
    var n := if Raises(c, env.closedStreams, env.refused, w) then 0 else Sent(c, w);
    assert taken[..i + 1] == taken[..i] + [c] && taken[i..][1..] == taken[i + 1..] && taken[i..][0] == c;
    assert !Queued(taken[i + 1..], c.stream) by { LaterDiffer(taken, i); }
    hide Shared, Judged, Blames, AllStill, Untouched, Total, Queued, Spent;
    assert Shared(env.flow, flow, Total(taken), Total(taken[i..]), Total(commands)) && OwnWindow(flow, c.stream) == OwnWindow(env.flow, c.stream)
      && Untouched(taken[i + 1..], env.flow, flow) by { FirstUntouched(taken, i, env.flow, flow); }
    TroubleStays(c, env, flow, Total(taken), Total(taken[i..]), Total(commands));
    EarlierDiffer(taken, i);
    JudgedMore(taken[..i], c, commands, results, after, now, env);
    BlamesMore(taken[..i], c, results, now, before, failed, fails);
    SpentTwice(flow, c.stream, n, 0);
    SharedSpends(env.flow, flow, Total(taken), taken[i..], commands, n, if after == commands then [] else [Left(c, w)]);
    assert commands + [] == commands;
    UntouchedSpends(taken[i + 1..], env.flow, flow, c.stream, n);
    Unaltered(commands, flow);
    UntouchedSpends(commands, flow, flow, c.stream, n);
    StillLess(commands, taken, env.flow, flow, next);
    if after != commands { StillMore(commands, c, taken, i, env.flow, flow); }
  }

  lemma LaterDiffer(taken: seq<Command>, i: nat)
    requires OneEach(taken) && i < |taken|
    ensures !Queued(taken[i + 1..], taken[i].stream)
  {
    var rest := taken[i + 1..];
    forall j | 0 <= j < |rest| ensures rest[j].stream != taken[i].stream { assert rest[j] == taken[i + 1 + j]; }
  }

  lemma EarlierDiffer(taken: seq<Command>, i: nat)
    requires OneEach(taken) && i < |taken|
    ensures forall k :: 0 <= k < i ==> taken[..i][k].id != taken[i].id
  {
  }

  lemma FirstUntouched(taken: seq<Command>, i: nat, were: Flow, now: Flow)
    requires i < |taken| && Untouched(taken[i..], were, now)
    ensures OwnWindow(now, taken[i].stream) == OwnWindow(were, taken[i].stream) && Untouched(taken[i + 1..], were, now)
  {
    assert taken[i..][0] == taken[i];
    var rest := taken[i + 1..];
    forall k | 0 <= k < |rest| ensures OwnWindow(now, rest[k].stream) == OwnWindow(were, rest[k].stream) {
      assert rest[k] == taken[i..][k + 1];
    }
  }

  lemma Unaltered(queue: seq<Command>, f: Flow)
    ensures Untouched(queue, f, f)
  {
  }

  /** The windows hold all that a pass has taken. */
  predicate WideEnough(taken: seq<Command>, were: Flow) {
    && Total(taken) <= were.shared
    && forall i :: 0 <= i < |taken| ==> taken[i].payload == [] || |taken[i].payload| <= OwnWindow(were, taken[i].stream)
  }

  /** All of a command's payload has been sent but for what is beyond the budget of one pass. */
  predicate BeyondBudget(c: Command, taken: seq<Command>, were: Flow, now: Flow) {
    exists i :: 0 <= i < |taken| && IsRest(c, taken[i], were, now) && |taken[i].payload| == BUDGET + |c.payload|
  }

  /** Windows that hold all that a pass has taken leave nothing waiting but what is beyond its budget. */
  lemma OpenWindowsDrain(taken: seq<Command>, queue: seq<Command>, were: Flow, now: Flow, k: nat)
    requires AllStill(queue, taken, were, now) && Shared(were, now, Total(taken), 0, Total(queue)) && k < |queue|
    requires WideEnough(taken, were)
    ensures BeyondBudget(queue[k], taken, were, now)
  {
    var i :| 0 <= i < |taken| && IsRest(queue[k], taken[i], were, now);
    TotalIsMore(queue, k);
    assert Window(now, queue[k].stream) > 0;
  }

  // ---------------------------------------------------------------- what each step makes of a session

  /** All of a session between two steps. */
  datatype Shot = Shot(commands: seq<Command>, closedStreams: set<nat>, closed: bool, flow: Flow, refused: set<nat>, unsent: bool,
                       down: bool, wire: Streams, results: map<nat, bool>, accepted: nat, books: Books, failed: set<nat>)

  datatype Submission = Submission(stream: nat, kind: Kind, payload: seq<byte>)

  /** What happens between two passes. */
  datatype Between = Between(submissions: seq<Submission>, resets: set<nat>, refused: set<nat>, flow: Flow, down: bool)

  /** A submission: a handler that waits makes none, and a closed stream or session takes none. */
  function AfterSubmission(s: Shot, t: Submission): Shot {
    if Queued(s.commands, t.stream) || s.closed || t.stream in s.closedStreams then s
    else
      var c := Command(s.accepted, t.stream, t.kind, t.payload);
      s.(commands := s.commands + [c], accepted := s.accepted + 1, books := SubmitBooks(s.books, c))
  }

  function AfterSubmissions(s: Shot, ts: seq<Submission>): Shot
    decreases |ts|
  {
    if ts == [] then s else AfterSubmissions(AfterSubmission(s, ts[0]), ts[1..])
  }

  function AfterIncoming(s: Shot, t: Between): Shot {
    s.(closedStreams := s.closedStreams + t.resets, refused := t.refused, flow := t.flow, down := t.down)
  }

  /** A command gets its result. */
  function WithResult(s: Shot, c: Command, part: seq<Item>, ok: bool): Shot {
    s.(results := s.results[c.id := ok], failed := if ok then s.failed else s.failed + {c.stream},
       books := TurnBooks(s.books, c, part, !ok))
  }

  /** The turn of a command in a pass: h2 raises, or takes what it may; the rest goes back, or the socket is flushed. */
  function AfterTurn(s: Shot, c: Command): Shot {
    var w := Window(s.flow, c.stream);
    if Raises(c, s.closedStreams, s.refused, w) then WithResult(s, c, [], false)
    else
      var part := Part(c, w);
      var sent := s.(wire := Given(s.wire, c.stream, part), flow := Spent(s.flow, c.stream, Sent(c, w)), unsent := s.unsent || part != []);
      if PutsBack(c, w) then sent.(commands := s.commands + [Left(c, w)], books := TurnBooks(s.books, c, part, false))
      else WithResult(sent.(unsent := false), c, part, !(sent.unsent && s.down))
  }

  function AfterTurns(s: Shot, taken: seq<Command>): Shot
    decreases |taken|
  {
    if taken == [] then s else AfterTurns(AfterTurn(s, taken[0]), taken[1..])
  }

  function AfterPass(s: Shot): Shot { AfterTurns(s.(commands := []), s.commands).(unsent := false) }

  /** The flush at the end of a pass succeeds. */
  predicate Flushes(s: Shot) { !(AfterTurns(s.(commands := []), s.commands).unsent && s.down) }

  function AfterClosing(s: Shot): Shot
    decreases |s.commands|
  {
    if s.commands == [] then s
    else AfterClosing(WithResult(s, s.commands[0], [], false).(commands := s.commands[1..]))
  }

  /** A run up to its last pass, which is the first whose flush fails if there is one. */
  function AfterPasses(s: Shot, turns: seq<Between>): Shot
    decreases |turns|
  {
    if turns == [] || !Flushes(s) then AfterPass(s)
    else AfterPasses(AfterIncoming(AfterSubmissions(AfterPass(s), turns[0].submissions), turns[0]), turns[1..])
  }

  /** The start of that pass. */
  function LastPass(s: Shot, turns: seq<Between>): Shot
    decreases |turns|
  {
    if turns == [] || !Flushes(s) then s
    else LastPass(AfterIncoming(AfterSubmissions(AfterPass(s), turns[0].submissions), turns[0]), turns[1..])
  }

  lemma TurnsStep(s: Shot, taken: seq<Command>, i: nat)
    requires i < |taken|
    ensures AfterTurns(s, taken[i..]) == AfterTurns(AfterTurn(s, taken[i]), taken[i + 1..])
  {
    assert taken[i..][0] == taken[i] && taken[i..][1..] == taken[i + 1..];
  }

  lemma TurnsEnd()
    ensures forall s: Shot :: AfterTurns(s, []) == s
  {
  }

  /** The cases of a turn. */
  lemma TurnIs(s: Shot, c: Command)
    ensures var w := Window(s.flow, c.stream);
            var given := s.(wire := Given(s.wire, c.stream, Part(c, w)), flow := Spent(s.flow, c.stream, Sent(c, w)));
            && (Raises(c, s.closedStreams, s.refused, w) ==> AfterTurn(s, c) == WithResult(s, c, [], false))
            && (!Raises(c, s.closedStreams, s.refused, w) && PutsBack(c, w) ==>
                  AfterTurn(s, c) == given.(unsent := s.unsent || c.kind != Data || Sent(c, w) > 0, commands := s.commands + [Left(c, w)],
                                            books := TurnBooks(s.books, c, Part(c, w), false)))
            && (!Raises(c, s.closedStreams, s.refused, w) && !PutsBack(c, w) ==>
                  var unsent := s.unsent || c.kind != Data || Sent(c, w) > 0;
                  AfterTurn(s, c) == WithResult(given.(unsent := false), c, Part(c, w), !(unsent && s.down)))
    ensures [] <= Output(c)
    ensures !PutsBack(c, Window(s.flow, c.stream)) ==> Part(c, Window(s.flow, c.stream)) == Output(c)
  {
    PartAndRest(c, Window(s.flow, c.stream));
  }

  /**
   A command is put back exactly if h2 has no reason to raise and flow control or the budget leaves some
   of its payload; any other is completed, without an exception unless there is one or the socket is down.
   */
  lemma TurnMeans(s: Shot, c: Command)
    ensures var t, w := AfterTurn(s, c), Window(s.flow, c.stream);
            var raises := Raises(c, s.closedStreams, s.refused, w);
            var part := if raises then [] else Part(c, w);
            && t == s.(commands := t.commands, wire := t.wire, flow := t.flow, unsent := t.unsent, results := t.results,
                       failed := t.failed, books := t.books)
            && t.wire == Given(s.wire, c.stream, part)
            && t.flow == Spent(s.flow, c.stream, if raises then 0 else Sent(c, w))
            && t.books.script == s.books.script && t.books.again == s.books.again
            && if !raises && PutsBack(c, w) then
                 && t.commands == s.commands + [Left(c, w)] && t.results == s.results && t.failed == s.failed
                 && t.books == TurnBooks(s.books, c, part, false)
               else
                 && t.commands == s.commands && c.id in t.results && t.results == s.results[c.id := t.results[c.id]]
                 && t.failed == (if t.results[c.id] then s.failed else s.failed + {c.stream})
                 && t.books == TurnBooks(s.books, c, part, !t.results[c.id])
                 && (raises ==> !t.results[c.id]) && (!raises && !s.down ==> t.results[c.id])
  {
    hide Given, Spent, Part, Sent, Window, Output;
    NothingGiven(s.wire, s.flow, c);
  }

  /** The smaller of the two windows, and what h2 or the session raises for. */
  predicate IsOffer(s: Shot, c: Command, own: int, w: int, raises: bool, n: nat) {
    && own == (if c.stream in s.flow.own then s.flow.own[c.stream] else 0)
    && w == (if own < s.flow.shared then own else s.flow.shared)
    && (raises <==> c.stream in s.closedStreams || c.stream in s.refused || (c.kind == Data && c.payload != [] && w < 0))
    && n <= |c.payload|
    && n == if raises || c.kind != Data || w < 0 then 0
            else if |c.payload| <= w && |c.payload| <= 262144 then |c.payload|
            else if w <= 262144 then w else 262144
  }

  /**
   A turn, counted out: it sends the least of the payload, the smaller window and 256 KiB, to its own
   stream and in the order of the bytes, and takes that from both windows.
   */
  lemma TurnGives(s: Shot, c: Command, own: int, w: int, raises: bool, n: nat)
    requires IsOffer(s, c, own, w, raises, n)
    ensures var t := AfterTurn(s, c);
            && (forall id: nat :: id != c.stream ==> On(t.wire, id) == On(s.wire, id))
            && On(t.wire, c.stream) == On(s.wire, c.stream) +
                 (if raises then [] else match c.kind
                    case Headers => [Item(c.id, Head)]
                    case Data => seq(n, i requires 0 <= i < n => Item(c.id, Byte(c.payload[i])))
                    case End => [Item(c.id, Fin)])
            && t.flow.shared == s.flow.shared - n
            && (n > 0 ==> c.stream in t.flow.own && t.flow.own[c.stream] == own - n)
            && (forall id: nat :: id != c.stream ==> (id in t.flow.own <==> id in s.flow.own) && (id in s.flow.own ==> t.flow.own[id] == s.flow.own[id]))
  {
    hide AfterTurn, Window, OwnWindow, Raises, Sent, Part, PutsBack, Left, Output, TurnBooks, Given, Spent, On, IsOffer;
    TurnMeans(s, c);
    OfferIs(s, c, own, w, raises, n);
    SpentIs(s.flow, c.stream, n);
  }

  /** What is left of its payload waits behind the other commands; without any it has its result. */
  lemma TurnLeaves(s: Shot, c: Command, own: int, w: int, raises: bool, n: nat)
    requires IsOffer(s, c, own, w, raises, n)
    ensures n <= |c.payload|
    ensures var t := AfterTurn(s, c);
            if !raises && c.kind == Data && n < |c.payload| then
              t.commands == s.commands + [Command(c.id, c.stream, Data, c.payload[n..])] && t.results == s.results && t.failed == s.failed
            else
              && t.commands == s.commands && c.id in t.results && t.results == s.results[c.id := t.results[c.id]]
              && t.failed == (if t.results[c.id] then s.failed else s.failed + {c.stream})
              && (raises ==> !t.results[c.id]) && (!raises && !s.down ==> t.results[c.id])
  {
    hide AfterTurn, Window, OwnWindow, Raises, Sent, Part, PutsBack, Left, Output, TurnBooks, Given, Spent, IsOffer;
    TurnMeans(s, c);
    OfferIs(s, c, own, w, raises, n);
  }

  lemma SpentIs(f: Flow, stream: nat, n: nat)
    ensures var after := Spent(f, stream, n);
            && after.shared == f.shared - n
            && (n > 0 ==> stream in after.own && after.own[stream] == OwnWindow(f, stream) - n)
            && (forall id: nat :: id != stream ==> (id in after.own <==> id in f.own) && (id in f.own ==> after.own[id] == f.own[id]))
  {
  }

  lemma OfferIs(s: Shot, c: Command, own: int, w: int, raises: bool, n: nat)
    requires IsOffer(s, c, own, w, raises, n)
    ensures n <= |c.payload| && OwnWindow(s.flow, c.stream) == own && Window(s.flow, c.stream) == w
    ensures (Raises(c, s.closedStreams, s.refused, w) <==> raises) && (if raises then n == 0 else Sent(c, w) == n)
    ensures !raises ==>
              && (PutsBack(c, w) <==> c.kind == Data && n < |c.payload|) && Left(c, w) == c.(payload := c.payload[n..])
              && Part(c, w) == match c.kind
                   case Headers => [Item(c.id, Head)]
                   case Data => seq(n, i requires 0 <= i < n => Item(c.id, Byte(c.payload[i])))
                   case End => [Item(c.id, Fin)]
  {
  }

  // ---------------------------------------------------------------- the session

  class Session {
    const frame: nat                    // the longest frame h2 may send
    var commands: seq<Command>
    var pending: seq<Command>           // what the pass of `OutputPass` under way has taken and not looked at yet
    var closedStreams: set<nat>
    var closed: bool
    var flow: Flow
    var refused: set<nat>               // streams that h2 raises for in any case
    var unsent: bool                    // h2 holds bytes for the socket
    var down: bool                      // the socket raises
    var wire: Streams                   // what h2 was given to send
    var results: map<nat, bool>         // completed commands: without or with an exception
    var accepted: nat
    ghost var books: Books
    ghost var failed: set<nat>          // streams with a command that failed

    constructor (frame: nat)
      requires frame > 0
      ensures Valid() && this.frame == frame && accepted == 0 && !closed && pending == commands == []
      ensures flow == Flow(65535, map[]) && closedStreams == refused == failed == {} && !down && !unsent
      ensures wire == map[] && results == map[] && books == Books(map[], {}, {}, {})
    {
      this.frame := frame;
      commands, pending, closedStreams, closed := [], [], {}, false;
      flow, refused, unsent, down := Flow(65535, map[]), {}, false, false;
      wire, results, accepted, books, failed := map[], map[], 0, Books(map[], {}, {}, {}), {};
      new;
      forall s: nat ensures StreamFollows([], wire, books, results, s) {}
      assert pending + commands == [];
    }

    ghost function Now(): Shot
      reads this
    {
      Shot(commands, closedStreams, closed, flow, refused, unsent, down, wire, results, accepted, books, failed)
    }

    ghost predicate Valid()
      reads this
    {
      frame > 0 && Sound(pending + commands, wire, books, results, accepted) && books.gapped <= failed
    }

    /** submit, up to waiting for the result; the handler of a stream waits before it submits again. */
    method Submit(stream: nat, kind: Kind, payload: seq<byte>) returns (ok: bool)
      requires Valid() && !Queued(pending + commands, stream)
      modifies this`commands, this`accepted, this`books
      ensures Valid() && ok == !(closed || stream in closedStreams)
      ensures ok ==> var c := Command(old(accepted), stream, kind, payload);
                     accepted == old(accepted) + 1 && commands == old(commands) + [c] && books == SubmitBooks(old(books), c)
      ensures !ok ==> accepted == old(accepted) && commands == old(commands) && books == old(books)
      ensures pending == [] ==> Now() == AfterSubmission(old(Now()), Submission(stream, kind, payload))
    {
      hide Sound, Queued, Given, Output, SubmitBooks, AfterSubmission;
      NoPending(pending, commands);
      if pending == [] { SubmissionIs(Now(), Submission(stream, kind, payload)); }
      SubmitScript(books, Command(accepted, stream, kind, payload));
      if closed || stream in closedStreams { return false; }
      var c := Command(accepted, stream, kind, payload);
      SubmitKeeps(pending + commands, wire, books, results, accepted, c);
      assert (pending + commands) + [c] == pending + (commands + [c]);
      commands, accepted := commands + [c], accepted + 1;
      books := SubmitBooks(books, c);
      return true;
    }

    method Flush() returns (ok: bool)
      modifies this`unsent
      ensures ok == !(old(unsent) && down) && !unsent
    {
      ok := !(unsent && down);
      unsent := false;
    }

    method Give(stream: nat, items: seq<Item>)
      requires items != []
      modifies this`wire, this`unsent
      ensures wire == Given(old(wire), stream, items) && unsent
    {
      wire := Given(wire, stream, items);
      unsent := true;
    }

    /**
     The sending of a payload: as much as the windows and the budget allow, or an exception from h2,
     which comes exactly if there is something to send and a window is negative (section 6.9.2 of
     RFC 9113 lets it be).
     */
    method SendPayload(c: Command) returns (n: nat, ok: bool)
      requires frame > 0 && c.kind == Data
      modifies this`wire, this`unsent, this`flow
      ensures ok <==> c.payload == [] || Window(old(flow), c.stream) >= 0
      ensures n == Sent(c, Window(old(flow), c.stream))
      ensures wire == Given(old(wire), c.stream, Bytes(c.id, c.payload[..n])) && flow == Spent(old(flow), c.stream, n)
      ensures unsent == (old(unsent) || n > 0)
    {
      hide Bytes, Given, Spent, Window;
      var left, budget: nat := c.payload, BUDGET;
      n, ok := 0, true;
      ghost var w := Window(flow, c.stream);
      GivenNothing(wire, flow, c);
      while left != [] && budget != 0
        invariant n + budget == BUDGET && n <= |c.payload| && left == c.payload[n..]
        invariant wire == Given(old(wire), c.stream, Bytes(c.id, c.payload[..n])) && flow == Spent(old(flow), c.stream, n)
        invariant unsent == (old(unsent) || n > 0) && (n > 0 ==> n <= w)
        decreases |left|
      {
        SpentTwice(old(flow), c.stream, n, 0);
        var size := FrameSize(|left|, Window(flow, c.stream), frame, budget);
        if size == 0 { break; }
        if size < 0 { return n, false; }
        SpentTwice(old(flow), c.stream, n, size);
        GivenTwice(old(wire), c, n, n + size);
        assert left[..size] == c.payload[n..n + size];
        SendData(c.stream, c.id, left[..size]);
        left, budget, n := left[size..], budget - size, n + size;
      }
    }

    method SendData(stream: nat, id: nat, data: seq<byte>)
      requires data != [] && |data| <= Window(flow, stream) && |data| <= frame
      modifies this`wire, this`unsent, this`flow
      ensures wire == Given(old(wire), stream, Bytes(id, data)) && flow == Spent(old(flow), stream, |data|) && unsent
    {
      Give(stream, Bytes(id, data));
      flow := Spent(flow, stream, |data|);
    }

    /** One command of a pass: a turn as described above, which gives it its first result or none. */
    method Process()
      requires Valid() && pending != []
      modifies this`pending, this`commands, this`wire, this`results, this`flow, this`unsent, this`failed, this`books
      ensures Valid() && pending == old(pending)[1..] && Now() == AfterTurn(old(Now()), old(pending[0]))
      ensures old(pending[0]).id !in old(results)
    {
      hide Sound, Bytes, Output, Given, Spent, TurnBooks, WithResult, AfterTurn, Part, PutsBack, Sent, Raises, Window;
      ghost var queue, before := pending + commands, Now();
      var c := pending[0];
      assert queue[0] == c && queue[1..] == pending[1..] + commands;
      TurnIs(before, c);
      pending := pending[1..];
      var left, raised := Offer(c);
      Settle(c, left, raised, queue, before);
    }

    /** What becomes of a command after its turn. */
    method Settle(c: Command, left: seq<byte>, raised: bool, ghost queue: seq<Command>, ghost before: Shot)
      requires frame > 0 && queue != [] && c == queue[0] && queue[1..] == pending + commands
      requires Sound(queue, before.wire, books, results, accepted) && books.gapped <= failed
      requires var w := Window(before.flow, c.stream);
               && Now() == before.(wire := wire, flow := flow, unsent := unsent)
               && raised == Raises(c, before.closedStreams, before.refused, w)
               && (if raised then wire == Given(wire, c.stream, []) && Now() == before
                   else
                     && wire == Given(before.wire, c.stream, Part(c, w)) && flow == Spent(before.flow, c.stream, Sent(c, w))
                     && unsent == (before.unsent || c.kind != Data || Sent(c, w) > 0)
                     && (left != [] <==> PutsBack(c, w)) && (PutsBack(c, w) ==> left == c.payload[Sent(c, w)..]))
      modifies this`commands, this`results, this`failed, this`books, this`unsent
      ensures Valid() && Now() == AfterTurn(before, c) && c.id !in before.results
    {
      hide Sound, Bytes, Output, Given, Spent, TurnBooks, WithResult, AfterTurn, Part, PutsBack, Sent, Raises, Window;
      TurnIs(before, c);
      if raised {
        Complete(c, false, queue, before.wire, []);
      } else if left != [] {
        PutBack(c, left, Window(before.flow, c.stream), queue, before.wire);
      } else {
        Finish(c, queue, before.wire);
      }
    }

    /** The end of a turn that gave h2 all of a command. */
    method Finish(c: Command, ghost queue: seq<Command>, ghost was: Streams)
      requires frame > 0 && queue != [] && c == queue[0] && queue[1..] == pending + commands
      requires Sound(queue, was, books, results, accepted) && books.gapped <= failed && wire == Given(was, c.stream, Output(c))
      modifies this`results, this`failed, this`books, this`unsent
      ensures Valid() && c.id !in old(results)
      ensures Now() == WithResult(old(Now()).(unsent := false), c, Output(c), !(old(unsent) && down))
    {
      hide Sound, Output, Given, WithResult;
      var flushed := Flush();
      Complete(c, flushed, queue, was, Output(c));
    }

    /** Gives h2 what it takes of a command: the payload left over, or an exception. */
    method Offer(c: Command) returns (left: seq<byte>, raised: bool)
      requires frame > 0
      modifies this`wire, this`unsent, this`flow
      ensures raised == Raises(c, closedStreams, refused, Window(old(flow), c.stream))
      ensures raised ==> wire == Given(old(wire), c.stream, []) && wire == old(wire) && flow == old(flow) && unsent == old(unsent)
      ensures !raised ==>
                var w := Window(old(flow), c.stream);
                && wire == Given(old(wire), c.stream, Part(c, w)) && flow == Spent(old(flow), c.stream, Sent(c, w))
                && unsent == (old(unsent) || c.kind != Data || Sent(c, w) > 0)
                && (left != [] <==> PutsBack(c, w)) && (PutsBack(c, w) ==> left == c.payload[Sent(c, w)..])
    {
      hide Bytes, Output, Given, Spent, Window;
      NothingGiven(wire, flow, c);
      if c.stream in closedStreams || c.stream in refused { return [], true; }
      if c.kind != Data {
        Give(c.stream, Output(c));
        return [], false;
      }
      var n, ok := SendPayload(c);
      return c.payload[n..], !ok;
    }

    method PutBack(c: Command, left: seq<byte>, ghost w: int, ghost queue: seq<Command>, ghost was: Streams)
      requires frame > 0 && queue != [] && c == queue[0] && queue[1..] == pending + commands
      requires Sound(queue, was, books, results, accepted) && books.gapped <= failed
      requires PutsBack(c, w) && left == c.payload[Sent(c, w)..] && wire == Given(was, c.stream, Part(c, w))
      modifies this`commands, this`books
      ensures Valid() && c.id !in results
      ensures Now() == old(Now()).(commands := old(commands) + [Left(c, w)], books := TurnBooks(old(books), c, Part(c, w), false))
    {
      hide Sound, Output, Given, TurnBooks, Part, PutsBack, Sent;
      PutBackKeeps(queue, was, books, results, accepted, w);
      TurnGaps(books, c, Part(c, w), false);
      commands, books := commands + [c.(payload := left)], TurnBooks(books, c, Part(c, w), false);
      assert queue[1..] + [Left(c, w)] == pending + commands;
    }

    /** The event that a submitter waits for is set, with or without an exception. */
    method Complete(c: Command, ok: bool, ghost queue: seq<Command>, ghost was: Streams, ghost part: seq<Item>)
      requires frame > 0 && queue != [] && c == queue[0] && queue[1..] == pending + commands
      requires Sound(queue, was, books, results, accepted) && books.gapped <= failed
      requires part <= Output(c) && (ok ==> part == Output(c)) && wire == Given(was, c.stream, part)
      modifies this`results, this`failed, this`books
      ensures Valid() && c.id !in old(results) && Now() == WithResult(old(Now()), c, part, ok)
    {
      hide Sound, Output, Given, TurnBooks;
      CompleteKeeps(queue, was, books, results, accepted, part, ok);
      TurnGaps(books, c, part, !ok);
      results, books := results[c.id := ok], TurnBooks(books, c, part, !ok);
      if !ok { failed := failed + {c.stream}; }
    }

    ghost function Environment(): Env
      reads this
    {
      Env(closedStreams, refused, flow, down)
    }

    /** The swap under the lock that a pass starts with. */
    method TakeCommands()
      requires Valid() && pending == []
      modifies this`pending, this`commands
      ensures Valid() && pending == old(commands) && commands == []
    {
      hide Sound;
      assert pending + commands == commands + [];
      pending, commands := commands, [];
    }

    /**
     One pass over the commands that are there when it starts. Those that h2 has a reason to raise for
     fail; any other has its result, without an exception unless the socket is down, or is back in the
     queue with less to send because its budget or a window is used up. Streams fail by nothing else,
     and windows wide enough leave nothing waiting but what is beyond the budget.
     */
    method OutputPass() returns (ok: bool)
      requires Valid() && pending == []
      modifies this`pending, this`commands, this`wire, this`results, this`flow, this`unsent, this`failed, this`books
      ensures Valid() && pending == []
      ensures Judged(old(commands), commands, results, old(Environment())) && Blames(old(commands), results, old(failed), failed)
      ensures AllStill(commands, old(commands), old(flow), flow)
      ensures Extends(old(results), results) && books.script == old(books.script) && books.again == old(books.again)
      ensures WideEnough(old(commands), old(flow)) ==>
                forall k :: 0 <= k < |commands| ==> BeyondBudget(commands[k], old(commands), old(flow), flow)
      ensures Now() == AfterPass(old(Now())) && ok == Flushes(old(Now()))
    {
      hide Sound, OneEach, InPass, Judged, Blames, AllStill, Extends, BeyondBudget, WideEnough, Total, Fails, Window, AfterTurn, AfterTurns;
      TurnsEnd();
      ghost var start := Now().(commands := []);
      ghost var taken, env, before, known := commands, Environment(), failed, results;
      assert pending + commands == taken && taken[0..] == taken;
      PassMayStart(taken, wire, books, results, accepted);
      TakeCommands();
      PassStarts(env, taken, results, failed);
      ExtendsItself(known);
      ghost var i := 0;
      while pending != []
        invariant Valid() && 0 <= i <= |taken| && pending == taken[i..]
        invariant InPass(env, taken, i, commands, results, flow, before, failed)
        invariant Extends(known, results) && books.script == old(books.script) && books.again == old(books.again)
        invariant AfterTurns(Now(), taken[i..]) == AfterTurns(start, taken)
        decreases |taken| - i
      {
        TurnsStep(Now(), taken, i);
        Turn(env, taken, i, before, known);
        i := i + 1;
      }
      PassEnds(env, taken, commands, results, flow, before, failed);
      ok := Flush();
    }

    /** Processing one command of a pass, said about the pass. */
    method Turn(ghost env: Env, ghost taken: seq<Command>, ghost i: nat, ghost before: set<nat>, ghost known: map<nat, bool>)
      requires Valid() && i < |taken| && pending == taken[i..] && env == Env(closedStreams, refused, env.flow, down)
      requires InPass(env, taken, i, commands, results, flow, before, failed) && Extends(known, results)
      modifies this`pending, this`commands, this`wire, this`results, this`flow, this`unsent, this`failed, this`books
      ensures Valid() && pending == taken[i + 1..]
      ensures InPass(env, taken, i + 1, commands, results, flow, before, failed) && Extends(known, results)
      ensures books.script == old(books.script) && books.again == old(books.again) && Now() == AfterTurn(old(Now()), taken[i])
    {
      hide Sound, OneEach, InPass, Queued, Given, Spent, Raises, PutsBack, Sent, Window, AfterTurn;
      assert taken[i..][0] == taken[i] && taken[i..][1..] == taken[i + 1..];
      ghost var waiting, was, windows, blamed := commands, results, flow, failed;
      CommandsDiffer(pending, commands, wire, books, results, accepted);
      TurnMeans(Now(), taken[i]);
      Process();
      TurnKeepsPass(env, taken, i, waiting, was, windows, before, blamed, commands, results, flow, failed);
    }

    /** What the peer and the socket may change between two passes. */
    method Incoming(resets: set<nat>, refused: set<nat>, flow: Flow, down: bool)
      requires Valid()
      modifies this`closedStreams, this`refused, this`flow, this`down
      ensures Valid() && Environment() == Env(old(closedStreams) + resets, refused, flow, down)
      ensures Now() == old(Now()).(closedStreams := closedStreams, refused := refused, flow := flow, down := down)
    {
      hide Sound;
      closedStreams := closedStreams + resets;
      this.refused, this.flow, this.down := refused, flow, down;
    }

    /** The end of run: exactly what is still queued fails, and nothing more is accepted or sent. */
    method Close()
      requires Valid() && pending == []
      modifies this`closed, this`commands, this`results, this`failed, this`books
      ensures Valid() && Now() == AfterClosing(old(Now()).(closed := true)) && closed && commands == []
      ensures forall id: nat :: id < accepted ==> id in results
      ensures forall id: nat :: id in results ==> if Waits(old(commands), id) then !results[id] else id in old(results) && results[id] == old(results)[id]
      ensures Extends(old(results), results) && forall id: nat :: Waits(old(commands), id) ==> Fails(results, id)
      ensures forall s: nat :: s in failed <==> s in old(failed) || Queued(old(commands), s)
      ensures forall s: nat :: s in books.gapped ==> s in old(books.gapped) || Queued(old(commands), s)
      ensures books.script == old(books.script) && books.again == old(books.again) && books.late == old(books.late)
    {
      hide Sound, Queued, Waits, Extends, Fails, WithResult, AfterClosing;
      ghost var start := Now().(closed := true);
      assert [] + commands == commands;
      ClosingMeans(start);
      closed := true;
      while commands != []
        invariant Valid() && AfterClosing(Now()) == AfterClosing(start)
        decreases |commands|
      {
        ClosingStep(Now());
        CloseOne();
      }
      ClosingStep(Now());
      assert [] + commands == [];
      NothingWaits(wire, books, results, accepted);
    }

    method CloseOne()
      requires Valid() && pending == [] && commands != []
      modifies this`commands, this`results, this`failed, this`books
      ensures Valid() && Now() == WithResult(old(Now()), old(commands)[0], [], false).(commands := old(commands)[1..])
    {
      hide Sound, Output, Given, TurnBooks;
      ghost var queue := commands;
      assert [] + queue == queue && [] + queue[1..] == queue[1..];
      GivenNone(wire, queue[0]);
      var c := commands[0];
      commands := commands[1..];
      Complete(c, false, queue, wire, []);
    }

    /** Handler threads at work: one that waits submits nothing, whatever it was told of earlier commands. */
    method Handlers(submissions: seq<Submission>)
      requires Valid() && pending == []
      modifies this`commands, this`accepted, this`books
      ensures Valid() && Now() == AfterSubmissions(old(Now()), submissions)
    {
      hide Sound, Queued, Output, Given, AfterSubmission;
      ghost var start := Now();
      var i := 0;
      assert submissions[0..] == submissions;
      while i < |submissions|
        invariant 0 <= i <= |submissions| && Valid()
        invariant AfterSubmissions(Now(), submissions[i..]) == AfterSubmissions(start, submissions)
      {
        var t := submissions[i];
        assert submissions[i..][0] == t && submissions[i..][1..] == submissions[i + 1..];
        assert pending + commands == commands;
        WaitingSubmitsNothing(Now(), t);
        if !Queued(pending + commands, t.stream) {
          var ok := Submit(t.stream, t.kind, t.payload);
        }
        i := i + 1;
      }
    }

    /**
     run: passes, and between them whatever handlers submit and the peer sends, until the connection
     ends. What it does is fixed step by step; in the end every accepted command has its result. A stream
     without a failure was sent all of its script. Before the end a stream fails only if, at the start of a
     pass, it was reset or refused, its window or the connection's was negative, or the socket was down;
     and the end fails exactly what the last pass left waiting, for its budget or a window, or was
     submitted after that pass.
     */
    method Run(turns: seq<Between>, last: seq<Submission>)
      requires Valid() && pending == []
      modifies this
      ensures Valid() && closed && pending == [] && commands == []
      ensures var found := AfterSubmissions(AfterPasses(old(Now()), turns), last);
              && Now() == AfterClosing(found.(closed := true))
              && (forall id: nat :: Waits(found.commands, id) ==> Fails(results, id))
              && (forall s: nat :: s in failed ==>
                    s in old(failed) || Queued(found.commands, s) || HadTrouble(old(Environment()), turns, s))
      ensures forall id: nat :: id < accepted ==> id in results
      ensures Extends(old(results), results)
      ensures forall s: nat :: s !in failed ==> On(wire, s) == On(books.script, s)
      ensures forall s: nat :: On(wire, s) <= On(books.script, s) <==> s !in books.late
      ensures books.late <= books.again * books.gapped && books.gapped <= failed
      ensures Waited(LastPass(old(Now()), turns), AfterPasses(old(Now()), turns))
    {
      hide Sound, On, Queued, Waits, Extends, Waited, AfterPasses, LastPass, AfterSubmissions, AfterClosing, Fails, HadTrouble;
      ghost var start, known := Now(), results;
      Passes(turns);
      ghost var was := results;
      Handlers(last);
      SubmissionsOnlyQueue(AfterPasses(start, turns), last);
      Close();
      ExtendsFurther(known, was, results);
      assert pending + commands == [];
      Conclude(wire, books, results, accepted, failed);
    }

    /** A run without its end. */
    method Passes(turns: seq<Between>)
      requires Valid() && pending == []
      modifies this`pending, this`commands, this`wire, this`results, this`flow, this`unsent, this`failed, this`books, this`accepted,
        this`closedStreams, this`refused, this`down
      ensures Valid() && pending == [] && Now() == AfterPasses(old(Now()), turns)
      ensures Extends(old(results), results) && Waited(LastPass(old(Now()), turns), Now())
      ensures forall s: nat :: s in failed ==> s in old(failed) || HadTrouble(old(Environment()), turns, s)
    {
      hide Sound, AllStill, WideEnough, BeyondBudget, Blames, Judged, Extends, StreamTrouble, Waited, AfterPass, Flushes,
        AfterSubmissions, AfterIncoming, HadTrouble, BlamedFor;
      ghost var start, env, before, known := Now(), Environment(), failed, results;
      ghost var begin := start;
      assert turns[0..] == turns;
      var i := 0;
      var ok := OutputPass();
      TroubleSoFar(env, turns, 0, before, before, begin.commands, commands, results, failed);
      PassWaited(begin, Now());
      while ok && i < |turns|
        invariant 0 <= i <= |turns| && Valid() && pending == []
        invariant Environment().(flow := EnvOf(env, turns, i).flow) == EnvOf(env, turns, i)
        invariant Extends(known, results) && BlamedFor(env, turns, i, before, failed)
        invariant Now() == AfterPass(begin) && ok == Flushes(begin) && Waited(begin, Now())
        invariant AfterPasses(begin, turns[i..]) == AfterPasses(start, turns) && LastPass(begin, turns[i..]) == LastPass(start, turns)
      {
        ghost var blamed, was := failed, results;
        assert turns[i..][0] == turns[i] && turns[i..][1..] == turns[i + 1..];
        Between(turns[i]);
        begin := Now();
        ok := OutputPass();
        ExtendsFurther(known, was, results);
        TroubleSoFar(env, turns, i + 1, before, blamed, begin.commands, commands, results, failed);
        PassWaited(begin, Now());
        i := i + 1;
      }
      BlamedInTheEnd(env, turns, i, before, failed);
    }

    /** What happens between two passes. */
    method Between(t: Between)
      requires Valid() && pending == []
      modifies this`commands, this`accepted, this`books, this`closedStreams, this`refused, this`flow, this`down
      ensures Valid() && Now() == AfterIncoming(AfterSubmissions(old(Now()), t.submissions), t)
      ensures results == old(results) && failed == old(failed)
      ensures Environment() == Env(old(closedStreams) + t.resets, t.refused, t.flow, t.down)
    {
      hide Sound, AfterSubmissions;
      Handlers(t.submissions);
      Incoming(t.resets, t.refused, t.flow, t.down);
    }
  }

  lemma ClosingStep(s: Shot)
    ensures AfterClosing(s) ==
            if s.commands == [] then s
            else AfterClosing(WithResult(s, s.commands[0], [], false).(commands := s.commands[1..]))
  {
  }

  lemma SubmitScript(b: Books, c: Command)
    ensures SubmitBooks(b, c).gapped == b.gapped && SubmitBooks(b, c).late == b.late
  {
  }

  lemma NoPending(pending: seq<Command>, commands: seq<Command>)
    ensures pending == [] ==> pending + commands == commands
  {
  }

  lemma SubmissionIs(s: Shot, t: Submission)
    requires !Queued(s.commands, t.stream)
    ensures var c := Command(s.accepted, t.stream, t.kind, t.payload);
            AfterSubmission(s, t) ==
            if s.closed || t.stream in s.closedStreams then s
            else s.(commands := s.commands + [c], accepted := s.accepted + 1, books := SubmitBooks(s.books, c))
  {
  }

  lemma WaitingSubmitsNothing(s: Shot, t: Submission)
    ensures Queued(s.commands, t.stream) ==> AfterSubmission(s, t) == s
  {
  }

  /** Submissions change the queue and what is expected, and nothing else. */
  lemma {:induction false} SubmissionsOnlyQueue(s: Shot, ts: seq<Submission>)
    ensures var t := AfterSubmissions(s, ts);
            t == s.(commands := t.commands, accepted := t.accepted, books := t.books)
    decreases |ts|
  {
    if ts != [] { SubmissionsOnlyQueue(AfterSubmission(s, ts[0]), ts[1..]); }
  }

  /** What a pass leaves waits for its budget or a window, and only beyond the budget if the windows are wide enough. */
  ghost predicate Waited(before: Shot, after: Shot) {
    && AllStill(after.commands, before.commands, before.flow, after.flow)
    && (WideEnough(before.commands, before.flow) ==>
          forall k :: 0 <= k < |after.commands| ==> BeyondBudget(after.commands[k], before.commands, before.flow, after.flow))
  }

  lemma PassWaited(before: Shot, after: Shot)
    requires AllStill(after.commands, before.commands, before.flow, after.flow)
    requires WideEnough(before.commands, before.flow) ==>
               forall k :: 0 <= k < |after.commands| ==> BeyondBudget(after.commands[k], before.commands, before.flow, after.flow)
    ensures Waited(before, after)
  {
  }

  /**
   A handler that swallows an exception: stream 1 is open, but a SETTINGS frame has made its window
   negative when the handler writes one byte; the byte is lost, and the end is sent all the same.
   */
  method SwallowFailure() returns (s: Session)
    ensures s.Valid() && 1 !in s.closedStreams && 1 !in s.refused && !s.down
    ensures s.results == map[0 := true, 1 := false, 2 := true]
    ensures On(s.books.script, 1) == [Item(0, Head), Item(1, Byte(65)), Item(2, Fin)]
    ensures On(s.wire, 1) == [Item(0, Head), Item(2, Fin)]
  {
    hide Sound;
    s := new Session(16384);
    Submitted(s, Headers, []);
    s.Incoming({}, {}, Resettled(Flow(5535, map[1 := 5535]), 65535, 1000), false);
    Submitted(s, Data, [65]);
    Submitted(s, End, []);
  }

  /** The same, but the peer resets the stream before the end has its turn: what was sent stays a beginning. */
  method SwallowFailureAndReset() returns (s: Session)
    ensures s.Valid() && s.results == map[0 := true, 1 := false, 2 := false]
    ensures On(s.books.script, 1) == [Item(0, Head), Item(1, Byte(65)), Item(2, Fin)]
    ensures On(s.wire, 1) == [Item(0, Head)]
  {
    hide Sound;
    s := new Session(16384);
    Submitted(s, Headers, []);
    s.Incoming({}, {}, Resettled(Flow(5535, map[1 := 5535]), 65535, 1000), false);
    Submitted(s, Data, [65]);
    ResetBeforeTurn(s);
  }

  /** The end is submitted on stream 1, which is then reset before the turn. */
  method ResetBeforeTurn(s: Session)
    requires s.Valid() && s.pending == s.commands == [] && !s.closed && 1 !in s.closedStreams
    modifies s
    ensures s.Valid() && s.results == old(s.results)[old(s.accepted) := false]
    ensures On(s.books.script, 1) == On(old(s.books.script), 1) + [Item(old(s.accepted), Fin)]
    ensures On(s.wire, 1) == On(old(s.wire), 1)
  {
    hide Sound, On, Given, Queued, AfterTurn, AfterSubmission;
    assert s.pending + s.commands == [];
    NoneQueued(1);
    var ok := s.Submit(1, End, []);
    s.Incoming({1}, {}, s.flow, false);
    s.TakeCommands();
    ghost var c := s.pending[0];
    TurnMeans(s.Now(), c);
    s.Process();
    assert On(s.wire, 1) == On(old(s.wire), 1) + [];
  }

  /** One submission on stream 1 and its turn. */
  method Submitted(s: Session, kind: Kind, payload: seq<byte>)
    requires s.Valid() && s.pending == s.commands == [] && !s.closed && 1 !in s.closedStreams && 1 !in s.refused && !s.down
    requires kind == Data && payload != [] ==> Window(s.flow, 1) < 0
    modifies s
    ensures s.Valid() && s.pending == s.commands == [] && !s.closed && !s.down && s.flow == old(s.flow)
    ensures s.closedStreams == old(s.closedStreams) && s.refused == old(s.refused) && s.accepted == old(s.accepted) + 1
    ensures var c := Command(old(s.accepted), 1, kind, payload);
            && s.results == old(s.results)[c.id := kind != Data || payload == []]
            && On(s.books.script, 1) == On(old(s.books.script), 1) + Output(c)
            && On(s.wire, 1) == On(old(s.wire), 1) + if kind == Data then [] else Output(c)
  {
    hide Sound, On, Given, Queued, AfterTurn, AfterSubmission;
    assert s.pending + s.commands == [];
    NoneQueued(1);
    var ok := s.Submit(1, kind, payload);
    s.TakeCommands();
    ghost var c := s.pending[0];
    TurnMeans(s.Now(), c);
    s.Process();
  }

  lemma NoneQueued(s: nat)
    ensures !Queued([], s)
  {
  }

  /** What holds at the start of a pass. */
  function EnvOf(start: Env, turns: seq<Between>, k: nat): Env
    requires k <= |turns|
  {
    if k == 0 then start
    else
      var t := turns[k - 1];
      Env(EnvOf(start, turns, k - 1).closedStreams + t.resets, t.refused, t.flow, t.down)
  }

  /** Why a command of a stream may fail. */
  predicate StreamTrouble(env: Env, s: nat) {
    s in env.closedStreams || s in env.refused || Window(env.flow, s) < 0 || env.down
  }

  ghost predicate HadTrouble(start: Env, turns: seq<Between>, s: nat) {
    exists k :: 0 <= k <= |turns| && StreamTrouble(EnvOf(start, turns, k), s)
  }

  /** After pass k a stream that failed had trouble at the start of one of the passes. */
  ghost predicate BlamedFor(start: Env, turns: seq<Between>, k: nat, before: set<nat>, failed: set<nat>) {
    && k <= |turns|
    && forall s: nat :: s in failed ==> s in before || exists j :: 0 <= j <= k && StreamTrouble(EnvOf(start, turns, j), s)
  }

  lemma TroubleSoFar(start: Env, turns: seq<Between>, k: nat, before: set<nat>, was: set<nat>, taken: seq<Command>,
                     commands: seq<Command>, results: map<nat, bool>, failed: set<nat>)
    requires k <= |turns| && (if k == 0 then was == before else BlamedFor(start, turns, k - 1, before, was))
    requires Judged(taken, commands, results, EnvOf(start, turns, k)) && Blames(taken, results, was, failed)
    ensures BlamedFor(start, turns, k, before, failed)
  {
    hide Window, EnvOf;
    forall s: nat | s in failed && s !in before ensures exists j :: 0 <= j <= k && StreamTrouble(EnvOf(start, turns, j), s) {
      if s in was {
        var j :| 0 <= j <= k - 1 && StreamTrouble(EnvOf(start, turns, j), s);
      } else {
        assert FailedOne(taken, results, s);
        assert StreamTrouble(EnvOf(start, turns, k), s);
      }
    }
  }

  lemma BlamedInTheEnd(start: Env, turns: seq<Between>, k: nat, before: set<nat>, failed: set<nat>)
    requires BlamedFor(start, turns, k, before, failed)
    ensures forall s: nat :: s in failed ==> s in before || HadTrouble(start, turns, s)
  {
    hide StreamTrouble;
  }

  lemma ExtendsFurther(a: map<nat, bool>, b: map<nat, bool>, c: map<nat, bool>)
    requires Extends(a, b) && Extends(b, c)
    ensures Extends(a, c)
  {
  }

  lemma Conclude(wire: Streams, b: Books, results: map<nat, bool>, accepted: nat, failed: set<nat>)
    requires Sound([], wire, b, results, accepted) && b.gapped <= failed
    ensures forall s: nat :: s !in failed ==> On(wire, s) == On(b.script, s)
    ensures forall s: nat :: On(wire, s) <= On(b.script, s) <==> s !in b.late
    ensures b.late <= b.again * b.gapped
  {
    hide On;
    forall s: nat
      ensures s !in failed ==> On(wire, s) == On(b.script, s)
      ensures On(wire, s) <= On(b.script, s) <==> s !in b.late
      ensures s in b.late ==> s in b.again && s in b.gapped
    {
      OutputFollowsTheScript([], wire, b, results, accepted, s);
      assert !Queued([], s);
    }
  }

  lemma TurnGaps(b: Books, c: Command, part: seq<Item>, lost: bool)
    ensures var after := TurnBooks(b, c, part, lost);
            && after.gapped == (if lost && part != Output(c) then b.gapped + {c.stream} else b.gapped)
            && after.script == b.script && after.again == b.again
  {
  }

  lemma NothingGained(b: Books, c: Command)
    ensures var after := TurnBooks(b, c, [], true);
            after == b.(gapped := after.gapped) && b.gapped <= after.gapped <= b.gapped + {c.stream}
  {
  }

  /** Closing has failed those of `all` that are no longer in `queue`, and nothing else. */
  ghost predicate ClosedSoFar(all: seq<Command>, queue: seq<Command>, known: map<nat, bool>, results: map<nat, bool>,
                              blamed: set<nat>, failed: set<nat>, gapped: set<nat>, gaps: set<nat>) {
    && (forall id: nat :: Waits(queue, id) ==> Waits(all, id))
    && (forall id: nat :: Waits(all, id) ==> Waits(queue, id) || id in results)
    && (forall s: nat :: Queued(queue, s) ==> Queued(all, s))
    && Extends(known, results)
    && (forall id: nat :: id in results ==> if Waits(all, id) then !results[id] else id in known)
    && (forall s: nat :: (s in failed || Queued(queue, s)) <==> (s in blamed || Queued(all, s)))
    && (forall s: nat :: s in gaps ==> s in gapped || Queued(all, s))
  }

  /** Closing fails exactly the commands that are queued, and sends nothing. */
  lemma ClosingMeans(s: Shot)
    requires Sound(s.commands, s.wire, s.books, s.results, s.accepted)
    ensures var t := AfterClosing(s);
            && t == s.(commands := [], results := t.results, failed := t.failed, books := t.books)
            && t.books == s.books.(gapped := t.books.gapped)
            && Extends(s.results, t.results) && (forall id: nat :: Waits(s.commands, id) ==> Fails(t.results, id))
            && (forall id: nat :: id in t.results ==>
                  if Waits(s.commands, id) then !t.results[id] else id in s.results && t.results[id] == s.results[id])
            && (forall n: nat :: n in t.failed <==> n in s.failed || Queued(s.commands, n))
            && (forall n: nat :: n in t.books.gapped ==> n in s.books.gapped || Queued(s.commands, n))
  {
    ClosedNothing(s);
    ClosingKeeps(s, s.commands, s.results, s.failed, s.books.gapped);
    var t := AfterClosing(s);
    hide Sound, AfterClosing, Extends, Fails;
    ClosingEnds(s.commands, s.results, t.results, s.failed, t.failed, s.books.gapped, t.books.gapped);
  }

  lemma ClosedNothing(s: Shot)
    requires Sound(s.commands, s.wire, s.books, s.results, s.accepted)
    ensures ClosedSoFar(s.commands, s.commands, s.results, s.results, s.failed, s.failed, s.books.gapped, s.books.gapped)
    ensures OneEach(s.commands) && forall id: nat :: Waits(s.commands, id) ==> id !in s.results
  {
  }

  lemma {:induction false} ClosingKeeps(s: Shot, all: seq<Command>, known: map<nat, bool>, blamed: set<nat>, gapped: set<nat>)
    requires ClosedSoFar(all, s.commands, known, s.results, blamed, s.failed, gapped, s.books.gapped)
    requires OneEach(s.commands) && forall id: nat :: Waits(s.commands, id) ==> id !in s.results
    ensures var t := AfterClosing(s);
            && t == s.(commands := [], results := t.results, failed := t.failed, books := t.books)
            && t.books == s.books.(gapped := t.books.gapped)
            && ClosedSoFar(all, [], known, t.results, blamed, t.failed, gapped, t.books.gapped)
    decreases |s.commands|
  {
    hide ClosedSoFar, Waits, Queued, OneEach, TurnBooks, Output;
    if s.commands != [] {
      var c := s.commands[0];
      NothingGained(s.books, c);
      FirstIsAlone(s.commands);
      QueueOfFewer(s.commands);
      ClosesOne(all, s.commands, known, s.results, blamed, s.failed, gapped, s.books.gapped, TurnBooks(s.books, c, [], true).gapped);
      ClosingKeeps(WithResult(s, c, [], false).(commands := s.commands[1..]), all, known, blamed, gapped);
    }
  }

  lemma ClosesOne(all: seq<Command>, queue: seq<Command>, known: map<nat, bool>, results: map<nat, bool>, blamed: set<nat>,
                  failed: set<nat>, gapped: set<nat>, gaps: set<nat>, now: set<nat>)
    requires queue != [] && ClosedSoFar(all, queue, known, results, blamed, failed, gapped, gaps)
    requires gaps <= now <= gaps + {queue[0].stream}
    ensures queue[0].id !in results ==>
              ClosedSoFar(all, queue[1..], known, results[queue[0].id := false], blamed, failed + {queue[0].stream}, gapped, now)
  {
    hide Queued, Waits;
    QueueOfFewer(queue);
  }

  lemma ClosingEnds(all: seq<Command>, known: map<nat, bool>, results: map<nat, bool>, blamed: set<nat>, failed: set<nat>,
                    gapped: set<nat>, gaps: set<nat>)
    requires ClosedSoFar(all, [], known, results, blamed, failed, gapped, gaps)
    ensures Extends(known, results)
    ensures forall id: nat :: id in results ==> if Waits(all, id) then !results[id] else id in known && results[id] == known[id]
    ensures forall id: nat :: Waits(all, id) ==> Fails(results, id)
    ensures forall s: nat :: s in failed <==> s in blamed || Queued(all, s)
    ensures forall s: nat :: s in gaps ==> s in gapped || Queued(all, s)
  {
    assert forall s: nat :: !Queued([], s);
    assert forall id: nat :: !Waits([], id);
    hide Waits;
  }

  lemma ExtendsItself(results: map<nat, bool>)
    ensures Extends(results, results)
  {
  }

  lemma PassMayStart(taken: seq<Command>, wire: Streams, b: Books, results: map<nat, bool>, accepted: nat)
    requires Sound(taken, wire, b, results, accepted)
    ensures OneEach(taken)
  {
  }

  lemma CommandsDiffer(pending: seq<Command>, commands: seq<Command>, wire: Streams, b: Books, results: map<nat, bool>, accepted: nat)
    requires Sound(pending + commands, wire, b, results, accepted) && pending != []
    ensures !Queued(commands, pending[0].stream)
  {
    var all := pending + commands;
    forall k | 0 <= k < |commands| ensures commands[k].stream != pending[0].stream {
      assert all[|pending| + k] == commands[k] && all[0] == pending[0];
    }
  }

  lemma PassEnds(env: Env, taken: seq<Command>, commands: seq<Command>, results: map<nat, bool>, flow: Flow, before: set<nat>, failed: set<nat>)
    requires InPass(env, taken, |taken|, commands, results, flow, before, failed)
    ensures Judged(taken, commands, results, env) && Blames(taken, results, before, failed)
    ensures AllStill(commands, taken, env.flow, flow)
    ensures WideEnough(taken, env.flow) ==>
              forall k :: 0 <= k < |commands| ==> BeyondBudget(commands[k], taken, env.flow, flow)
  {
    assert taken[..|taken|] == taken && taken[|taken|..] == [];
    hide Judged, Blames, AllStill, WideEnough, BeyondBudget;
    if WideEnough(taken, env.flow) {
      forall k | 0 <= k < |commands| ensures BeyondBudget(commands[k], taken, env.flow, flow) {
        OpenWindowsDrain(taken, commands, env.flow, flow, k);
      }
    }
  }

  lemma GivenNone(wire: Streams, c: Command)
    ensures wire == Given(wire, c.stream, []) && [] <= Output(c)
  {
  }

  lemma NothingWaits(wire: Streams, b: Books, results: map<nat, bool>, accepted: nat)
    requires Sound([], wire, b, results, accepted)
    ensures forall id: nat :: id < accepted ==> id in results
    ensures forall id: nat :: !Waits([], id)
    ensures forall s: nat :: !Queued([], s)
  {
  }

  lemma GivenNothing(wire: Streams, f: Flow, c: Command)
    ensures wire == Given(wire, c.stream, Bytes(c.id, c.payload[..0])) && Spent(f, c.stream, 0) == f
    ensures c.payload == [] || Window(f, c.stream) < 0 ==> Sent(c, Window(f, c.stream)) == 0
  {
  }

  lemma NothingGiven(wire: Streams, f: Flow, c: Command)
    ensures wire == Given(wire, c.stream, []) && Spent(f, c.stream, 0) == f && [] <= Output(c)
    ensures c.kind != Data ==> Output(c) != [] && Sent(c, Window(f, c.stream)) == 0
    ensures Bytes(c.id, c.payload[..0]) == []
  {
  }

  lemma GivenTwice(wire: Streams, c: Command, from: nat, to: nat)
    requires from <= to <= |c.payload|
    ensures Given(Given(wire, c.stream, Bytes(c.id, c.payload[..from])), c.stream, Bytes(c.id, c.payload[from..to])) ==
            Given(wire, c.stream, Bytes(c.id, c.payload[..to]))
  {
    var a, b := Bytes(c.id, c.payload[..from]), Bytes(c.id, c.payload[from..to]);
    assert a + b == Bytes(c.id, c.payload[..to]);
    Associates(On(wire, c.stream), a, b);
    assert a + [] == a && [] + b == b;
  }
}
