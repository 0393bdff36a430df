/**
 The pending drop of src/client/drop.c: a fixed block of 16 NUL-terminated paths written in place
 by the parser and by zc_drop_paths, with the hover and error flags beside it.
 */
module DropTarget {
  import opened Common
  import opened UriList

  /** `rest` decoded after the bytes `done`. */
  ghost function After(done: seq<byte>, rest: Option<seq<byte>>): Option<seq<byte>> {
    if rest.Some? then Some(done + rest.value) else None
  }

  lemma AfterNothing(rest: Option<seq<byte>>)
    ensures After([], rest) == rest
  {
    if rest.Some? {
      assert [] + rest.value == rest.value;
    }
  }

  lemma AfterAll(done: seq<byte>, rest: seq<byte>, room: nat)
    requires rest == []
    ensures After(done, Decode(rest, room)) == Some(done)
  {
    assert done + [] == done;
  }

  lemma AfterMore(done: seq<byte>, c: byte, rest: Option<seq<byte>>)
    ensures After(done + [c], rest) == After(done, After([c], rest))
  {
    if rest.Some? {
      assert done + [c] + rest.value == done + ([c] + rest.value);
    }
  }

  ghost predicate AllGood(given: seq<Option<seq<byte>>>) {
    forall i :: 0 <= i < |given| ==> given[i].Some? && GoodPath(given[i].value)
  }

  /** The byte written at i, or -1, and how long it is written. */
  function UnitAt(line: seq<byte>, i: nat): (int, nat)
    requires i < |line|
  {
    if line[i] != PERCENT then (if line[i] == QUERY || line[i] == HASH then -1 else line[i], 1)
    else if i + 2 >= |line| || Hex(line[i + 1]) < 0 || Hex(line[i + 2]) < 0 then (-1, 1)
    else (Hex(line[i + 1]) * 16 + Hex(line[i + 2]), 3)
  }

  lemma DecodeStep(line: seq<byte>, i: nat, room: nat)
    requires i < |line|
    ensures var (c, used) := UnitAt(line, i);
            && c < 256 && i + used <= |line|
            && Decode(line[i..], room) ==
               if c < 0 || IsControl(c) || room == 0 then None else After([c], Decode(line[i + used..], room - 1))
  {
    var s := line[i..];
    var (c, used) := UnitAt(line, i);
    assert s[used..] == line[i + used..];
  }

  /** What one round of the parser's loop looks at, and what that does to the collected paths. */
  lemma Round(text: seq<byte>, cursor: nat, n: nat, next: nat, batch: seq<seq<byte>>)
    requires cursor < |text| && n == LineLength(text[cursor..])
    requires cursor + n <= |text| && next == cursor + n + BreakLength(text[cursor + n..])
    ensures cursor < next <= |text|
    ensures var line, rest := text[cursor..cursor + n], Lines(text[next..]);
            Collect(Lines(text[cursor..]), batch) ==
            if line == [] || line[0] == HASH then Collect(rest, batch)
            else if |batch| == FILES || DecodeLine(line).None? then None
            else Collect(rest, batch + [DecodeLine(line).value])
  {
    hide DecodeLine, LineLength, BreakLength, Lines, Collect;
    var t := text[cursor..];
    assert t[..n] == text[cursor..cursor + n];
    assert t[n..] == text[cursor + n..];
    assert t[RoundLength(t)..] == text[next..];
    LinesStep(t);
    CollectStep(t[..n], Lines(text[next..]), batch);
  }

  lemma LinesStep(text: seq<byte>)
    requires text != []
    ensures Lines(text) == [text[..LineLength(text)]] + Lines(text[RoundLength(text)..])
  {
  }

  lemma CollectStep(line: seq<byte>, rest: seq<seq<byte>>, batch: seq<seq<byte>>)
    ensures Collect([line] + rest, batch) ==
            if line == [] || line[0] == HASH then Collect(rest, batch)
            else if |batch| == FILES || DecodeLine(line).None? then None
            else Collect(rest, batch + [DecodeLine(line).value])
  {
    hide DecodeLine;
    assert ([line] + rest)[1..] == rest;
  }

  lemma NoLines(text: seq<byte>, batch: seq<seq<byte>>)
    requires text == []
    ensures Collect(Lines(text), batch) == Some(batch)
  {
  }

  class Drop {
    var rejected: bool
    var hovered: bool
    var count: nat
    const paths: array2<byte>

    // The batch the block holds.
    ghost var batch: seq<seq<byte>>

    constructor ()
      ensures Valid() && fresh(paths) && batch == [] && !rejected && !hovered
    {
      rejected, hovered, count, batch := false, false, 0, [];
      paths := new byte[FILES, PATH]((i, j) => 0);
    }

    /** Row `i` holds the C string `p`. */
    ghost predicate RowIs(i: nat, p: seq<byte>)
      requires i < paths.Length0
      reads paths
    {
      && |p| < paths.Length1
      && 0 !in p
      && (forall k :: 0 <= k < |p| ==> paths[i, k] == p[k])
      && paths[i, |p|] == 0
    }

    ghost predicate Valid()
      reads `count, `batch, paths
    {
      && paths.Length0 == FILES && paths.Length1 == PATH
      && count == |batch| <= FILES
      && forall i :: 0 <= i < count ==> RowIs(i, batch[i])
    }

    method Reject()
      modifies this`rejected
      ensures rejected
    {
      rejected := true;
    }

    method TakeError() returns (result: bool)
      modifies this`rejected
      ensures result == old(rejected) && !rejected
    {
      result := rejected;
      rejected := false;
    }

    method SetHovered(active: bool)
      modifies this`hovered
      ensures hovered == active
    {
      hovered := active;
    }

    /** zc_drop_take: hands the whole batch over and keeps nothing. */
    method Take() returns (output: seq<seq<byte>>)
      requires Valid()
      modifies this`count, this`batch
      ensures Valid() && output == old(batch) && batch == []
    {
      output := [];
      var i := 0;
      while i < count
        invariant Valid() && batch == old(batch) && i <= count && output == batch[..i]
      {
        var row := ReadRow(i);
        output := output + [row];
        i := i + 1;
      }
      count, batch := 0, [];
    }

    method ReadRow(i: nat) returns (row: seq<byte>)
      requires Valid() && i < count
      ensures row == batch[i]
    {
      row := [];
      assert RowIs(i, batch[i]) && forall k :: 0 <= k < |batch[i]| ==> batch[i][k] in batch[i];
      while paths[i, |row|] != 0
        invariant |row| <= |batch[i]| && row == batch[i][..|row|]
        decreases PATH - |row|
      {
        row := row + [paths[i, |row|]];
      }
    }

    /** zc_drop_offer */
    method Offer(text: seq<byte>)
      requires Valid()
      modifies this, paths
      ensures Valid() && !hovered
      ensures Parse(text).Some? ==> batch == Parse(text).value && rejected == old(rejected)
      ensures Parse(text).None? ==> batch == [] && rejected
    {
      hovered := false;
      var ok := ParseText(text);
    }

    /** zc_drop_parse: a bad line empties the block again. */
    method ParseText(text: seq<byte>) returns (ok: bool)
      requires Valid()
      modifies this`count, this`batch, this`rejected, paths
      ensures Valid()
      ensures ok <==> Parse(text).Some?
      ensures ok ==> batch == Parse(text).value && rejected == old(rejected)
      ensures !ok ==> batch == [] && rejected
    {
      ok := ParseLines(text);
      if !ok {
        count, batch := 0, [];
        Reject();
      }
    }

    /** Fills the block line by line. */
    method ParseLines(text: seq<byte>) returns (ok: bool)
      requires Valid()
      modifies this`count, this`batch, paths
      ensures Valid()
      ensures ok <==> Parse(text).Some?
      ensures ok ==> batch == Parse(text).value
    {
      hide Lines, Collect, LineLength, BreakLength, RoundLength, DecodeLine;
      count, batch := 0, [];
      ok := |text| <= BYTES && 0 !in text;
      var cursor := 0;
      assert text[0..] == text;
      while ok && cursor < |text|
        invariant cursor <= |text| && Valid()
        invariant ok ==> Parse(text) == Collect(Lines(text[cursor..]), batch)
        invariant !ok ==> Parse(text).None?
        decreases |text| - cursor, ok
      {
        var n := ScanLine(text, cursor);
        var line := text[cursor..cursor + n];
        var next := ScanBreaks(text, cursor + n);
        Round(text, cursor, n, next, batch);
        cursor := next;
        if n != 0 && line[0] != HASH {
          ok := AddLine(line);
        }
      }
      if ok { NoLines(text[cursor..], batch); }
    }

    method ScanLine(text: seq<byte>, cursor: nat) returns (n: nat)
      requires cursor <= |text|
      ensures n == LineLength(text[cursor..])
    {
      n := 0;
      while cursor + n < |text| && text[cursor + n] != CR && text[cursor + n] != LF
        invariant cursor + n <= |text|
        invariant LineLength(text[cursor..]) == n + LineLength(text[cursor + n..])
      {
        assert text[cursor + n..][1..] == text[cursor + n + 1..];
        n := n + 1;
      }
    }

    method ScanBreaks(text: seq<byte>, cursor: nat) returns (next: nat)
      requires cursor <= |text|
      ensures next == cursor + BreakLength(text[cursor..])
    {
      next := cursor;
      while next < |text| && (text[next] == CR || text[next] == LF)
        invariant cursor <= next <= |text|
        invariant BreakLength(text[cursor..]) == next - cursor + BreakLength(text[next..])
      {
        assert text[next..][1..] == text[next + 1..];
        next := next + 1;
      }
    }

    /** One line that says something: it becomes the next row, or the whole text is refused. */
    method AddLine(line: seq<byte>) returns (ok: bool)
      requires Valid()
      modifies this`count, this`batch, paths
      ensures Valid()
      ensures ok <==> old(count) < FILES && DecodeLine(line).Some?
      ensures ok ==> batch == old(batch) + [DecodeLine(line).value]
      ensures !ok ==> batch == old(batch)
    {
      if count == FILES || |line| < 6 || line[..5] != FILE || line[5] != SLASH {
        return false;
      }
      var start := 5;
      if |line| >= 7 && line[6] == SLASH {
        start := 7;
        if |line| >= start + 10 && line[start..start + 9] == LOCALHOST && line[start + 9] == SLASH {
          start := start + 9;
        }
      }
      if start >= |line| || line[start] != SLASH {
        return false;
      }
      assert PathStart(line) == Some(start);
      ok := DecodeRow(line, start);
      if ok {
        batch := batch + [DecodeLine(line).value];
        count := count + 1;
      }
    }

    /** Percent-decodes the rest of a line into the next free row. */
    method DecodeRow(line: seq<byte>, start: nat) returns (ok: bool)
      requires Valid() && count < FILES && start <= |line|
      modifies paths
      ensures ok <==> Decode(line[start..], PATH - 1).Some?
      ensures ok ==> RowIs(count, Decode(line[start..], PATH - 1).value)
      ensures forall i, k :: 0 <= i < FILES && i != count && 0 <= k < PATH ==> paths[i, k] == old(paths[i, k])
    {
      hide Decode, Hex;
      ghost var done := [];
      AfterNothing(Decode(line[start..], PATH - 1));
      var i, used := start, 0;
      while i < |line|
        invariant start <= i <= |line| && used == |done| <= PATH - 1
        invariant 0 !in done && forall k :: 0 <= k < used ==> paths[count, k] == done[k]
        invariant Decode(line[start..], PATH - 1) == After(done, Decode(line[i..], PATH - 1 - used))
        invariant forall i, k :: 0 <= i < FILES && i != count && 0 <= k < PATH ==> paths[i, k] == old(paths[i, k])
      {
        DecodeStep(line, i, PATH - 1 - used);
        var c: int := line[i];
        var next := i + 1;
        if c == PERCENT {
          if i + 2 >= |line| {
            assert UnitAt(line, i).0 == -1;
            return false;
          }
          var high, low := Hex(line[i + 1]), Hex(line[i + 2]);
          if high < 0 || low < 0 {
            assert UnitAt(line, i).0 == -1;
            return false;
          }
          c := high * 16 + low;
          next := i + 3;
        } else if c == QUERY || c == HASH {
          return false;
        }
        if c < 32 || c == 127 || used == PATH - 1 {
          return false;
        }
        assert (c, next - i) == UnitAt(line, i);
        AfterMore(done, c, Decode(line[next..], PATH - 2 - used));
        paths[count, used] := c;
        done := done + [c];
        used := used + 1;
        i := next;
      }
      AfterAll(done, line[i..], PATH - 1 - used);
      paths[count, used] := 0;
      return true;
    }

    /** zc_drop_paths: each argument is a C string, or absent. */
    method SetPaths(given: seq<Option<seq<byte>>>)
      requires Valid() && forall i :: 0 <= i < |given| && given[i].Some? ==> 0 !in given[i].value
      modifies this, paths
      ensures Valid() && !hovered
      ensures 0 < |given| <= FILES && AllGood(given) ==>
        |batch| == |given| && (forall i :: 0 <= i < |given| ==> batch[i] == given[i].value) && rejected == old(rejected)
      ensures !(0 < |given| <= FILES && AllGood(given)) ==> batch == [] && rejected
    {
      hovered := false;
      count, batch := 0, [];
      if |given| == 0 || |given| > FILES {
        Reject();
        return;
      }
      var i := 0;
      while i < |given|
        invariant i <= |given| && count == 0 && batch == [] && Valid() && !hovered && rejected == old(rejected)
        invariant forall j :: 0 <= j < i ==> given[j].Some? && GoodPath(given[j].value) && RowIs(j, given[j].value)
      {
        if given[i].None? || |given[i].value| == 0 || given[i].value[0] != SLASH || |given[i].value| >= PATH
           || exists k :: 0 <= k < |given[i].value| && IsControl(given[i].value[k]) {
          Reject();
          return;
        }
        CopyRow(i, given[i].value);
        i := i + 1;
      }
      batch := seq(|given|, j requires 0 <= j < |given| => given[j].value);
      count := |given|;
    }

    method CopyRow(i: nat, p: seq<byte>)
      requires paths.Length0 == FILES && paths.Length1 == PATH && i < FILES && |p| < PATH && 0 !in p
      modifies paths
      ensures RowIs(i, p)
      ensures forall j, k :: 0 <= j < FILES && j != i && 0 <= k < PATH ==> paths[j, k] == old(paths[j, k])
    {
      var n := 0;
      while n < |p|
        invariant n <= |p|
        invariant forall k :: 0 <= k < n ==> paths[i, k] == p[k]
        invariant forall j, k :: 0 <= j < FILES && j != i && 0 <= k < PATH ==> paths[j, k] == old(paths[j, k])
      {
        paths[i, n] := p[n];
        n := n + 1;
      }
      paths[i, |p|] := 0;
    }
  }

  /** The same batch reaches the composer whether the paths come as such or as an encoded URI list. */
  method RoundTrip(drop: Drop, given: seq<seq<byte>>, encs: seq<seq<byte>>, uris: seq<byte>)
    returns (direct: seq<seq<byte>>, offered: seq<seq<byte>>)
    requires drop.Valid() && 0 < |given| <= FILES && EncodeAll(encs, given) && uris == Text(UriLines(encs))
    modifies drop, drop.paths
    ensures drop.Valid() && direct == offered == given
  {
    forall i | 0 <= i < |given| ensures 0 !in given[i] {
      assert GoodPath(given[i]);
    }
    drop.SetPaths(seq(|given|, i requires 0 <= i < |given| => Some(given[i])));
    direct := drop.Take();
    ParseOfEncoding(encs, given);
    drop.Offer(uris);
    offered := drop.Take();
  }
}
