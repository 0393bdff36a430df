/**
 The `text/uri-list` payloads src/client/drop.c accepts, as functions on bytes, and what those
 functions mean: section 5 of RFC 2483 for the list, section 2.1 of RFC 3986 for percent-encoding
 and section 2 of RFC 8089 for `file` URIs.
 */
module UriList {
  import opened Common

  const FILES := 16          // ZC_DROP_FILES
  const PATH := 4096         // ZC_DROP_PATH, with the terminating NUL
  const BYTES := 256 * 1024  // ZC_DROP_BYTES

  const CR: byte := '\r' as int
  const LF: byte := '\n' as int
  const SLASH: byte := '/' as int
  const PERCENT: byte := '%' as int
  const HASH: byte := '#' as int
  const QUERY: byte := '?' as int

  const FILE: seq<byte> := [102, 105, 108, 101, 58]                               // file:
  const AUTHORITY: seq<byte> := [102, 105, 108, 101, 58, 47, 47]                  // file://
  const LOCALHOST: seq<byte> := [108, 111, 99, 97, 108, 104, 111, 115, 116]       // localhost

  predicate IsBreak(c: byte) { c == CR || c == LF }

  predicate IsControl(c: byte) { c < 32 || c == 127 }

  /** The value of a hexadecimal digit, or -1. */
  function Hex(c: byte): int {
    if 48 <= c <= 57 then c - 48
    else if 97 <= c <= 102 then c - 97 + 10
    else if 65 <= c <= 70 then c - 65 + 10
    else -1
  }

  predicate HasPrefix(s: seq<byte>, prefix: seq<byte>) {
    |s| >= |prefix| && s[..|prefix|] == prefix
  }

  // ----- One line -----

  /** Where the path of a `file:` line starts, or nothing if the line is of another kind. */
  function PathStart(line: seq<byte>): Option<nat> {
    if |line| < 6 || !HasPrefix(line, FILE) || line[5] != SLASH then None
    else
      var start :=
        if |line| < 7 || line[6] != SLASH then 5
        else if |line| >= 17 && line[7..16] == LOCALHOST && line[16] == SLASH then 16
        else 7;
      if start >= |line| || line[start] != SLASH then None else Some(start)
  }

  /** The percent-decoded rest of a line, which takes `room` more bytes at most. */
  function Decode(s: seq<byte>, room: nat): Option<seq<byte>> {
    if s == [] then Some([])
    else
      var (c, used) :=
        if s[0] != PERCENT then (if s[0] == QUERY || s[0] == HASH then -1 else s[0], 1)
        else if |s| < 3 || Hex(s[1]) < 0 || Hex(s[2]) < 0 then (-1, 1)
        else (Hex(s[1]) * 16 + Hex(s[2]), 3);
      if c < 0 || IsControl(c) || room == 0 then None
      else
        var rest := Decode(s[used..], room - 1);
        if rest.Some? then Some([c] + rest.value) else None
  }

  function DecodeLine(line: seq<byte>): Option<seq<byte>> {
    var start := PathStart(line);
    if start.None? then None else Decode(line[start.value..], PATH - 1)
  }

  // ----- The list -----

  /** Length of the text before the first line break. */
  function LineLength(text: seq<byte>): (n: nat)
    ensures n <= |text|
    ensures forall i :: 0 <= i < n ==> !IsBreak(text[i])
    ensures n < |text| ==> IsBreak(text[n])
  {
    if text == [] || IsBreak(text[0]) then 0 else 1 + LineLength(text[1..])
  }

  /** Length of the run of line breaks the text starts with. */
  function BreakLength(text: seq<byte>): (n: nat)
    ensures n <= |text|
    ensures forall i :: 0 <= i < n ==> IsBreak(text[i])
    ensures n < |text| ==> !IsBreak(text[n])
  {
    if text == [] || !IsBreak(text[0]) then 0 else 1 + BreakLength(text[1..])
  }

  /** How much of the text one round of the parser takes: a line and the breaks after it. */
  function RoundLength(text: seq<byte>): (n: nat)
    ensures n <= |text|
    ensures text != [] ==> n > 0
  {
    var n := LineLength(text);
    n + BreakLength(text[n..])
  }

  function Lines(text: seq<byte>): seq<seq<byte>> {
    if text == [] then [] else [text[..LineLength(text)]] + Lines(text[RoundLength(text)..])
  }

  /** A line that says nothing: an empty one, or a comment. */
  predicate Skipped(line: seq<byte>) {
    line == [] || line[0] == HASH
  }

  /** The paths the lines name, after those already collected; nothing if any line is wrong. */
  function Collect(lines: seq<seq<byte>>, paths: seq<seq<byte>>): Option<seq<seq<byte>>> {
    if lines == [] then Some(paths)
    else if Skipped(lines[0]) then Collect(lines[1..], paths)
    else if |paths| == FILES then None
    else
      var path := DecodeLine(lines[0]);
      if path.None? then None else Collect(lines[1..], paths + [path.value])
  }

  function Parse(text: seq<byte>): Option<seq<seq<byte>>> {
    if |text| > BYTES || 0 in text then None else Collect(Lines(text), [])
  }

  // ----- What a line means -----

  /** The paths zc_drop_paths takes. */
  predicate GoodPath(path: seq<byte>) {
    0 < |path| < PATH && path[0] == SLASH && forall i :: 0 <= i < |path| ==> !IsControl(path[i])
  }

  /** `enc` is a way to write `path` with each byte as itself or percent-encoded. */
  ghost predicate Encodes(enc: seq<byte>, path: seq<byte>)
    decreases |path|
  {
    if path == [] then enc == []
    else
      || (enc != [] && enc[0] == path[0] && enc[0] !in {PERCENT, QUERY, HASH} && Encodes(enc[1..], path[1..]))
      || (|enc| >= 3 && enc[0] == PERCENT && Hex(enc[1]) >= 0 && Hex(enc[2]) >= 0
          && Hex(enc[1]) * 16 + Hex(enc[2]) == path[0] && Encodes(enc[3..], path[1..]))
  }

  /** The three ways to write a local file URI around an encoded path. */
  ghost predicate IsFileUri(line: seq<byte>, enc: seq<byte>) {
    enc != [] && enc[0] == SLASH &&
    (|| line == AUTHORITY + enc
     || line == AUTHORITY + LOCALHOST + enc
     || (line == FILE + enc && (|enc| < 2 || enc[1] != SLASH)))
  }

  lemma {:induction false} DecodeOfEncoding(enc: seq<byte>, path: seq<byte>, room: nat)
    requires Encodes(enc, path) && |path| <= room
    requires forall i :: 0 <= i < |path| ==> !IsControl(path[i])
    ensures Decode(enc, room) == Some(path)
    decreases |path|
  {
    if path != [] {
      if enc[0] == PERCENT {
        DecodeOfEncoding(enc[3..], path[1..], room - 1);
      } else {
        DecodeOfEncoding(enc[1..], path[1..], room - 1);
      }
      assert [path[0]] + path[1..] == path;
    }
  }

  lemma {:induction false} EncodingOfDecode(s: seq<byte>, room: nat)
    requires Decode(s, room).Some?
    ensures var path := Decode(s, room).value;
      Encodes(s, path) && |path| <= room && forall i :: 0 <= i < |path| ==> !IsControl(path[i])
    decreases |s|
  {
    if s != [] {
      EncodingOfDecode(s[if s[0] == PERCENT then 3 else 1..], room - 1);
    }
  }

  /** A line is accepted as a path exactly when it is a file URI of a good path. */
  lemma LineMeans(line: seq<byte>, path: seq<byte>)
    ensures DecodeLine(line) == Some(path) <==>
      GoodPath(path) && exists enc :: IsFileUri(line, enc) && Encodes(enc, path)
  {
    if DecodeLine(line) == Some(path) {
      LineIsUri(line, path);
    }
    if GoodPath(path) {
      forall enc | IsFileUri(line, enc) && Encodes(enc, path) ensures DecodeLine(line) == Some(path) {
        UriStart(line, enc);
        DecodeOfEncoding(enc, path, PATH - 1);
      }
    }
  }

  lemma LineIsUri(line: seq<byte>, path: seq<byte>)
    requires DecodeLine(line) == Some(path)
    ensures GoodPath(path) && exists enc :: IsFileUri(line, enc) && Encodes(enc, path)
  {
    var start := PathStart(line).value;
    var enc := line[start..];
    EncodingOfDecode(enc, PATH - 1);
    assert enc[0] == SLASH;
    if start == 5 {
      assert line == FILE + enc;
    } else if start == 7 {
      assert line == AUTHORITY + enc;
    } else {
      assert line == AUTHORITY + LOCALHOST + enc;
    }
  }

  lemma UriStart(line: seq<byte>, enc: seq<byte>)
    requires IsFileUri(line, enc)
    ensures PathStart(line).Some? && line[PathStart(line).value..] == enc
  {
    if line == AUTHORITY + enc {
      assert line[..5] == FILE && line[5] == SLASH && line[6] == SLASH;
      assert line[7] == SLASH && LOCALHOST[0] != SLASH;
      assert |line| >= 17 ==> line[7..16][0] == line[7];
    } else if line == AUTHORITY + LOCALHOST + enc {
      assert line[..5] == FILE && line[5] == SLASH && line[6] == SLASH;
      assert line[7..16] == LOCALHOST && line[16] == SLASH;
    } else {
      assert line[..5] == FILE && line[5] == SLASH;
    }
  }

  // ----- What a list means -----

  ghost function Named(lines: seq<seq<byte>>): seq<seq<byte>> {
    if lines == [] then []
    else if Skipped(lines[0]) then Named(lines[1..]) else [lines[0]] + Named(lines[1..])
  }

  ghost predicate Decoded(lines: seq<seq<byte>>, paths: seq<seq<byte>>) {
    |lines| == |paths| && forall i :: 0 <= i < |lines| ==> DecodeLine(lines[i]) == Some(paths[i])
  }

  lemma {:induction false} CollectMeans(lines: seq<seq<byte>>, before: seq<seq<byte>>, paths: seq<seq<byte>>)
    requires |before| <= FILES
    ensures Collect(lines, before) == Some(before + paths) <==>
      Decoded(Named(lines), paths) && |before| + |paths| <= FILES
    decreases |lines|
  {
    hide DecodeLine, Skipped;
    if lines == [] {
      assert before + paths == before <==> paths == [];
    } else if Skipped(lines[0]) {
      CollectMeans(lines[1..], before, paths);
    } else {
      var named := Named(lines);
      var first := DecodeLine(lines[0]);
      if |before| < FILES && first.Some? {
        if paths != [] && paths[0] == first.value {
          CollectMeans(lines[1..], before + [first.value], paths[1..]);
          assert before + [first.value] + paths[1..] == before + paths;
          assert named[1..] == Named(lines[1..]);
          assert Decoded(named, paths) <==> Decoded(named[1..], paths[1..]);
        } else {
          CollectExtends(lines[1..], before + [first.value]);
          PrefixNext(before, first.value, paths);
          assert named[0] == lines[0];
        }
      } else {
        assert named[0] == lines[0];
      }
    }
  }

  lemma PrefixNext(before: seq<seq<byte>>, path: seq<byte>, paths: seq<seq<byte>>)
    ensures before + [path] <= before + paths ==> paths != [] && paths[0] == path
  {
    if before + [path] <= before + paths {
      assert (before + paths)[|before|] == (before + [path])[|before|];
    }
  }

  lemma {:induction false} CollectExtends(lines: seq<seq<byte>>, before: seq<seq<byte>>)
    requires |before| <= FILES
    ensures Collect(lines, before).Some? ==> before <= Collect(lines, before).value
    decreases |lines|
  {
    if lines != [] {
      if Skipped(lines[0]) {
        CollectExtends(lines[1..], before);
      } else if |before| < FILES && DecodeLine(lines[0]).Some? {
        CollectExtends(lines[1..], before + [DecodeLine(lines[0]).value]);
      }
    }
  }

  /** A payload yields exactly the paths of its lines that say something, all of them or none. */
  lemma ParseMeans(text: seq<byte>, paths: seq<seq<byte>>)
    ensures Parse(text) == Some(paths) <==>
      |text| <= 262144 && 0 !in text && |paths| <= 16 && Decoded(Named(Lines(text)), paths)
  {
    if |text| <= BYTES && 0 !in text {
      CollectMeans(Lines(text), [], paths);
      assert [] + paths == paths;
    }
  }

  // ----- The round trip -----

  /** One line of its own for each string. */
  ghost function Text(lines: seq<seq<byte>>): seq<byte> {
    if lines == [] then [] else lines[0] + [CR, LF] + Text(lines[1..])
  }

  ghost predicate IsLine(line: seq<byte>) {
    line != [] && forall i :: 0 <= i < |line| ==> !IsBreak(line[i])
  }

  lemma {:induction false} LineLengthOf(line: seq<byte>, rest: seq<byte>)
    requires forall i :: 0 <= i < |line| ==> !IsBreak(line[i])
    requires rest != [] && IsBreak(rest[0])
    ensures LineLength(line + rest) == |line|
  {
    assert (line + rest)[|line|] == rest[0];
  }

  lemma {:induction false} LinesOfText(lines: seq<seq<byte>>)
    requires forall i :: 0 <= i < |lines| ==> IsLine(lines[i])
    ensures Lines(Text(lines)) == lines
    decreases |lines|
  {
    hide LineLength, BreakLength, RoundLength;
    if lines != [] {
      TextStarts(lines[1..]);
      OneLine(lines[0], Text(lines[1..]));
      var text := Text(lines);
      assert text == lines[0] + [CR, LF] + Text(lines[1..]);
      LinesOfText(lines[1..]);
    }
  }

  lemma TextStarts(lines: seq<seq<byte>>)
    requires forall i :: 0 <= i < |lines| ==> IsLine(lines[i])
    ensures Text(lines) == [] || !IsBreak(Text(lines)[0])
  {
    if lines != [] { assert Text(lines)[0] == lines[0][0]; }
  }

  lemma OneLine(line: seq<byte>, rest: seq<byte>)
    requires IsLine(line) && (rest == [] || !IsBreak(rest[0]))
    ensures var text := line + [CR, LF] + rest;
            text != [] && text[..LineLength(text)] == line && text[RoundLength(text)..] == rest
  {
    var text := line + [CR, LF] + rest;
    assert text == line + ([CR, LF] + rest);
    LineLengthOf(line, [CR, LF] + rest);
    var after := text[|line|..];
    assert after == [CR, LF] + rest;
    assert after[1..] == [LF] + rest && after[1..][1..] == rest;
    assert BreakLength(after) == 2;
  }

  /** Hexadecimal digits and the bytes of a good path are neither NUL nor line breaks. */
  lemma {:induction false} EncodingIsPlain(enc: seq<byte>, path: seq<byte>)
    requires Encodes(enc, path) && forall i :: 0 <= i < |path| ==> !IsControl(path[i])
    ensures |path| <= |enc| <= 3 * |path|
    ensures forall i :: 0 <= i < |enc| ==> !IsControl(enc[i])
    decreases |path|
  {
    if path != [] {
      if enc[0] == PERCENT {
        EncodingIsPlain(enc[3..], path[1..]);
      } else {
        EncodingIsPlain(enc[1..], path[1..]);
      }
    }
  }

  ghost function UriLines(encs: seq<seq<byte>>): (r: seq<seq<byte>>)
    ensures |r| == |encs|
  {
    seq(|encs|, i requires 0 <= i < |encs| => AUTHORITY + encs[i])
  }

  /** Each encoding starts with the path's own slash and says no more than the path. */
  ghost predicate EncodeAll(encs: seq<seq<byte>>, paths: seq<seq<byte>>) {
    && |encs| == |paths|
    && forall i :: 0 <= i < |encs| ==>
         GoodPath(paths[i]) && encs[i] != [] && encs[i][0] == SLASH && Encodes(encs[i], paths[i])
  }

  lemma {:induction false} TextFits(encs: seq<seq<byte>>, paths: seq<seq<byte>>)
    requires EncodeAll(encs, paths)
    ensures |Text(UriLines(encs))| <= |encs| * (|AUTHORITY| + 3 * (PATH - 1) + 2)
    ensures 0 !in Text(UriLines(encs))
    decreases |encs|
  {
    if encs != [] {
      EncodingIsPlain(encs[0], paths[0]);
      TextFits(encs[1..], paths[1..]);
      assert UriLines(encs)[1..] == UriLines(encs[1..]);
    }
  }

  lemma {:induction false} NamedAll(lines: seq<seq<byte>>)
    requires forall i :: 0 <= i < |lines| ==> !Skipped(lines[i])
    ensures Named(lines) == lines
    decreases |lines|
  {
    if lines != [] {
      NamedAll(lines[1..]);
    }
  }

  lemma UriLine(enc: seq<byte>, path: seq<byte>)
    requires GoodPath(path) && enc != [] && enc[0] == SLASH && Encodes(enc, path)
    ensures var line := AUTHORITY + enc; IsLine(line) && !Skipped(line) && DecodeLine(line) == Some(path)
  {
    EncodingIsPlain(enc, path);
    assert IsFileUri(AUTHORITY + enc, enc);
    LineMeans(AUTHORITY + enc, path);
  }

  /**
   Writing up to 16 good paths as a URI list, each byte encoded or not as one likes, and parsing
   that gives the paths back; and the longest such list fits the transfer buffer.
   */
  lemma ParseOfEncoding(encs: seq<seq<byte>>, paths: seq<seq<byte>>)
    requires EncodeAll(encs, paths) && |paths| <= FILES
    ensures |Text(UriLines(encs))| <= BYTES
    ensures Parse(Text(UriLines(encs))) == Some(paths)
  {
    hide Encodes, DecodeLine, Text, Named, Parse, IsLine, Skipped, Lines, Collect, GoodPath;
    TextFits(encs, paths);
    var lines := UriLines(encs);
    forall i | 0 <= i < |lines| ensures IsLine(lines[i]) && !Skipped(lines[i]) && DecodeLine(lines[i]) == Some(paths[i]) {
      UriLine(encs[i], paths[i]);
    }
    LinesOfText(lines);
    NamedAll(lines);
    ParseMeans(Text(lines), paths);
  }

  // ----- An encoder of its own -----

  const LOWER := "0123456789abcdef"
  const UPPER := "0123456789ABCDEF"

  /** The bytes of an ASCII text. */
  function Ascii(text: string): (bytes: seq<byte>)
    requires forall i :: 0 <= i < |text| ==> text[i] as int < 128
    ensures |bytes| == |text| && forall i :: 0 <= i < |text| ==> bytes[i] == text[i] as int
  {
    seq(|text|, i requires 0 <= i < |text| => text[i] as int)
  }

  /** How a byte is written: as itself, or as two hexadecimal digits, each from a list of them. */
  datatype Spelling = Plain | Escaped(high: string, low: string)

  predicate MaySpell(b: byte, how: Spelling) {
    match how
    case Plain => b != '%' as int && b != '?' as int && b != '#' as int
    case Escaped(high, low) => high in {LOWER, UPPER} && low in {LOWER, UPPER}
  }

  function Spelled(b: byte, how: Spelling): seq<byte>
    requires MaySpell(b, how)
  {
    if how.Plain? then [b] else ['%' as int] + Ascii([how.high[b / 16], how.low[b % 16]])
  }

  predicate MaySpellAll(path: seq<byte>, how: seq<Spelling>) {
    |how| == |path| && forall i :: 0 <= i < |path| ==> MaySpell(path[i], how[i])
  }

  function Written(path: seq<byte>, how: seq<Spelling>): seq<byte>
    requires MaySpellAll(path, how)
  {
    if path == [] then [] else Spelled(path[0], how[0]) + Written(path[1..], how[1..])
  }

  /** The hexadecimal digits are these and no others, each with its place in the list as its value. */
  lemma HexIsPlace(c: byte, n: nat)
    requires n < 16
    ensures Hex(c) == n <==> c == LOWER[n] as int || c == UPPER[n] as int
    ensures -1 <= Hex(c) < 16
  {
  }

  lemma {:induction false} WrittenEncodes(path: seq<byte>, how: seq<Spelling>)
    requires MaySpellAll(path, how)
    ensures Encodes(Written(path, how), path)
    decreases |path|
  {
    if path != [] {
      WrittenEncodes(path[1..], how[1..]);
      var b, first, rest := path[0], Spelled(path[0], how[0]), Written(path[1..], how[1..]);
      assert Written(path, how)[|first|..] == rest;
      if how[0].Escaped? {
        HexIsPlace(first[1], b / 16);
        HexIsPlace(first[2], b % 16);
      }
    }
  }

  /** The ways to start a URI that names a file of this machine. */
  const STARTS: seq<string> := ["file:", "file://", "file://localhost"]

  lemma StartsAre()
    ensures FILE == Ascii("file:") && AUTHORITY == Ascii("file://") && AUTHORITY + LOCALHOST == Ascii("file://localhost")
  {
  }

  /** A path that an application may hand over: absolute, of at most 4095 bytes, without control characters. */
  predicate Acceptable(path: seq<byte>) {
    && 1 <= |path| <= 4095 && path[0] == '/' as int
    && forall i :: 0 <= i < |path| ==> 32 <= path[i] && path[i] != 127
  }

  /** A path as one writes it: the slash it starts with is plain, and no second one follows after a bare `file:`. */
  predicate MayWrite(start: string, path: seq<byte>, how: seq<Spelling>) {
    && Acceptable(path) && MaySpellAll(path, how) && how[0].Plain? && start in STARTS
    && (start == "file:" && |path| > 1 && how[1].Plain? ==> path[1] != '/' as int)
  }

  function UriOf(start: string, path: seq<byte>, how: seq<Spelling>): seq<byte>
    requires MayWrite(start, path, how)
  {
    Ascii(start) + Written(path, how)
  }

  lemma WrittenIsUri(start: string, path: seq<byte>, how: seq<Spelling>)
    requires MayWrite(start, path, how)
    ensures IsFileUri(UriOf(start, path, how), Written(path, how))
  {
    var enc, rest := Written(path, how), path[1..];
    assert enc == [SLASH] + Written(rest, how[1..]);
    if rest != [] { assert Written(rest, how[1..])[0] == Spelled(rest[0], how[1])[0]; }
    hide Written;
    StartsAre();
  }

  lemma UriIsDecoded(start: string, path: seq<byte>, how: seq<Spelling>)
    requires MayWrite(start, path, how)
    ensures DecodeLine(UriOf(start, path, how)) == Some(path)
    ensures IsLine(UriOf(start, path, how)) && !Skipped(UriOf(start, path, how)) && |UriOf(start, path, how)| <= 16 + 3 * 4095
  {
    var enc := Written(path, how);
    WrittenEncodes(path, how);
    EncodingIsPlain(enc, path);
    WrittenIsUri(start, path, how);
    assert GoodPath(path);
    LineMeans(UriOf(start, path, how), path);
    hide Encodes, DecodeLine, Written, IsFileUri, MaySpellAll;
    PlainLine(start, enc);
  }

  lemma PlainLine(start: string, enc: seq<byte>)
    requires start in STARTS && forall i :: 0 <= i < |enc| ==> !IsControl(enc[i])
    ensures IsLine(Ascii(start) + enc) && !Skipped(Ascii(start) + enc)
  {
    assert forall i :: 0 <= i < |start| ==> !IsBreak(Ascii(start)[i]);
  }

  lemma {:induction false} TextLength(lines: seq<seq<byte>>, most: nat)
    requires forall i :: 0 <= i < |lines| ==> |lines[i]| <= most && 0 !in lines[i]
    ensures |Text(lines)| <= |lines| * (most + 2) && 0 !in Text(lines)
    decreases |lines|
  {
    if lines != [] { TextLength(lines[1..], most); }
  }

  /**
   Up to 16 paths, each byte plain or escaped with digits of either case, each line starting in one of
   the three ways: the list is within the limit and comes back as those paths.
   */
  lemma ParseOfWritten(starts: seq<string>, paths: seq<seq<byte>>, hows: seq<seq<Spelling>>, lines: seq<seq<byte>>)
    requires |starts| == |paths| == |hows| == |lines| <= 16
    requires forall i :: 0 <= i < |paths| ==> MayWrite(starts[i], paths[i], hows[i]) && lines[i] == UriOf(starts[i], paths[i], hows[i])
    ensures |Text(lines)| <= 262144 && Parse(Text(lines)) == Some(paths)
  {
    hide DecodeLine, Text, Named, Parse, IsLine, Skipped, Lines, UriOf, MayWrite;
    forall i | 0 <= i < |lines|
      ensures IsLine(lines[i]) && !Skipped(lines[i]) && DecodeLine(lines[i]) == Some(paths[i])
      ensures |lines[i]| <= 16 + 3 * 4095 && 0 !in lines[i]
    {
      UriIsDecoded(starts[i], paths[i], hows[i]);
      NoZeros(starts[i], paths[i], hows[i]);
    }
    TextLength(lines, 16 + 3 * 4095);
    LinesOfText(lines);
    NamedAll(lines);
    ParseMeans(Text(lines), paths);
  }

  lemma NoZeros(start: string, path: seq<byte>, how: seq<Spelling>)
    requires MayWrite(start, path, how)
    ensures 0 !in UriOf(start, path, how)
  {
    WrittenEncodes(path, how);
    EncodingIsPlain(Written(path, how), path);
  }

  lemma {:induction false} EncodingHasNoQuery(enc: seq<byte>, path: seq<byte>)
    requires Encodes(enc, path)
    ensures forall i :: 0 <= i < |enc| ==> enc[i] != '?' as int && enc[i] != '#' as int
    decreases |path|
  {
    if path != [] {
      EncodingHasNoQuery(enc[if enc[0] == PERCENT then 3 else 1..], path[1..]);
      assert forall i :: 0 <= i < |enc| && i >= 3 ==> enc[i] == enc[3..][i - 3];
      assert forall i :: 0 <= i < |enc| && i >= 1 ==> enc[i] == enc[1..][i - 1];
    }
  }

  lemma PathIsAcceptable(path: seq<byte>)
    ensures GoodPath(path) <==> Acceptable(path)
  {
  }

  /** What is accepted is a path of that kind, from a line without a query or a fragment. */
  lemma OnlyGoodPaths(line: seq<byte>, path: seq<byte>)
    requires DecodeLine(line) == Some(path)
    ensures Acceptable(path) && forall i :: 0 <= i < |line| ==> line[i] != '?' as int && line[i] != '#' as int
    ensures exists start, enc :: start in STARTS && line == Ascii(start) + enc && enc != [] && enc[0] == '/' as int
  {
    hide DecodeLine, Encodes, IsControl;
    LineMeans(line, path);
    StartsAre();
    PathIsAcceptable(path);
    var enc :| IsFileUri(line, enc) && Encodes(enc, path);
    EncodingHasNoQuery(enc, path);
    var start := if line == AUTHORITY + enc then STARTS[1] else if line == AUTHORITY + LOCALHOST + enc then STARTS[2] else STARTS[0];
    assert line == Ascii(start) + enc;
    assert start in STARTS;
    StartHasNoQuery(start, enc);
  }

  lemma StartHasNoQuery(start: string, enc: seq<byte>)
    requires start in STARTS && forall i :: 0 <= i < |enc| ==> enc[i] != '?' as int && enc[i] != '#' as int
    ensures forall i :: 0 <= i < |start| + |enc| ==>
              (Ascii(start) + enc)[i] != '?' as int && (Ascii(start) + enc)[i] != '#' as int
  {
    assert forall i :: 0 <= i < |start| ==> Ascii(start)[i] != '?' as int && Ascii(start)[i] != '#' as int;
  }

  // ----- Comments -----

  lemma {:induction false} CollectSkips(before: seq<seq<byte>>, comment: seq<byte>, after: seq<seq<byte>>, paths: seq<seq<byte>>)
    requires comment != [] && comment[0] == '#' as int
    ensures Collect(before + [comment] + after, paths) == Collect(before + after, paths)
    decreases |before|
  {
    if before == [] {
      assert [] + [comment] + after == [comment] + after && ([comment] + after)[1..] == after && [] + after == after;
    } else {
      hide DecodeLine;
      assert (before + [comment] + after)[1..] == before[1..] + [comment] + after;
      assert (before + after)[1..] == before[1..] + after;
      if Skipped(before[0]) {
        CollectSkips(before[1..], comment, after, paths);
      } else if |paths| != FILES && DecodeLine(before[0]).Some? {
        CollectSkips(before[1..], comment, after, paths + [DecodeLine(before[0]).value]);
      }
    }
  }

  lemma {:induction false} TextOfBoth(a: seq<seq<byte>>, b: seq<seq<byte>>)
    ensures Text(a + b) == Text(a) + Text(b)
  {
    if a == [] {
      assert a + b == b;
    } else {
      assert (a + b)[1..] == a[1..] + b;
      TextOfBoth(a[1..], b);
    }
  }

  /** A line that starts with a number sign changes nothing, wherever it stands in the list. */
  lemma CommentsSayNothing(before: seq<seq<byte>>, comment: seq<byte>, after: seq<seq<byte>>)
    requires IsLine(comment) && comment[0] == '#' as int && forall i :: 0 <= i < |before + after| ==> IsLine((before + after)[i])
    requires |Text(before + [comment] + after)| <= 262144 && 0 !in Text(before + [comment] + after)
    ensures Parse(Text(before + [comment] + after)) == Parse(Text(before + after))
  {
    hide Collect, Lines, Text;
    assert forall i :: 0 <= i < |before| ==> before[i] == (before + after)[i];
    assert forall i :: 0 <= i < |after| ==> after[i] == (before + after)[|before| + i];
    TextOfBoth(before, after);
    TextOfBoth(before + [comment], after);
    TextOfBoth(before, [comment]);
    LinesOfText(before + [comment] + after);
    LinesOfText(before + after);
    CollectSkips(before, comment, after, []);
  }
}
