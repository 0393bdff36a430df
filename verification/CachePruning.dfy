/** The media cache's least-recently-used pruning: src/client/media.c, lines 22-30 and 57-121. */
module CachePruning {
  import opened Common

  const SIZE_MAX: nat := 0xFFFF_FFFF_FFFF_FFFF
  const SCAN_CAP: nat := 8192

  datatype Time = Time(seconds: int, nanoseconds: int)
  datatype File = File(regular: bool, owned: bool, size: int, used: Time)
  datatype Entry = Entry(name: string, bytes: nat, used: Time)
  datatype Usage = Usage(bytes: nat, entries: nat)
  type Files = map<string, File>

  /** What the system refuses during one call: opening, reading on or closing the directory,
      a stat or an unlink of a name, and any allocation of more than `memory` entries. */
  datatype Faults = Faults(opens: bool, complete: bool, closes: bool, stat: set<string>, unlink: set<string>, memory: nat)

  // ---------------------------------------------------------------- names

  predicate IsHexDigit(c: char) { 'a' <= c <= 'f' || '0' <= c <= '9' }

  predicate IsKey(name: string) { |name| == 64 && forall i :: 0 <= i < 64 ==> IsHexDigit(name[i]) }

  predicate IsTemporary(name: string) {
    |name| == 36 && name[..4] == "tmp-" && forall i :: 4 <= i < 36 ==> IsHexDigit(name[i])
  }

  lemma HexDigits()
    ensures forall c :: IsHexDigit(c) <==> c in "0123456789abcdef"
  {
    forall c ensures IsHexDigit(c) <==> c in "0123456789abcdef" {
      var digits := "0123456789abcdef";
      if '0' <= c <= '9' { assert digits[c as int - '0' as int] == c; }
      if 'a' <= c <= 'f' { assert digits[10 + c as int - 'a' as int] == c; }
    }
  }

  method CacheName(name: string) returns (accepted: bool)
    ensures accepted <==> IsKey(name) || IsTemporary(name)
    ensures accepted <==>
            || (|name| == 64 && forall i :: 0 <= i < 64 ==> name[i] in "0123456789abcdef")
            || (|name| == 36 && name[..4] == "tmp-" && forall i :: 4 <= i < 36 ==> name[i] in "0123456789abcdef")
  {
    HexDigits();
    if |name| != 64 && |name| != 36 { return false; }
    var start := 0;
    if |name| == 36 {
      if name[..4] != "tmp-" { return false; }
      start := 4;
    }
    var i := start;
    while i < |name|
      invariant start <= i <= |name|
      invariant forall k :: start <= k < i ==> IsHexDigit(name[k])
    {
      if !IsHexDigit(name[i]) { return false; }
      i := i + 1;
    }
    return true;
  }

  // ---------------------------------------------------------------- what a directory holds

  /** A file that the cache counts: a regular file of this user, under a cache name. */
  predicate Tracked(name: string, file: File) {
    (IsKey(name) || IsTemporary(name)) && file.regular && file.owned && file.size >= 0
  }

  ghost function Keyed(files: Files): set<string> {
    set n | n in files && Tracked(n, files[n]) && |n| == 64
  }

  ghost function Temporaries(files: Files): set<string> {
    set n | n in files && Tracked(n, files[n]) && |n| == 36
  }

  ghost function Sum(files: Files, names: set<string>): nat
    requires names <= files.Keys
    requires forall n :: n in names ==> files[n].size >= 0
  {
    if names == {} then 0 else var n :| n in names; files[n].size + Sum(files, names - {n})
  }

  lemma {:induction false} SumWithout(files: Files, names: set<string>, x: string)
    requires names <= files.Keys && x in names
    requires forall n :: n in names ==> files[n].size >= 0
    ensures Sum(files, names) == files[x].size + Sum(files, names - {x})
  {
    var n :| n in names && Sum(files, names) == files[n].size + Sum(files, names - {n});
    if n != x {
      SumWithout(files, names - {n}, x);
      SumWithout(files, names - {x}, n);
      assert names - {n} - {x} == names - {x} - {n};
    }
  }

  lemma {:induction false} SumUnchanged(was: Files, files: Files, names: set<string>)
    requires names <= was.Keys && names <= files.Keys
    requires forall n :: n in names ==> files[n] == was[n] && files[n].size >= 0
    ensures Sum(files, names) == Sum(was, names)
  {
    if names != {} {
      var n :| n in names;
      SumWithout(files, names, n);
      SumWithout(was, names, n);
      SumUnchanged(was, files, names - {n});
    }
  }

  /** The bytes and keyed files that a directory really holds. */
  ghost function TrueUsage(files: Files): Usage {
    Usage(Sum(files, Keyed(files) + Temporaries(files)), |Keyed(files)|)
  }

  lemma {:induction false} SumOfParts(files: Files, a: set<string>, b: set<string>)
    requires a <= files.Keys && b <= files.Keys && a !! b
    requires forall n :: n in a + b ==> files[n].size >= 0
    ensures Sum(files, a + b) == Sum(files, a) + Sum(files, b)
  {
    if a == {} {
      assert a + b == b;
    } else {
      var n :| n in a;
      SumOfParts(files, a - {n}, b);
      SumWithout(files, a, n);
      SumWithout(files, a + b, n);
      assert a + b - {n} == (a - {n}) + b;
    }
  }

  // ---------------------------------------------------------------- the entry array

  function Oldest(a: Time, b: Time): int {
    if a.seconds != b.seconds then if a.seconds < b.seconds then -1 else 1
    else if a.nanoseconds < b.nanoseconds then -1
    else if a.nanoseconds > b.nanoseconds then 1 else 0
  }

  predicate NotAfter(a: Time, b: Time) { Oldest(a, b) <= 0 }

  /** The comparison is a total order on times, which a sort by it needs. */
  lemma OldestIsAnOrder(a: Time, b: Time, c: Time)
    ensures Oldest(a, b) == -Oldest(b, a)
    ensures Oldest(a, b) == 0 <==> a == b
    ensures NotAfter(a, b) && NotAfter(b, c) ==> NotAfter(a, c)
    ensures Oldest(a, b) == -1 <==>
            a.seconds < b.seconds || (a.seconds == b.seconds && a.nanoseconds < b.nanoseconds)
  {
  }

  predicate Sorted(entries: seq<Entry>) {
    forall i, j :: 0 <= i < j < |entries| ==> NotAfter(entries[i].used, entries[j].used)
  }

  function Weight(entries: seq<Entry>): nat {
    if entries == [] then 0 else entries[0].bytes + Weight(entries[1..])
  }

  predicate Distinct(entries: seq<Entry>) {
    forall i, j :: 0 <= i < j < |entries| ==> entries[i].name != entries[j].name
  }

  function Names(entries: seq<Entry>): set<string> {
    set i | 0 <= i < |entries| :: entries[i].name
  }

  predicate Describes(files: Files, entry: Entry) {
    entry.name in files && IsKey(entry.name) && Tracked(entry.name, files[entry.name])
    && files[entry.name].size == entry.bytes && files[entry.name].used == entry.used
  }

  lemma {:induction false} WeightOfAppended(entries: seq<Entry>, last: Entry)
    ensures Weight(entries + [last]) == Weight(entries) + last.bytes
  {
    if entries != [] {
      assert (entries + [last])[1..] == entries[1..] + [last];
      WeightOfAppended(entries[1..], last);
    } else {
      assert (entries + [last])[1..] == [];
    }
  }

  lemma NamesOfRest(entries: seq<Entry>)
    requires entries != [] && Distinct(entries)
    ensures entries[0].name !in Names(entries[1..])
    ensures Names(entries) == Names(entries[1..]) + {entries[0].name}
  {
    var rest := entries[1..];
    forall i | 0 <= i < |entries| ensures entries[i].name in Names(rest) + {entries[0].name} {
      assert i > 0 ==> rest[i - 1].name == entries[i].name;
    }
    forall i | 0 <= i < |rest| ensures rest[i].name in Names(entries) {
      assert rest[i].name == entries[i + 1].name;
    }
  }

  /** Entries with distinct names weigh what their files hold together. */
  lemma {:induction false} WeightIsSum(files: Files, entries: seq<Entry>)
    requires Distinct(entries)
    requires forall e :: e in entries ==> Describes(files, e)
    ensures Names(entries) <= files.Keys
    ensures forall n :: n in Names(entries) ==> files[n].size >= 0
    ensures Weight(entries) == Sum(files, Names(entries))
    ensures |Names(entries)| == |entries|
  {
    DescribedNames(files, entries);
    if entries != [] {
      NamesOfRest(entries);
      DistinctRest(entries);
      hide Names, Distinct, Describes;
      WeightIsSum(files, entries[1..]);
      assert Names(entries) - {entries[0].name} == Names(entries[1..]);
      SumWithout(files, Names(entries), entries[0].name);
    }
  }

  lemma DescribedNames(files: Files, entries: seq<Entry>)
    requires forall e :: e in entries ==> Describes(files, e)
    ensures Names(entries) <= files.Keys
    ensures forall n :: n in Names(entries) ==> files[n].size >= 0
    ensures entries != [] ==> files[entries[0].name].size == entries[0].bytes
  {
    forall i | 0 <= i < |entries| ensures Describes(files, entries[i]) { assert entries[i] in entries; }
    assert entries != [] ==> entries[0].name in Names(entries);
  }

  lemma DistinctRest(entries: seq<Entry>)
    requires entries != [] && Distinct(entries)
    ensures Distinct(entries[1..])
    ensures forall e :: e in entries[1..] ==> e in entries
  {
    assert forall i :: 0 <= i < |entries| - 1 ==> entries[1..][i] == entries[i + 1];
  }

  /** Elements a and b of a sequence exchanged. */
  function Swapped(s: seq<Entry>, a: nat, b: nat): (r: seq<Entry>)
    requires a < |s| && b < |s|
    ensures |r| == |s|
    ensures forall k :: 0 <= k < |s| ==> r[k] == if k == a then s[b] else if k == b then s[a] else s[k]
  {
    s[a := s[b]][b := s[a]]
  }

  predicate Permutes(was: seq<Entry>, now: seq<Entry>) {
    |was| == |now| && multiset(was) == multiset(now)
  }

  /** The first i + 1 elements are in order apart from the one at j, which may belong further left. */
  predicate Sinking(s: seq<Entry>, i: nat, j: nat) {
    && j <= i < |s|
    && (forall a, b :: 0 <= a < b <= i && b != j ==> NotAfter(s[a].used, s[b].used))
    && (forall b :: j < b <= i ==> NotAfter(s[j].used, s[b].used))
  }

  lemma SwapSinks(s: seq<Entry>, i: nat, j: nat)
    requires 0 < j && Sinking(s, i, j) && Oldest(s[j].used, s[j - 1].used) < 0
    ensures Sinking(Swapped(s, j - 1, j), i, j - 1)
  {
  }

  lemma SinkingStarts(s: seq<Entry>, i: nat)
    requires i < |s| && Sorted(s[..i])
    ensures Sinking(s, i, i)
  {
    var t := s[..i];
    forall a, b | 0 <= a < b <= i && b != i ensures NotAfter(s[a].used, s[b].used) {
      assert t[a] == s[a] && t[b] == s[b];
    }
  }

  lemma SinkingEnds(s: seq<Entry>, i: nat, j: nat)
    requires Sinking(s, i, j) && (j == 0 || NotAfter(s[j - 1].used, s[j].used))
    ensures Sorted(s[..i + 1])
  {
    forall a | 0 <= a < j ensures NotAfter(s[a].used, s[j].used) {
      if a < j - 1 { OldestIsAnOrder(s[a].used, s[j - 1].used, s[j].used); }
    }
  }

  /** Any sort meeting this contract serves: ties may come in either order. */
  method Sort(entries: array<Entry>, count: nat)
    requires count <= entries.Length
    modifies entries
    ensures Sorted(entries[..count])
    ensures Permutes(old(entries[..count]), entries[..count])
  {
    var i := 0;
    while i < count
      invariant i <= count
      invariant Sorted(entries[..count][..i])
      invariant Permutes(old(entries[..count]), entries[..count])
    {
      Sink(entries, count, i);
      i := i + 1;
    }
    assert entries[..count][..count] == entries[..count];
  }

  method Sink(entries: array<Entry>, count: nat, i: nat)
    requires i < count <= entries.Length && Sorted(entries[..count][..i])
    modifies entries
    ensures Sorted(entries[..count][..i + 1])
    ensures Permutes(old(entries[..count]), entries[..count])
  {
    hide Sorted, Sinking, Permutes;
    var j := i;
    ghost var now := entries[..count];
    SinkingStarts(now, i);
    Unpermuted(now);
    while j > 0 && Oldest(entries[j].used, entries[j - 1].used) < 0
      invariant 0 <= j <= i
      invariant now == entries[..count]
      invariant Sinking(now, i, j)
      invariant Permutes(old(entries[..count]), now)
    {
      SwapSinks(now, i, j);
      ThenSwapped(old(entries[..count]), now, j - 1, j);
      entries[j - 1], entries[j] := entries[j], entries[j - 1];
      now := Swapped(now, j - 1, j);
      j := j - 1;
    }
    SinkingEnds(now, i, j);
  }

  lemma Unpermuted(s: seq<Entry>)
    ensures Permutes(s, s)
  {
  }

  lemma ThenSwapped(was: seq<Entry>, now: seq<Entry>, a: nat, b: nat)
    requires Permutes(was, now) && a < |now| && b < |now|
    ensures Permutes(was, Swapped(now, a, b))
  {
    assert multiset(Swapped(now, a, b)) == multiset(now);
  }

  // ---------------------------------------------------------------- scanning

  function Elements(names: seq<string>): set<string> { set n | n in names }

  predicate NoDuplicates(names: seq<string>) {
    forall i, j :: 0 <= i < j < |names| ==> names[i] != names[j]
  }

  /** Files only disappear, and only files that the cache counts. */
  ghost predicate Keeps(was: Files, now: Files) {
    && now.Keys <= was.Keys
    && (forall n :: n in now ==> now[n] == was[n])
    && (forall n :: n in was && n !in now ==> Tracked(n, was[n]))
  }

  ghost predicate KeepsTemporaries(was: Files, now: Files) {
    forall n :: n in was && |n| == 36 ==> n in now
  }

  /** What the temporaries weigh that a scan leaves in place. */
  ghost function Held(was: Files, startup: bool, seen: set<string>): nat {
    if startup then 0 else Sum(was, Temporaries(was) * seen)
  }

  ghost predicate Faithful(was: Files, now: Files, seen: set<string>, entries: seq<Entry>, bytes: nat, startup: bool) {
    && Names(entries) == Keyed(now) * seen
    && bytes == Weight(entries) + Held(was, startup, seen)
    && (startup ==> Temporaries(now) * seen == {})
    && (Keyed(now) != Keyed(was) ==> |entries| == SCAN_CAP)
  }

  /** Where a scan that began with `was` stands after looking at the names in `seen`. */
  ghost predicate Scanned(was: Files, now: Files, seen: set<string>, entries: seq<Entry>, bytes: nat, startup: bool, ok: bool) {
    && Keeps(was, now)
    && (!startup ==> KeepsTemporaries(was, now))
    && (forall n :: n in was && n !in seen ==> n in now)
    && (forall e :: e in entries ==> Describes(now, e) && e.name in seen)
    && Distinct(entries) && |entries| <= SCAN_CAP
    && Weight(entries) <= bytes <= SIZE_MAX
    && (ok ==> Faithful(was, now, seen, entries, bytes, startup))
  }

  /** Nothing the system does can make the call fail. */
  predicate Sound(faults: Faults) {
    faults.opens && faults.complete && faults.closes && faults.stat == {} && faults.unlink == {}
    && faults.memory >= SCAN_CAP
  }

  lemma SkipsUntracked(was: Files, now: Files, seen: set<string>, entries: seq<Entry>, bytes: nat, startup: bool, ok: bool, name: string)
    requires Scanned(was, now, seen, entries, bytes, startup, ok) && name !in seen
    requires name in now ==> !Tracked(name, now[name])
    ensures Scanned(was, now, seen + {name}, entries, bytes, startup, ok)
  {
    assert Keyed(now) * (seen + {name}) == Keyed(now) * seen;
    assert Temporaries(now) * (seen + {name}) == Temporaries(now) * seen;
    assert Temporaries(was) * (seen + {name}) == Temporaries(was) * seen || name in Temporaries(was);
    if name in Temporaries(was) { assert name in now; }
  }

  lemma PassesOver(was: Files, now: Files, seen: set<string>, entries: seq<Entry>, bytes: nat, startup: bool, ok: bool, name: string)
    requires Scanned(was, now, seen, entries, bytes, startup, ok)
    ensures Scanned(was, now, seen + {name}, entries, bytes, startup, false)
    ensures Scanned(was, now, seen, entries, bytes, startup, false)
  {
  }

  lemma DropsTemporary(was: Files, now: Files, seen: set<string>, entries: seq<Entry>, bytes: nat, ok: bool, name: string)
    requires Scanned(was, now, seen, entries, bytes, true, ok) && name !in seen
    requires name in now && Tracked(name, now[name]) && IsTemporary(name)
    ensures Scanned(was, now - {name}, seen + {name}, entries, bytes, true, ok)
  {
    assert Keyed(now - {name}) == Keyed(now);
    assert Keyed(now) * (seen + {name}) == Keyed(now) * seen;
    assert Temporaries(now - {name}) * (seen + {name}) == Temporaries(now) * seen;
  }

  lemma CountsTemporary(was: Files, now: Files, seen: set<string>, entries: seq<Entry>, bytes: nat, startup: bool, ok: bool, name: string)
    requires Scanned(was, now, seen, entries, bytes, startup, ok) && name !in seen
    requires name in now && Tracked(name, now[name]) && IsTemporary(name)
    requires startup ==> !ok
    requires bytes + now[name].size <= SIZE_MAX
    ensures Scanned(was, now, seen + {name}, entries, bytes + now[name].size, startup, ok)
  {
    if ok {
      assert Keyed(now) * (seen + {name}) == Keyed(now) * seen;
      var more := Temporaries(was) * (seen + {name});
      assert more - {name} == Temporaries(was) * seen;
      SumWithout(was, more, name);
    }
  }

  lemma DropsExtra(was: Files, now: Files, seen: set<string>, entries: seq<Entry>, bytes: nat, startup: bool, ok: bool, name: string)
    requires Scanned(was, now, seen, entries, bytes, startup, ok) && name !in seen
    requires name in now && Tracked(name, now[name]) && IsKey(name)
    requires |entries| == SCAN_CAP
    ensures Scanned(was, now - {name}, seen + {name}, entries, bytes, startup, ok)
  {
    assert Keyed(now - {name}) * (seen + {name}) == Keyed(now) * seen;
    assert Temporaries(now - {name}) * (seen + {name}) == Temporaries(now) * seen;
    assert Temporaries(was) * (seen + {name}) == Temporaries(was) * seen;
  }

  lemma CountsEntry(was: Files, now: Files, seen: set<string>, entries: seq<Entry>, bytes: nat, startup: bool, ok: bool, name: string)
    requires Scanned(was, now, seen, entries, bytes, startup, ok) && name !in seen
    requires name in now && Tracked(name, now[name]) && IsKey(name)
    requires |entries| < SCAN_CAP && bytes + now[name].size <= SIZE_MAX
    ensures var last := Entry(name, now[name].size, now[name].used);
            Scanned(was, now, seen + {name}, entries + [last], bytes + now[name].size, startup, ok)
  {
    var last := Entry(name, now[name].size, now[name].used);
    WeightOfAppended(entries, last);
    NamesOfAppended(entries, last);
    forall i | 0 <= i < |entries| ensures entries[i].name != name {
      assert entries[i] in entries;
    }
    assert Keyed(now) * (seen + {name}) == Keyed(now) * seen + {name};
    assert Temporaries(now) * (seen + {name}) == Temporaries(now) * seen;
    assert Temporaries(was) * (seen + {name}) == Temporaries(was) * seen;
  }

  lemma NamesOfAppended(entries: seq<Entry>, last: Entry)
    ensures Names(entries + [last]) == Names(entries) + {last.name}
  {
    var all := entries + [last];
    assert all[|entries|].name == last.name;
    forall i | 0 <= i < |entries| ensures entries[i].name in Names(all) {
      assert all[i].name == entries[i].name;
    }
  }

  lemma {:induction false} SumOfFewer(files: Files, few: set<string>, many: set<string>)
    requires few <= many <= files.Keys
    requires forall n :: n in many ==> files[n].size >= 0
    ensures Sum(files, few) <= Sum(files, many)
  {
    SumOfParts(files, few, many - few);
    assert few + (many - few) == many;
  }

  /** A scan without faults never counts more than the directory held at first. */
  lemma CountFits(was: Files, now: Files, seen: set<string>, entries: seq<Entry>, bytes: nat, startup: bool, name: string)
    requires Scanned(was, now, seen, entries, bytes, startup, true) && name !in seen
    requires name in now && Tracked(name, now[name])
    ensures bytes + now[name].size <= TrueUsage(was).bytes
  {
    Counted(was, now, seen, entries, bytes, startup, name);
    hide Sum, Weight, Scanned, Names, Describes, Distinct, Tracked;
    WeightIsSum(was, entries);
    SumOfNone(was);
    PartsFit(was, Names(entries), if startup then {} else Temporaries(was) * seen, name, Keyed(was) + Temporaries(was));
  }

  lemma Counted(was: Files, now: Files, seen: set<string>, entries: seq<Entry>, bytes: nat, startup: bool, name: string)
    requires Scanned(was, now, seen, entries, bytes, startup, true) && name !in seen
    requires name in now && Tracked(name, now[name])
    ensures bytes == Weight(entries) + Held(was, startup, seen)
    ensures Distinct(entries) && forall e :: e in entries ==> Describes(was, e)
    ensures Names(entries) <= Keyed(was) && name in Keyed(was) + Temporaries(was)
    ensures name !in Names(entries) && name in was && was[name] == now[name]
  {
    hide Sum, Weight;
    forall e | e in entries ensures Describes(was, e) { assert Describes(now, e); }
  }

  lemma SumOfNone(files: Files)
    ensures Sum(files, {}) == 0
  {
  }

  lemma PartsFit(files: Files, a: set<string>, b: set<string>, name: string, all: set<string>)
    requires a <= all && b <= all && name in all && name !in a + b && a !! b && all <= files.Keys
    requires forall n :: n in all ==> files[n].size >= 0
    ensures Sum(files, a) + Sum(files, b) + files[name].size <= Sum(files, all)
  {
    SumOfParts(files, a, b);
    var counted := a + b;
    SumWithout(files, counted + {name}, name);
    assert counted + {name} - {name} == counted;
    SumOfFewer(files, counted + {name}, all);
  }

  lemma ScanStarts(was: Files, startup: bool)
    ensures Scanned(was, was, {}, [], 0, startup, true)
  {
    assert Temporaries(was) * {} == {} && Keyed(was) * {} == {};
  }

  lemma Bounds(was: Files, now: Files, seen: set<string>, entries: seq<Entry>, bytes: nat, startup: bool, ok: bool)
    requires Scanned(was, now, seen, entries, bytes, startup, ok)
    ensures |entries| <= SCAN_CAP && bytes <= SIZE_MAX
  {
  }

  lemma SkipsAbsent(was: Files, now: Files, seen: set<string>, entries: seq<Entry>, bytes: nat, startup: bool, ok: bool, name: string)
    requires Scanned(was, now, seen, entries, bytes, startup, ok) && name !in seen
    requires !(IsKey(name) || IsTemporary(name)) || name !in now
    ensures Scanned(was, now, seen + {name}, entries, bytes, startup, ok)
  {
    SkipsUntracked(was, now, seen, entries, bytes, startup, ok, name);
  }

  lemma SkipsOthers(was: Files, now: Files, seen: set<string>, entries: seq<Entry>, bytes: nat, startup: bool, ok: bool, name: string)
    requires Scanned(was, now, seen, entries, bytes, startup, ok) && name !in seen
    requires name in now && (!now[name].regular || !now[name].owned || now[name].size < 0)
    ensures Scanned(was, now, seen + {name}, entries, bytes, startup, ok)
  {
    SkipsUntracked(was, now, seen, entries, bytes, startup, ok, name);
  }

  lemma Fails(was: Files, now: Files, seen: set<string>, entries: seq<Entry>, bytes: nat, startup: bool, ok: bool)
    requires Scanned(was, now, seen, entries, bytes, startup, ok)
    ensures Scanned(was, now, seen, entries, bytes, startup, false)
  {
  }

  lemma SoundParts(faults: Faults)
    ensures Sound(faults) ==> faults.complete && faults.stat == {} && faults.unlink == {} && faults.memory >= SCAN_CAP
  {
  }

  lemma SizeIsNatural(name: string, file: File)
    requires Tracked(name, file)
    ensures file.size >= 0
  {
  }

  lemma Classify(name: string, file: File)
    requires (IsKey(name) || IsTemporary(name)) && file.regular && file.owned && file.size >= 0
    ensures Tracked(name, file)
    ensures if |name| == 36 then IsTemporary(name) else IsKey(name)
  {
  }

  lemma ElementsStart(names: seq<string>)
    ensures Elements(names[..0]) == {}
  {
  }

  lemma ElementsStep(names: seq<string>, i: nat)
    requires i < |names| && NoDuplicates(names)
    ensures names[i] !in Elements(names[..i])
    ensures Elements(names[..i + 1]) == Elements(names[..i]) + {names[i]}
  {
    assert names[..i + 1] == names[..i] + [names[i]];
  }

  /** The capacities that doubling from 64 goes through. */
  predicate Capacity(n: nat) { n in {0, 64, 128, 256, 512, 1024, 2048, 4096, 8192} }

  // ---------------------------------------------------------------- evicting

  predicate Over(bytes: nat, entries: nat, budget: nat, most: nat) {
    bytes > budget || entries > most
  }

  /** `evicted` is the length of the shortest prefix of `order` whose removal meets the limits. */
  predicate Shortest(held: nat, order: seq<Entry>, evicted: nat, budget: nat, most: nat) {
    && evicted <= |order|
    && !Over(held + Weight(order[evicted..]), |order| - evicted, budget, most)
    && forall j :: 0 <= j < evicted ==> Over(held + Weight(order[j..]), |order| - j, budget, most)
  }

  /** Only files with the given names may have gone. */
  ghost predicate Removed(was: Files, now: Files, names: set<string>) {
    && now.Keys <= was.Keys
    && (forall n :: n in now ==> now[n] == was[n])
    && (forall n :: n in was && n !in names ==> n in now)
  }

  /** The first i entries of `order` have been unlinked, each while a limit was exceeded. */
  ghost predicate Evicting(was: Files, now: Files, order: seq<Entry>, i: nat, bytes: nat, remaining: nat, total: nat, budget: nat, most: nat) {
    && i <= |order| && Weight(order) <= total
    && now == was - Names(order[..i])
    && bytes == total - Weight(order) + Weight(order[i..])
    && remaining == |order| - i
    && forall j :: 0 <= j < i ==> Over(total - Weight(order) + Weight(order[j..]), |order| - j, budget, most)
  }

  ghost predicate Evicted(was: Files, now: Files, order: seq<Entry>, i: nat, bytes: nat, remaining: nat, total: nat, budget: nat, most: nat) {
    && Evicting(was, now, order, i, bytes, remaining, total, budget, most)
    && (Over(bytes, remaining, budget, most) ==> i == |order|)
  }

  lemma EvictionStarts(was: Files, order: seq<Entry>, total: nat, budget: nat, most: nat)
    requires Weight(order) <= total
    ensures Removed(was, was, Names(order[..0]))
    ensures order[0..] == order
    ensures Evicting(was, was, order, 0, total, |order|, total, budget, most)
  {
    assert Names(order[..0]) == {};
    assert was - {} == was;
  }

  lemma NamesOfNext(order: seq<Entry>, i: nat)
    requires i < |order|
    ensures Names(order[..i + 1]) == Names(order[..i]) + {order[i].name}
  {
    assert order[..i + 1] == order[..i] + [order[i]];
    NamesOfAppended(order[..i], order[i]);
  }

  lemma NotYet(order: seq<Entry>, i: nat)
    requires i < |order| && Distinct(order)
    ensures order[i].name !in Names(order[..i])
  {
  }

  /** What unlinking the next entry does to the loop's invariants, and that it is there to unlink. */
  lemma EvictionStep(was: Files, now: Files, order: seq<Entry>, i: nat, bytes: nat, remaining: nat, total: nat, budget: nat, most: nat, ok: bool)
    requires i < |order| && Distinct(order) && Describes(was, order[i])
    requires Removed(was, now, Names(order[..i])) && Over(bytes, remaining, budget, most)
    requires ok ==> Evicting(was, now, order, i, bytes, remaining, total, budget, most)
    ensures order[i].name in now
    ensures Removed(was, now, Names(order[..i + 1])) && Removed(was, now - {order[i].name}, Names(order[..i + 1]))
    ensures ok && bytes >= order[i].bytes && remaining > 0 ==>
              Evicting(was, now - {order[i].name}, order, i + 1, bytes - order[i].bytes, remaining - 1, total, budget, most)
  {
    NamesOfNext(order, i);
    NotYet(order, i);
    WeightOfRest(order, i);
    hide Names, Weight, Distinct;
    if ok { assert now - {order[i].name} == was - Names(order[..i + 1]); }
  }

  lemma EvictionEnds(was: Files, now: Files, order: seq<Entry>, i: nat, bytes: nat, remaining: nat, total: nat, budget: nat, most: nat, ok: bool)
    requires i <= |order| && Removed(was, now, Names(order[..i]))
    requires ok ==> Evicting(was, now, order, i, bytes, remaining, total, budget, most)
    requires i == |order| || !(bytes > budget || remaining > most)
    ensures Removed(was, now, Names(order))
    ensures ok ==> Evicted(was, now, order, i, bytes, remaining, total, budget, most)
  {
    forall n | n in Names(order[..i]) ensures n in Names(order) {
      var k :| 0 <= k < i && order[..i][k].name == n;
      assert order[k].name == n;
    }
  }

  lemma WeightOfRest(order: seq<Entry>, i: nat)
    requires i < |order|
    ensures Weight(order[i..]) == order[i].bytes + Weight(order[i + 1..])
  {
    assert order[i..][1..] == order[i + 1..];
  }

  lemma {:induction false} WeightPermutes(was: seq<Entry>, now: seq<Entry>)
    requires Permutes(was, now)
    ensures Weight(was) == Weight(now)
  {
    if was != [] {
      MembersPermute(was, now);
      assert was[0] in now;
      var i := IndexOf(now, was[0]);
      var rest := now[..i] + now[i + 1..];
      RestPermutes(was, now, i);
      WeightPermutes(was[1..], rest);
      WeightOfMiddle(now[..i], now[i], now[i + 1..]);
      assert now == now[..i] + [now[i]] + now[i + 1..];
    }
  }

  lemma RestPermutes(was: seq<Entry>, now: seq<Entry>, i: nat)
    requires Permutes(was, now) && i < |now| && was[0] == now[i]
    ensures Permutes(was[1..], now[..i] + now[i + 1..])
  {
    assert now == now[..i] + [now[i]] + now[i + 1..];
    assert was == [was[0]] + was[1..];
    assert multiset(now[..i] + now[i + 1..]) == multiset(now) - multiset{now[i]};
    assert multiset(was[1..]) == multiset(was) - multiset{was[0]};
  }

  lemma {:induction false} WeightOfMiddle(left: seq<Entry>, e: Entry, right: seq<Entry>)
    ensures Weight(left + [e] + right) == e.bytes + Weight(left + right)
  {
    if left == [] {
      assert ([] + [e] + right)[1..] == right && [] + right == right;
    } else {
      WeightOfMiddle(left[1..], e, right);
      assert (left + [e] + right)[1..] == left[1..] + [e] + right;
      assert (left + right)[1..] == left[1..] + right;
    }
  }

  lemma CountsTwice(s: seq<Entry>, i: nat, j: nat)
    requires i < j < |s| && s[i] == s[j]
    ensures multiset(s)[s[i]] >= 2
  {
    assert s == s[..j] + s[j..];
    assert s[i] in s[..j] && s[j] in s[j..];
    assert multiset(s) == multiset(s[..j]) + multiset(s[j..]);
  }

  lemma CountsOnce(s: seq<Entry>, i: nat)
    requires i < |s| && Distinct(s)
    ensures multiset(s)[s[i]] == 1
  {
    assert s == s[..i] + [s[i]] + s[i + 1..];
    assert s[i] !in s[..i] && s[i] !in s[i + 1..];
  }

  lemma MembersPermute(was: seq<Entry>, now: seq<Entry>)
    requires Permutes(was, now)
    ensures forall e :: e in now <==> e in was
    ensures Names(now) == Names(was)
  {
    forall e ensures e in now <==> e in was {
      assert e in multiset(now) <==> e in multiset(was);
    }
    forall i | 0 <= i < |now| ensures now[i].name in Names(was) { assert now[i] in was; }
    forall i | 0 <= i < |was| ensures was[i].name in Names(now) { assert was[i] in now; }
  }

  lemma DistinctPermutes(was: seq<Entry>, now: seq<Entry>)
    requires Permutes(was, now) && Distinct(was)
    ensures Distinct(now)
  {
    MembersPermute(was, now);
    forall i, j | 0 <= i < j < |now| ensures now[i].name != now[j].name {
      if now[i].name == now[j].name {
        var a := IndexOf(was, now[i]);
        var b := IndexOf(was, now[j]);
        assert a == b;
        CountsTwice(now, i, j);
        CountsOnce(was, a);
      }
    }
  }

  ghost function IndexOf(s: seq<Entry>, e: Entry): (i: nat)
    requires e in s
    ensures i < |s| && s[i] == e
  {
    var i :| 0 <= i < |s| && s[i] == e; i
  }

  // ---------------------------------------------------------------- a whole call

  /** The bytes that no eviction can free: those of temporaries that stay. */
  ghost function Unevictable(files: Files, startup: bool): nat {
    if startup then 0 else Sum(files, Temporaries(files))
  }

  /** `order` is the files the scan kept, oldest first if any had to go; the first `evicted` are gone. */
  ghost predicate LeastRecentFirst(was: Files, now: Files, order: seq<Entry>, evicted: nat) {
    && evicted <= |order| && Distinct(order)
    && (forall e :: e in order ==> Describes(was, e))
    && (evicted > 0 ==> Sorted(order))
    && Keyed(now) == Names(order[evicted..])
    && |order| <= 8192 && (Names(order) != Keyed(was) ==> |order| == 8192)
  }

  ghost predicate Pruned(was: Files, now: Files, startup: bool, budget: nat, most: nat, usage: Usage, order: seq<Entry>, evicted: nat) {
    && usage == TrueUsage(now) && !Over(usage.bytes, usage.entries, budget, most)
    && Temporaries(now) == (if startup then {} else Temporaries(was))
    && LeastRecentFirst(was, now, order, evicted)
    && Shortest(Unevictable(was, startup), order, evicted, budget, most)
  }

  lemma Unchanged(files: Files)
    ensures Keeps(files, files) && KeepsTemporaries(files, files)
  {
  }

  /** The part of a finished scan's state that the eviction relies on. */
  ghost predicate Ready(was: Files, mid: Files, seen: set<string>, entries: seq<Entry>, bytes: nat, startup: bool, ok: bool) {
    && Scanned(was, mid, seen, entries, bytes, startup, ok)
    && Distinct(entries) && Weight(entries) <= bytes
    && forall e :: e in entries ==> Describes(mid, e)
  }

  lemma ScanEnds(was: Files, mid: Files, seen: set<string>, entries: seq<Entry>, bytes: nat, startup: bool, ok: bool)
    requires Scanned(was, mid, seen, entries, bytes, startup, ok)
    ensures Ready(was, mid, seen, entries, bytes, startup, ok)
    ensures Keeps(was, mid) && (!startup ==> KeepsTemporaries(was, mid))
  {
  }

  lemma Reordered(was: Files, mid: Files, seen: set<string>, entries: seq<Entry>, order: seq<Entry>, bytes: nat, startup: bool, ok: bool)
    requires Ready(was, mid, seen, entries, bytes, startup, ok) && Permutes(entries, order)
    ensures Ready(was, mid, seen, order, bytes, startup, ok)
  {
    MembersPermute(entries, order);
    DistinctPermutes(entries, order);
    WeightPermutes(entries, order);
    hide Names, Permutes, Describes, Distinct;
  }

  lemma EvictionKeeps(was: Files, mid: Files, now: Files, order: seq<Entry>, startup: bool)
    requires Keeps(was, mid) && (!startup ==> KeepsTemporaries(was, mid))
    requires Removed(mid, now, Names(order))
    requires forall e :: e in order ==> Describes(mid, e)
    ensures Keeps(was, now) && (!startup ==> KeepsTemporaries(was, now))
  {
    forall n | n in mid && n !in now ensures Tracked(n, mid[n]) && |n| == 64 {
      assert n in Names(order);
      var i :| 0 <= i < |order| && order[i].name == n;
      assert order[i] in order;
    }
  }

  lemma FewAreSorted(order: seq<Entry>)
    requires |order| <= 1
    ensures Sorted(order)
  {
  }

  lemma EvictsNothing(mid: Files, order: seq<Entry>, total: nat, budget: nat, most: nat)
    requires Weight(order) <= total && !Over(total, |order|, budget, most)
    ensures Evicted(mid, mid, order, 0, total, |order|, total, budget, most)
  {
    EvictionStarts(mid, order, total, budget, most);
  }

  lemma NamesSplit(order: seq<Entry>, k: nat)
    requires k <= |order| && Distinct(order)
    ensures Names(order[k..]) == Names(order) - Names(order[..k])
  {
    forall i | 0 <= i < |order| ensures order[i].name in Names(order[..k]) || order[i].name in Names(order[k..]) {
      if i < k { assert order[..k][i] == order[i]; } else { assert order[k..][i - k] == order[i]; }
    }
  }

  /** What is left after evicting the first k of the files that the scan kept. */
  lemma Leaves(was: Files, mid: Files, now: Files, seen: set<string>, order: seq<Entry>, k: nat, bytes: nat, startup: bool)
    requires Ready(was, mid, seen, order, bytes, startup, true) && was.Keys <= seen
    requires k <= |order| && now == mid - Names(order[..k])
    ensures Keyed(now) == Names(order[k..])
    ensures Temporaries(now) == (if startup then {} else Temporaries(was))
    ensures bytes == Weight(order) + Unevictable(was, startup)
    ensures Names(order) != Keyed(was) ==> |order| == SCAN_CAP
    ensures forall e :: e in order[k..] ==> Describes(now, e)
    ensures forall e :: e in order ==> Describes(was, e)
    ensures forall n :: n in now ==> n in was && now[n] == was[n]
  {
    hide Weight, Sum;
    assert Keyed(mid) * seen == Keyed(mid);
    assert Temporaries(was) * seen == Temporaries(was);
    assert Temporaries(mid) * seen == Temporaries(mid);
    NamesSplit(order, k);
    RestIsDescribed(mid, order, k);
    KeyedNames(mid, order);
    assert Keyed(now) == Keyed(mid) - Names(order[..k]);
    NamesOfPrefix(order, k);
    assert Temporaries(now) == Temporaries(mid);
    forall e | e in order ensures Describes(was, e) { assert Describes(mid, e); }
  }

  lemma NamesOfPrefix(order: seq<Entry>, k: nat)
    requires k <= |order|
    ensures Names(order[..k]) <= Names(order)
  {
    forall i | 0 <= i < k ensures order[..k][i].name in Names(order) { assert order[..k][i] == order[i]; }
  }

  lemma KeyedNames(mid: Files, order: seq<Entry>)
    requires forall e :: e in order ==> Describes(mid, e)
    ensures forall n :: n in Names(order) ==> |n| == 64
  {
    forall i | 0 <= i < |order| ensures |order[i].name| == 64 { assert order[i] in order; }
  }

  lemma RestIsDescribed(mid: Files, order: seq<Entry>, k: nat)
    requires k <= |order| && Distinct(order)
    requires forall e :: e in order ==> Describes(mid, e)
    ensures forall e :: e in order[k..] ==> Describes(mid - Names(order[..k]), e)
  {
    NamesSplit(order, k);
    forall e | e in order[k..] ensures Describes(mid - Names(order[..k]), e) {
      var i :| 0 <= i < |order[k..]| && order[k..][i] == e;
      assert e == order[k + i] && e.name in Names(order[k..]);
      assert order[k + i] in order;
    }
  }

  lemma KeptSizes(files: Files)
    ensures Keyed(files) <= files.Keys && Temporaries(files) <= files.Keys && Keyed(files) !! Temporaries(files)
    ensures forall n :: n in Keyed(files) + Temporaries(files) ==> files[n].size >= 0
  {
  }

  lemma UsageIsTrue(was: Files, now: Files, startup: bool, rest: seq<Entry>)
    requires Distinct(rest) && forall e :: e in rest ==> Describes(now, e)
    requires Keyed(now) == Names(rest) && Temporaries(now) == (if startup then {} else Temporaries(was))
    requires forall n :: n in now ==> n in was && now[n] == was[n]
    ensures TrueUsage(now) == Usage(Weight(rest) + Unevictable(was, startup), |rest|)
  {
    KeptSizes(now);
    hide Keyed, Temporaries, Names, Weight, Distinct, Describes, Sum;
    WeightIsSum(now, rest);
    SumOfParts(now, Keyed(now), Temporaries(now));
    SumOfNone(now);
    if !startup { SumUnchanged(was, now, Temporaries(now)); }
  }

  lemma SuffixesAreDistinct(order: seq<Entry>, k: nat)
    requires k <= |order| && Distinct(order)
    ensures Distinct(order[k..])
  {
  }

  lemma Concludes(was: Files, mid: Files, now: Files, seen: set<string>, order: seq<Entry>, evicted: nat,
                  bytes: nat, remaining: nat, total: nat, startup: bool, budget: nat, most: nat)
    requires Ready(was, mid, seen, order, total, startup, true) && was.Keys <= seen
    requires Evicted(mid, now, order, evicted, bytes, remaining, total, budget, most)
    requires evicted > 0 ==> Sorted(order)
    ensures Over(bytes, remaining, budget, most) <==> Unevictable(was, startup) > budget
    ensures !Over(bytes, remaining, budget, most) ==>
              Pruned(was, now, startup, budget, most, Usage(bytes, remaining), order, evicted)
  {
    hide Ready, Evicted, Names, Distinct, Describes, Sorted, TrueUsage, Unevictable, Keyed, Temporaries, Shortest,
      Weight, LeastRecentFirst;
    KeepsRecent(was, mid, now, seen, order, evicted, bytes, remaining, total, startup, budget, most);
    Balance(mid, now, order, evicted, bytes, remaining, total, Unevictable(was, startup), budget, most);
  }

  lemma EvictedNames(mid: Files, now: Files, order: seq<Entry>, evicted: nat, bytes: nat, remaining: nat, total: nat,
                     budget: nat, most: nat)
    requires Evicted(mid, now, order, evicted, bytes, remaining, total, budget, most)
    ensures evicted <= |order| && now == mid - Names(order[..evicted])
  {
  }

  lemma KeepsRecent(was: Files, mid: Files, now: Files, seen: set<string>, order: seq<Entry>, evicted: nat,
                    bytes: nat, remaining: nat, total: nat, startup: bool, budget: nat, most: nat)
    requires Ready(was, mid, seen, order, total, startup, true) && was.Keys <= seen
    requires Evicted(mid, now, order, evicted, bytes, remaining, total, budget, most)
    requires evicted > 0 ==> Sorted(order)
    ensures LeastRecentFirst(was, now, order, evicted)
    ensures Temporaries(now) == (if startup then {} else Temporaries(was))
    ensures total == Weight(order) + Unevictable(was, startup)
    ensures TrueUsage(now) == Usage(Unevictable(was, startup) + Weight(order[evicted..]), |order| - evicted)
  {
    hide Ready, Evicted, Evicting, Names, Distinct, Describes, Sorted, TrueUsage, Unevictable, Keyed, Temporaries, Weight;
    Fits(was, mid, seen, order, total, startup);
    EvictedNames(mid, now, order, evicted, bytes, remaining, total, budget, most);
    Leaves(was, mid, now, seen, order, evicted, total, startup);
    SuffixesAreDistinct(order, evicted);
    UsageIsTrue(was, now, startup, order[evicted..]);
  }

  lemma Balance(mid: Files, now: Files, order: seq<Entry>, evicted: nat, bytes: nat, remaining: nat, total: nat,
                held: nat, budget: nat, most: nat)
    requires Evicted(mid, now, order, evicted, bytes, remaining, total, budget, most)
    requires total == Weight(order) + held
    ensures bytes == held + Weight(order[evicted..]) && remaining == |order| - evicted
    ensures Over(bytes, remaining, budget, most) <==> held > budget
    ensures !Over(bytes, remaining, budget, most) ==> Shortest(held, order, evicted, budget, most)
  {
    if evicted == |order| { assert order[evicted..] == []; }
  }

  lemma Fits(was: Files, mid: Files, seen: set<string>, order: seq<Entry>, total: nat, startup: bool)
    requires Ready(was, mid, seen, order, total, startup, true)
    ensures |order| <= SCAN_CAP && Distinct(order)
  {
  }

  /** Every file evicted by age was last used no later than every file that stays. */
  lemma SurvivorsAreNewer(was: Files, now: Files, startup: bool, budget: nat, most: nat, usage: Usage, order: seq<Entry>, evicted: nat,
                          gone: string, kept: string)
    requires Pruned(was, now, startup, budget, most, usage, order, evicted)
    requires gone in Names(order) && gone !in Keyed(now) && kept in Keyed(now)
    ensures gone in was && kept in was && NotAfter(was[gone].used, was[kept].used)
  {
    hide Shortest, TrueUsage, Temporaries;
    var i :| 0 <= i < |order| && order[i].name == gone;
    var rest := order[evicted..];
    assert i < evicted by {
      assert forall k :: evicted <= k < |order| ==> rest[k - evicted] == order[k];
    }
    var j :| 0 <= j < |rest| && rest[j].name == kept;
    assert rest[j] == order[evicted + j];
    assert order[i] in order && order[evicted + j] in order;
  }

  lemma {:induction false} SmallerSet(few: set<string>, many: set<string>)
    requires few <= many && |few| >= |many|
    ensures few == many
  {
    if n :| n in many && n !in few {
      Cardinality(few, many - {n});
    }
  }

  lemma {:induction false} Cardinality(few: set<string>, many: set<string>)
    requires few <= many
    ensures |few| <= |many|
  {
    if n :| n in few { Cardinality(few - {n}, many - {n}); }
  }

  lemma TracksAll(was: Files, now: Files, order: seq<Entry>, evicted: nat)
    requires LeastRecentFirst(was, now, order, evicted) && |Keyed(was)| <= SCAN_CAP
    ensures Names(order) == Keyed(was)
    ensures Weight(order) == Sum(was, Keyed(was)) && |order| == |Keyed(was)|
  {
    WeightIsSum(was, order);
    hide Weight, Sum, Distinct;
    forall n | n in Names(order) ensures n in Keyed(was) {
      var i :| 0 <= i < |order| && order[i].name == n;
      assert order[i] in order;
    }
    if Names(order) != Keyed(was) { SmallerSet(Names(order), Keyed(was)); }
  }

  lemma RestIsShorter(was: Files, now: Files, order: seq<Entry>, evicted: nat)
    requires LeastRecentFirst(was, now, order, evicted)
    ensures evicted <= |order|
    ensures |Keyed(now)| == |order| - evicted
    ensures evicted == 0 ==> Keyed(now) == Names(order)
  {
    var rest := order[evicted..];
    forall e | e in rest ensures Describes(was, e) { assert e in order; }
    assert evicted == 0 ==> rest == order;
    SuffixesAreDistinct(order, evicted);
    WeightIsSum(was, rest);
  }

  /** With at most 8192 keyed files, all stay exactly when they fit the limits beside the temporaries. */
  lemma EvictsOnlyOverTheLimits(was: Files, now: Files, startup: bool, budget: nat, most: nat, usage: Usage, order: seq<Entry>, evicted: nat)
    requires Pruned(was, now, startup, budget, most, usage, order, evicted) && |Keyed(was)| <= 8192
    ensures Keyed(now) == Keyed(was) <==>
            !Over(Unevictable(was, startup) + Sum(was, Keyed(was)), |Keyed(was)|, budget, most)
  {
    hide Weight, Sum, Unevictable, LeastRecentFirst, Keyed, TrueUsage, Temporaries;
    TracksAll(was, now, order, evicted);
    RestIsShorter(was, now, order, evicted);
    assert order[0..] == order;
  }

  // ---------------------------------------------------------------- the directory

  class Cache {
    var files: Files

    constructor (files: Files)
      ensures this.files == files
    {
      this.files := files;
    }

    method Unlink(name: string, faults: Faults) returns (ok: bool)
      modifies this
      ensures ok <==> name in old(files) && name !in faults.unlink
      ensures files == if ok then old(files) - {name} else old(files)
    {
      ok := name in files && name !in faults.unlink;
      if ok { files := files - {name}; }
    }

    /** Room for one more entry: the array itself or, once it is full, a copy twice as long. */
    method Reserve(entries: array<Entry>, count: nat, memory: nat) returns (next: array<Entry>, ok: bool)
      requires count <= entries.Length && Capacity(entries.Length) && count < SCAN_CAP
      ensures next == entries || fresh(next)
      ensures next.Length >= count && next[..count] == entries[..count]
      ensures Capacity(next.Length)
      ensures ok ==> count < next.Length
      ensures memory >= SCAN_CAP ==> ok
    {
      if count < entries.Length { return entries, true; }
      var capacity := if entries.Length == 0 then 64 else 2 * entries.Length;
      if capacity > memory { return entries, false; }
      next, ok := new Entry[capacity], true;
      var i := 0;
      while i < count
        invariant i <= count
        invariant next[..i] == entries[..i]
      {
        next[i] := entries[i];
        i := i + 1;
      }
    }

    /** Whether a listed name under a cache name is a file to be counted; a stat may fail. */
    method Look(name: string, faults: Faults, ok: bool, ghost was: Files, ghost seen: set<string>, ghost held: seq<Entry>,
                ghost bytes: nat, ghost startup: bool)
      returns (counts: bool, fine: bool)
      requires Scanned(was, files, seen, held, bytes, startup, ok) && name !in seen && (IsKey(name) || IsTemporary(name))
      ensures counts ==> name in files && Tracked(name, files[name]) && fine == ok && if |name| == 36 then IsTemporary(name) else IsKey(name)
      ensures !counts ==> Scanned(was, files, seen + {name}, held, bytes, startup, fine)
      ensures fine ==> ok
      ensures ok && name !in faults.stat ==> fine
    {
      hide Scanned, IsKey, IsTemporary, Tracked;
      if name !in files {
        SkipsAbsent(was, files, seen, held, bytes, startup, ok, name);
        return false, ok;
      }
      if name in faults.stat {
        PassesOver(was, files, seen, held, bytes, startup, ok, name);
        return false, false;
      }
      var file := files[name];
      if !file.regular || !file.owned || file.size < 0 {
        SkipsOthers(was, files, seen, held, bytes, startup, ok, name);
        return false, ok;
      }
      Classify(name, file);
      return true, ok;
    }

    /** A temporary: it goes at startup, and is counted otherwise. */
    method CountTemporary(name: string, startup: bool, faults: Faults, bytes: nat, ok: bool, ghost was: Files, ghost seen: set<string>,
                          ghost held: seq<Entry>)
      returns (total: nat, fine: bool, stop: bool)
      requires Scanned(was, files, seen, held, bytes, startup, ok) && name !in seen && bytes <= SIZE_MAX
      requires name in files && Tracked(name, files[name]) && IsTemporary(name)
      modifies this
      ensures Scanned(was, files, if stop then seen else seen + {name}, held, total, startup, fine)
      ensures ok && name !in faults.unlink && TrueUsage(was).bytes <= SIZE_MAX ==> fine
      ensures stop ==> !fine
    {
      hide Scanned, TrueUsage;
      ghost var before := files;
      var file := files[name];
      SizeIsNatural(name, file);
      hide Tracked, IsTemporary;
      fine, stop := ok, false;
      if startup {
        var unlinked := Unlink(name, faults);
        if unlinked {
          DropsTemporary(was, before, seen, held, bytes, ok, name);
          return bytes, ok, false;
        }
        PassesOver(was, files, seen, held, bytes, startup, ok, name);
        fine := false;
      }
      if file.size > SIZE_MAX - bytes {
        if fine { CountFits(was, files, seen, held, bytes, startup, name); }
        PassesOver(was, files, seen, held, bytes, startup, fine, name);
        return bytes, false, true;
      }
      CountsTemporary(was, files, seen, held, bytes, startup, fine, name);
      return bytes + file.size, fine, false;
    }

    /** A keyed file: it becomes an entry, or is unlinked beyond the cap. */
    method CountKey(name: string, faults: Faults, entries: array<Entry>, count: nat, bytes: nat, ok: bool, startup: bool,
                    ghost was: Files, ghost seen: set<string>)
      returns (next: array<Entry>, more: nat, total: nat, fine: bool, stop: bool)
      requires count <= entries.Length && count <= SCAN_CAP && Capacity(entries.Length) && bytes <= SIZE_MAX
      requires Scanned(was, files, seen, entries[..count], bytes, startup, ok) && name !in seen
      requires name in files && Tracked(name, files[name]) && IsKey(name)
      modifies this, entries
      ensures (next == entries || fresh(next)) && more <= next.Length && Capacity(next.Length)
      ensures Scanned(was, files, if stop then seen else seen + {name}, next[..more], total, startup, fine)
      ensures ok && name !in faults.unlink && faults.memory >= SCAN_CAP && TrueUsage(was).bytes <= SIZE_MAX ==> fine
      ensures stop ==> !fine
    {
      hide Scanned, TrueUsage, IsKey;
      ghost var held, before := entries[..count], files;
      var file := files[name];
      SizeIsNatural(name, file);
      hide Tracked;
      next, more, total, fine, stop := entries, count, bytes, ok, false;
      if count == SCAN_CAP {
        fine := Unlink(name, faults);
        if fine { DropsExtra(was, before, seen, held, bytes, startup, ok, name); }
        if !fine { PassesOver(was, files, seen, held, bytes, startup, ok, name); }
        fine := fine && ok;
        return;
      }
      next, fine := Reserve(entries, count, faults.memory);
      if fine && file.size > SIZE_MAX - bytes {
        if ok { CountFits(was, files, seen, held, bytes, startup, name); }
        fine := false;
      }
      if !fine {
        PassesOver(was, files, seen, held, bytes, startup, ok, name);
        stop := true;
        return;
      }
      CountsEntry(was, files, seen, held, bytes, startup, ok, name);
      next[count] := Entry(name, file.size, file.used);
      assert next[..count + 1] == held + [next[count]];
      more, total, fine := count + 1, bytes + file.size, ok;
    }

    /** The directory scan: `listing` is what readdir returns, in its order. */
    method Scan(listing: seq<string>, startup: bool, faults: Faults)
      returns (entries: array<Entry>, count: nat, bytes: nat, ok: bool, ghost seen: set<string>)
      requires NoDuplicates(listing)
      modifies this
      ensures fresh(entries) && count <= entries.Length
      ensures Scanned(old(files), files, seen, entries[..count], bytes, startup, ok)
      ensures ok ==> seen == Elements(listing)
      ensures Sound(faults) && TrueUsage(old(files)).bytes <= SIZE_MAX ==> ok
    {
      hide Scanned, Keyed, Temporaries, Sum, TrueUsage, Elements, IsKey, IsTemporary, Tracked, Weight, Sound;
      entries := new Entry[0];
      count, bytes, ok, seen := 0, 0, true, {};
      ghost var was := files;
      ScanStarts(was, startup);
      var i := 0;
      SoundParts(faults);
      ElementsStart(listing);
      while i < |listing|
        invariant i <= |listing|
        invariant fresh(entries) && count <= entries.Length && Capacity(entries.Length)
        invariant Scanned(was, files, seen, entries[..count], bytes, startup, ok)
        invariant seen == Elements(listing[..i])
        invariant Sound(faults) && TrueUsage(was).bytes <= SIZE_MAX ==> ok
      {
        var name := listing[i];
        ElementsStep(listing, i);
        Bounds(was, files, seen, entries[..count], bytes, startup, ok);
        i := i + 1;
        var accepted := CacheName(name);
        var counts := false;
        if accepted { counts, ok := Look(name, faults, ok, was, seen, entries[..count], bytes, startup); }
        if !counts {
          if !accepted { SkipsAbsent(was, files, seen, entries[..count], bytes, startup, ok, name); }
          seen := seen + {name};
          continue;
        }
        var file := files[name];
        SizeIsNatural(name, file);
        if |name| == 36 {
          var stop;
          bytes, ok, stop := CountTemporary(name, startup, faults, bytes, ok, was, seen, entries[..count]);
          if stop { break; }
          seen := seen + {name};
          continue;
        }
        var stop;
        entries, count, bytes, ok, stop := CountKey(name, faults, entries, count, bytes, ok, startup, was, seen);
        if stop { break; }
        seen := seen + {name};
      }
      assert listing[..|listing|] == listing;
      if i == |listing| && !faults.complete {
        Fails(was, files, seen, entries[..count], bytes, startup, ok);
        ok := false;
      }
    }

    /** The eviction loop: unlinks entries in order for as long as a limit is exceeded. */
    method Evict(entries: array<Entry>, count: nat, total: nat, budget: nat, most: nat, faults: Faults)
      returns (bytes: nat, remaining: nat, ok: bool, ghost evicted: nat)
      requires count <= entries.Length && Distinct(entries[..count])
      requires forall e :: e in entries[..count] ==> Describes(files, e)
      requires Weight(entries[..count]) <= total
      modifies this
      ensures Removed(old(files), files, Names(entries[..count]))
      ensures ok ==> Evicted(old(files), files, entries[..count], evicted, bytes, remaining, total, budget, most)
      ensures bytes >= total - Weight(entries[..count])
      ensures faults.unlink == {} ==> ok
    {
      hide Removed, Weight, Evicting, Evicted, Names, Describes;
      ghost var was, order := files, entries[..count];
      bytes, remaining, ok := total, count, true;
      var i := 0;
      EvictionStarts(was, order, total, budget, most);
      while i < count && (bytes > budget || remaining > most)
        invariant i <= count && remaining >= count - i
        invariant Removed(was, files, Names(order[..i]))
        invariant bytes >= total - Weight(order) + Weight(order[i..])
        invariant ok ==> Evicting(was, files, order, i, bytes, remaining, total, budget, most)
        invariant faults.unlink == {} ==> ok
      {
        WeightOfRest(order, i);
        ghost var before := files;
        EvictionStep(was, files, order, i, bytes, remaining, total, budget, most, ok);
        var unlinked := Unlink(entries[i].name, faults);
        if unlinked {
          bytes, remaining := bytes - entries[i].bytes, remaining - 1;
        } else {
          ok := false;
        }
        i := i + 1;
      }
      evicted := i;
      EvictionEnds(was, files, order, i, bytes, remaining, total, budget, most, ok);
    }

    /**
     zc_cache_prune. Whatever fails, only counted files disappear, and temporaries only at startup.
     A success reports exactly what is left, within both limits, and has evicted the shortest
     oldest-first prefix of the files it kept track of.
     */
    method Prune(listing: seq<string>, budget: nat, most: nat, startup: bool, faults: Faults)
      returns (usage: Option<Usage>, ghost order: seq<Entry>, ghost evicted: nat)
      requires NoDuplicates(listing)
      modifies this
      ensures Keeps(old(files), files)
      ensures !startup ==> KeepsTemporaries(old(files), files)
      ensures old(files).Keys <= Elements(listing) && usage.Some? ==>
                Pruned(old(files), files, startup, budget, most, usage.value, order, evicted)
      ensures old(files).Keys <= Elements(listing) && Sound(faults) && TrueUsage(old(files)).bytes < 0x1_0000_0000_0000_0000 ==>
                (usage.Some? <==> Unevictable(old(files), startup) <= budget)
    {
      hide Scanned, Sum, TrueUsage, Elements, Weight, Names, Distinct, Describes, Keyed, Temporaries, Pruned,
        Keeps, KeepsTemporaries, Sorted, Permutes, Evicted, Removed, Held, Unevictable;
      order, evicted := [], 0;
      if !faults.opens {
        Unchanged(files);
        return None, order, evicted;
      }
      ghost var was := files;
      var entries, count, bytes, ok, seen := Scan(listing, startup, faults);
      ghost var mid, total := files, bytes;
      ghost var scanned := entries[..count];
      var remaining := count;
      ScanEnds(was, mid, seen, scanned, bytes, startup, ok);
      ghost var exact := ok;
      if !faults.closes { ok := false; }
      if bytes > budget || remaining > most {
        if count > 1 { Sort(entries, count); }
        order := entries[..count];
        if count <= 1 { FewAreSorted(order); Unpermuted(order); }
        Reordered(was, mid, seen, scanned, order, bytes, startup, exact);
        var unlinked;
        bytes, remaining, unlinked, evicted := Evict(entries, count, bytes, budget, most, faults);
        ok := ok && unlinked;
        EvictionKeeps(was, mid, files, order, startup);
      } else {
        order := scanned;
        EvictsNothing(mid, order, total, budget, most);
      }
      if ok && was.Keys <= Elements(listing) {
        Concludes(was, mid, files, seen, order, evicted, bytes, remaining, total, startup, budget, most);
      }
      if !ok || bytes > budget || remaining > most { return None, order, evicted; }
      return Some(Usage(bytes, remaining)), order, evicted;
    }
  }
}
