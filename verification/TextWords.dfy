/**
 Word selection and caret movement over code points and grapheme clusters: src/client/bridge.c,
 lines 819-905. Pango's cursor-position flags and GLib's character classes are arbitrary inputs.
 */
module TextWords {
  type Width = n: int | 1 <= n <= 4 witness 1

  /** A code point with the classes GLib gives it and its length in UTF-8. */
  datatype Char = Char(code: int, alnum: bool, mark: bool, space: bool, bytes: Width)

  /** The byte offset of the i-th code point. */
  function Offset(text: seq<Char>, i: nat): (n: nat)
    requires i <= |text|
    ensures n >= i
  {
    if i == 0 then 0 else Offset(text, i - 1) + text[i - 1].bytes
  }

  lemma {:induction false} OffsetGrows(text: seq<Char>, i: nat, j: nat)
    requires i <= j <= |text|
    ensures Offset(text, i) <= Offset(text, j)
    ensures i < j ==> Offset(text, i) < Offset(text, j)
  {
    if i < j { OffsetGrows(text, i, j - 1); }
  }

  predicate WordCharacter(c: Char) { c.alnum || c.mark || c.code == '_' as int }

  predicate Joiner(c: Char) { c.code in {'\'' as int, '-' as int, 0x2019, 0x2010, 0x2011} }

  predicate LineBreak(c: Char) { c.code in {'\r' as int, '\n' as int, 0x2028, 0x2029} }

  /** selection_class: 1 in a word, 2 in white space on a line, 0 by itself. */
  function Class(text: seq<Char>, p: nat): int
    requires p < |text|
  {
    if WordCharacter(text[p]) then 1
    else if Joiner(text[p]) && 0 < p && p + 1 < |text| && WordCharacter(text[p - 1]) && WordCharacter(text[p + 1]) then 1
    else if text[p].space && !LineBreak(text[p]) then 2
    else 0
  }

  // ---------------------------------------------------------------- clusters

  /** One flag for every place between code points, the two ends included. */
  predicate Flags(text: seq<Char>, cursor: seq<bool>) { |cursor| == |text| + 1 }

  /** A place where a cluster starts or ends. */
  predicate Stop(cursor: seq<bool>, i: int) {
    0 <= i < |cursor| && (i == 0 || i == |cursor| - 1 || cursor[i])
  }

  /** The start of the cluster that holds code point i. */
  function ClusterStart(cursor: seq<bool>, i: nat): (k: nat)
    requires i + 1 < |cursor|
    ensures k <= i && Stop(cursor, k) && forall j :: k < j <= i ==> !Stop(cursor, j)
  {
    if i == 0 || cursor[i] then i else ClusterStart(cursor, i - 1)
  }

  /** The end of that cluster. */
  function ClusterEnd(cursor: seq<bool>, i: nat): (k: nat)
    requires i + 1 < |cursor|
    ensures i < k < |cursor| && Stop(cursor, k) && forall j :: i < j < k ==> !Stop(cursor, j)
    decreases |cursor| - i
  {
    if i + 2 == |cursor| || cursor[i + 1] then i + 1 else ClusterEnd(cursor, i + 1)
  }

  /** The class of a cluster is that of its first code point. */
  function ClassAt(text: seq<Char>, cursor: seq<bool>, i: nat): int
    requires Flags(text, cursor) && i < |text|
  {
    Class(text, ClusterStart(cursor, i))
  }

  predicate OneClass(text: seq<Char>, cursor: seq<bool>, l: nat, r: nat, kind: int)
    requires Flags(text, cursor) && r <= |text|
  {
    forall k :: l <= k < r ==> ClassAt(text, cursor, k) == kind
  }

  /** The range of whole clusters around h: one cluster without a class, or a maximal run of one class. */
  predicate IsWord(text: seq<Char>, cursor: seq<bool>, h: nat, l: nat, r: nat)
    requires Flags(text, cursor)
  {
    && l <= h < r <= |text| && Stop(cursor, l) && Stop(cursor, r)
    && var kind := ClassAt(text, cursor, h);
       if kind == 0 then l == ClusterStart(cursor, h) && r == ClusterEnd(cursor, h)
       else
         && OneClass(text, cursor, l, r, kind)
         && (l == 0 || ClassAt(text, cursor, l - 1) != kind)
         && (r == |text| || ClassAt(text, cursor, r) != kind)
  }

  lemma SameCluster(cursor: seq<bool>, h: nat, k: nat)
    requires h + 1 < |cursor| && ClusterStart(cursor, h) <= k < ClusterEnd(cursor, h)
    ensures ClusterStart(cursor, k) == ClusterStart(cursor, h)
    ensures ClusterEnd(cursor, k) == ClusterEnd(cursor, h)
  {
    var a, b := ClusterStart(cursor, k), ClusterStart(cursor, h);
    assert Stop(cursor, a) && Stop(cursor, b);
    var c, d := ClusterEnd(cursor, k), ClusterEnd(cursor, h);
    assert Stop(cursor, c) && Stop(cursor, d);
  }

  lemma WordHasOneClass(text: seq<Char>, cursor: seq<bool>, h: nat, l: nat, r: nat, k: nat)
    requires Flags(text, cursor) && IsWord(text, cursor, h, l, r) && l <= k < r
    ensures ClassAt(text, cursor, k) == ClassAt(text, cursor, h)
    ensures IsWord(text, cursor, k, l, r)
  {
    if ClassAt(text, cursor, h) == 0 { SameCluster(cursor, h, k); }
  }

  /** Any place has one word only. */
  lemma WordIsUnique(text: seq<Char>, cursor: seq<bool>, h: nat, l: nat, r: nat, l': nat, r': nat)
    requires Flags(text, cursor) && IsWord(text, cursor, h, l, r) && IsWord(text, cursor, h, l', r')
    ensures l == l' && r == r'
  {
  }

  /** Two hits select the same bytes or disjoint ones: the words partition the text. */
  lemma WordsPartition(text: seq<Char>, cursor: seq<bool>, h: nat, l: nat, r: nat, h': nat, l': nat, r': nat)
    requires Flags(text, cursor) && IsWord(text, cursor, h, l, r) && IsWord(text, cursor, h', l', r')
    ensures (l == l' && r == r') || Offset(text, r) <= Offset(text, l') || Offset(text, r') <= Offset(text, l)
  {
    if l' < r && l < r' {
      var k := if l < l' then l' else l;
      WordHasOneClass(text, cursor, h, l, r, k);
      WordHasOneClass(text, cursor, h', l', r', k);
      WordIsUnique(text, cursor, k, l, r, l', r');
    } else if r <= l' {
      OffsetGrows(text, r, l');
    } else {
      OffsetGrows(text, r', l);
    }
  }

  // ---------------------------------------------------------------- what selects together

  /** A letter, digit, mark or underscore; or an apostrophe or hyphen between two of these. */
  predicate InWord(text: seq<Char>, p: int)
    requires 0 <= p < |text|
  {
    || text[p].alnum || text[p].mark || text[p].code == 0x5F
    || (&& text[p].code in [0x27, 0x2D, 0x2010, 0x2011, 0x2019]
        && 1 <= p <= |text| - 2
        && (text[p - 1].alnum || text[p - 1].mark || text[p - 1].code == 0x5F)
        && (text[p + 1].alnum || text[p + 1].mark || text[p + 1].code == 0x5F))
  }

  /** White space that breaks no line. */
  predicate IsBlank(text: seq<Char>, p: int)
    requires 0 <= p < |text|
  {
    !InWord(text, p) && text[p].space && text[p].code !in [0x0A, 0x0D, 0x2028, 0x2029]
  }

  /** Two neighbouring clusters, by the code points they start with, are selected together. */
  predicate Together(text: seq<Char>, p: int, q: int)
    requires 0 <= p < |text| && 0 <= q < |text|
  {
    (InWord(text, p) && InWord(text, q)) || (IsBlank(text, p) && IsBlank(text, q))
  }

  lemma ClassMeans(text: seq<Char>, p: nat)
    requires p < |text|
    ensures Class(text, p) == 1 <==> InWord(text, p)
    ensures Class(text, p) == 2 <==> IsBlank(text, p)
    ensures 0 <= Class(text, p) <= 2
  {
  }

  /**
   What is selected goes on past a boundary of clusters exactly if the two around it are in a word or
   are blanks, and ends at the first one where they are not.
   */
  lemma WordGoesOn(text: seq<Char>, cursor: seq<bool>, h: nat, l: nat, r: nat, k: nat)
    requires Flags(text, cursor) && IsWord(text, cursor, h, l, r) && 0 < k < |text| && Stop(cursor, k)
    ensures l < k < r ==> Together(text, ClusterStart(cursor, k - 1), k)
    ensures k == l || k == r ==> !Together(text, ClusterStart(cursor, k - 1), k)
  {
    hide IsWord, Class, Together, Stop, ClusterStart;
    ClassesAround(text, cursor, h, l, r, k);
    StopStarts(cursor, k);
    TogetherMeans(text, ClusterStart(cursor, k - 1), k);
  }

  /** Around a place inside the range one class goes on; at either of its ends none does. */
  lemma ClassesAround(text: seq<Char>, cursor: seq<bool>, h: nat, l: nat, r: nat, k: nat)
    requires Flags(text, cursor) && IsWord(text, cursor, h, l, r) && 0 < k < |text| && Stop(cursor, k)
    ensures l < k < r ==> ClassAt(text, cursor, k - 1) == ClassAt(text, cursor, k) != 0
    ensures k == l || k == r ==> ClassAt(text, cursor, k - 1) != ClassAt(text, cursor, k) || ClassAt(text, cursor, k) == 0
  {
    hide IsWord, ClassAt, Stop;
    WordIsARange(text, cursor, h, l, r);
    WordEdges(text, cursor, h, l, r);
    if l < k <= r { WordHasOneClass(text, cursor, h, l, r, k - 1); }
    if l <= k < r { WordHasOneClass(text, cursor, h, l, r, k); }
    if l < k < r && ClassAt(text, cursor, h) == 0 { OneClusterOnly(text, cursor, h, l, r, k); }
  }

  lemma StopStarts(cursor: seq<bool>, k: nat)
    requires k + 1 < |cursor| && Stop(cursor, k)
    ensures ClusterStart(cursor, k) == k
  {
  }

  lemma WordEdges(text: seq<Char>, cursor: seq<bool>, h: nat, l: nat, r: nat)
    requires Flags(text, cursor) && IsWord(text, cursor, h, l, r)
    ensures l > 0 && ClassAt(text, cursor, h) != 0 ==> ClassAt(text, cursor, l - 1) != ClassAt(text, cursor, h)
    ensures r < |text| && ClassAt(text, cursor, h) != 0 ==> ClassAt(text, cursor, r) != ClassAt(text, cursor, h)
  {
  }

  lemma TogetherMeans(text: seq<Char>, p: nat, q: nat)
    requires p < |text| && q < |text|
    ensures Together(text, p, q) <==> Class(text, p) == Class(text, q) != 0
  {
    ClassMeans(text, p);
    ClassMeans(text, q);
  }

  lemma OneClusterOnly(text: seq<Char>, cursor: seq<bool>, h: nat, l: nat, r: nat, k: nat)
    requires Flags(text, cursor) && IsWord(text, cursor, h, l, r) && ClassAt(text, cursor, h) == 0 && l < k < r
    ensures !Stop(cursor, k)
  {
    assert forall j :: l < j <= h ==> !Stop(cursor, j);
    assert forall j :: h < j < r ==> !Stop(cursor, j);
  }

  /** In "don't", a code point to a cluster, every hit selects the whole word. */
  lemma ContractionIsOneWord(text: seq<Char>, cursor: seq<bool>, h: nat, l: nat, r: nat)
    requires |text| == 5 && Flags(text, cursor) && (forall i :: 0 <= i <= 5 ==> cursor[i]) && IsWord(text, cursor, h, l, r)
    requires text[0].alnum && text[1].alnum && text[2].alnum && text[4].alnum && text[3].code == 0x27
    ensures l == 0 && r == 5
  {
    hide IsWord, Together, ClusterStart;
    WordIsARange(text, cursor, h, l, r);
    if l > 0 { InContraction(text, cursor, h, l, r, l); }
    if r < 5 { InContraction(text, cursor, h, l, r, r); }
  }

  lemma WordIsARange(text: seq<Char>, cursor: seq<bool>, h: nat, l: nat, r: nat)
    requires Flags(text, cursor) && IsWord(text, cursor, h, l, r)
    ensures l <= h < r <= |text|
  {
  }

  lemma InContraction(text: seq<Char>, cursor: seq<bool>, h: nat, l: nat, r: nat, k: nat)
    requires |text| == 5 && Flags(text, cursor) && (forall i :: 0 <= i <= 5 ==> cursor[i]) && IsWord(text, cursor, h, l, r)
    requires text[0].alnum && text[1].alnum && text[2].alnum && text[4].alnum && text[3].code == 0x27 && 0 < k < 5
    ensures k != l && k != r
  {
    WordGoesOn(text, cursor, h, l, r, k);
    hide IsWord;
    assert ClusterStart(cursor, k - 1) == k - 1;
    assert InWord(text, k - 1) && InWord(text, k);
  }

  /** zc_text_word_hit, from the code point that Pango finds under the pointer. */
  method WordHit(text: seq<Char>, cursor: seq<bool>, index: nat) returns (start: nat, end: nat, ghost left: nat, ghost right: nat)
    requires Flags(text, cursor) && index <= |text|
    ensures text == [] ==> start == end == 0
    ensures text != [] ==> left < right <= |text| && start == Offset(text, left) && end == Offset(text, right) && start < end
    ensures text != [] ==> IsWord(text, cursor, if index < |text| then index else index - 1, left, right)
  {
    if text == [] { return 0, 0, 0, 0; }
    var count := |cursor|;
    var l := if index == |text| then index - 1 else index;
    ghost var hit := l;
    while l > 0 && !cursor[l]
      invariant 0 <= l <= hit && ClusterStart(cursor, l) == ClusterStart(cursor, hit)
    {
      l := l - 1;
    }
    var r := NextStop(cursor, l);
    SameCluster(cursor, hit, l);
    var kind := Class(text, l);
    if kind != 0 {
      l := ExtendLeft(text, cursor, l, r, kind);
      r := ExtendRight(text, cursor, l, r, kind);
    }
    left, right := l, r;
    OffsetGrows(text, l, r);
    return Offset(text, l), Offset(text, r), l, r;
  }

  /** The do-while loop that steps over one cluster to the right. */
  method NextStop(cursor: seq<bool>, from: nat) returns (r: nat)
    requires from + 1 < |cursor|
    ensures r == ClusterEnd(cursor, from)
  {
    r := from + 1;
    while r < |cursor| - 1 && !cursor[r]
      invariant from < r < |cursor|
      invariant forall j :: from < j < r ==> !Stop(cursor, j)
    {
      r := r + 1;
    }
    assert Stop(cursor, r) && Stop(cursor, ClusterEnd(cursor, from));
  }

  /** The do-while loop that steps over one cluster to the left. */
  method PreviousStop(cursor: seq<bool>, from: nat) returns (l: nat)
    requires 0 < from < |cursor|
    ensures l == ClusterStart(cursor, from - 1)
  {
    l := from - 1;
    while l > 0 && !cursor[l]
      invariant l < from && ClusterStart(cursor, l) == ClusterStart(cursor, from - 1)
    {
      l := l - 1;
    }
  }

  method ExtendLeft(text: seq<Char>, cursor: seq<bool>, from: nat, r: nat, kind: int) returns (l: nat)
    requires Flags(text, cursor) && from < r <= |text| && Stop(cursor, from) && OneClass(text, cursor, from, r, kind)
    ensures l <= from && Stop(cursor, l) && OneClass(text, cursor, l, r, kind)
    ensures l == 0 || ClassAt(text, cursor, l - 1) != kind
  {
    l := from;
    while l > 0
      invariant l <= from && Stop(cursor, l) && OneClass(text, cursor, l, r, kind)
    {
      var at := PreviousStop(cursor, l);
      if Class(text, at) != kind { break; }
      ClusterHasOneClass(text, cursor, at, l - 1);
      l := at;
    }
  }

  lemma ClusterHasOneClass(text: seq<Char>, cursor: seq<bool>, at: nat, i: nat)
    requires Flags(text, cursor) && i < |text| && at == ClusterStart(cursor, i)
    ensures OneClass(text, cursor, at, ClusterEnd(cursor, i), Class(text, at))
  {
    forall k | at <= k < ClusterEnd(cursor, i) ensures ClassAt(text, cursor, k) == Class(text, at) {
      SameCluster(cursor, i, k);
    }
  }

  method ExtendRight(text: seq<Char>, cursor: seq<bool>, l: nat, from: nat, kind: int) returns (r: nat)
    requires Flags(text, cursor) && l < from <= |text| && Stop(cursor, from) && OneClass(text, cursor, l, from, kind)
    ensures from <= r <= |text| && Stop(cursor, r) && OneClass(text, cursor, l, r, kind)
    ensures r == |text| || ClassAt(text, cursor, r) != kind
  {
    r := from;
    while r < |cursor| - 1 && Class(text, r) == kind
      invariant from <= r <= |text| && Stop(cursor, r) && OneClass(text, cursor, l, r, kind)
      decreases |text| - r
    {
      ClusterHasOneClass(text, cursor, r, r);
      r := NextStop(cursor, r);
    }
  }

  /** zc_text_hit: the caret moves past the code points that trail the hit, but not past the end. */
  method Hit(text: seq<Char>, index: nat, trailing: int) returns (at: nat)
    requires index <= |text|
    ensures exists i :: index <= i <= |text| && at == Offset(text, i) &&
              (i - index == trailing || (trailing < 0 && i == index) || (i == |text| && i - index <= trailing))
  {
    var p, left := index, trailing;
    while left > 0 && p < |text|
      invariant index <= p <= |text|
      invariant if trailing < 0 then p == index && left == trailing else left >= 0 && p - index == trailing - left
    {
      left := left - 1;
      p := p + 1;
    }
    return Offset(text, p);
  }

  // ---------------------------------------------------------------- caret movement

  predicate Caret(text: seq<Char>, cursor: seq<bool>, i: int)
    requires Flags(text, cursor)
  {
    0 <= i <= |text| && cursor[i]
  }

  /** The first caret position after a byte position, else the end of the text. */
  ghost predicate IsNext(text: seq<Char>, cursor: seq<bool>, position: nat, r: nat)
    requires Flags(text, cursor)
  {
    || (exists i :: Caret(text, cursor, i) && r == Offset(text, i) && position < r
                    && forall j :: Caret(text, cursor, j) && j < i ==> Offset(text, j) <= position)
    || (r == Offset(text, |text|) && forall j :: Caret(text, cursor, j) ==> Offset(text, j) <= position)
  }

  /** The last caret position before a byte position, else its start; the end beyond the last of them. */
  ghost predicate IsPrevious(text: seq<Char>, cursor: seq<bool>, position: nat, r: nat)
    requires Flags(text, cursor)
  {
    if exists j :: Caret(text, cursor, j) && position <= Offset(text, j) then
      || (exists i :: Caret(text, cursor, i) && r == Offset(text, i) && r < position
                      && forall j :: Caret(text, cursor, j) && i < j ==> position <= Offset(text, j))
      || (r == 0 && forall j :: Caret(text, cursor, j) ==> position <= Offset(text, j))
    else r == Offset(text, |text|)
  }

  /** zc_text_boundary. Text that is not UTF-8 leaves the position alone. */
  method Boundary(text: seq<Char>, cursor: seq<bool>, valid: bool, position: nat, direction: int) returns (r: nat)
    requires Flags(text, cursor)
    ensures !valid ==> r == position
    ensures valid && direction > 0 ==> IsNext(text, cursor, position, r)
    ensures valid && direction < 0 ==> IsPrevious(text, cursor, position, r)
    ensures valid && direction == 0 ==> r == Offset(text, |text|)
  {
    if !valid { return position; }
    var at, previous := 0, 0;
    ghost var before: int := -1;
    r := Offset(text, |text|);
    var i := 0;
    while i <= |text|
      invariant 0 <= i <= |text| + 1 && r == Offset(text, |text|)
      invariant i <= |text| ==> at == Offset(text, i)
      invariant -1 <= before < i && (before < 0 ==> previous == 0)
      invariant before >= 0 ==> Caret(text, cursor, before) && previous == Offset(text, before)
      invariant forall j :: before < j < i ==> !Caret(text, cursor, j)
      invariant direction < 0 ==> forall j :: 0 <= j < i && Caret(text, cursor, j) ==> Offset(text, j) < position
      invariant direction > 0 ==> forall j :: 0 <= j < i && Caret(text, cursor, j) ==> Offset(text, j) <= position
    {
      if cursor[i] {
        if direction < 0 && at >= position {
          FollowingAreFurther(text, cursor, i);
          assert Caret(text, cursor, i);
          return previous;
        }
        if direction > 0 && at > position {
          assert Caret(text, cursor, i);
          return at;
        }
        previous, before := at, i;
      }
      if i < |text| { at := at + text[i].bytes; }
      i := i + 1;
    }
  }

  lemma FollowingAreFurther(text: seq<Char>, cursor: seq<bool>, i: nat)
    requires Flags(text, cursor) && i <= |text|
    ensures forall j :: i <= j && Caret(text, cursor, j) ==> Offset(text, i) <= Offset(text, j)
  {
    forall j | i <= j && Caret(text, cursor, j) ensures Offset(text, i) <= Offset(text, j) {
      OffsetGrows(text, i, j);
    }
  }

  /** From a caret position, one step right and one step left come back. */
  lemma RightThenLeft(text: seq<Char>, cursor: seq<bool>, i: nat, k: nat, right: nat, back: nat)
    requires Flags(text, cursor) && Caret(text, cursor, i) && Caret(text, cursor, k) && i < k
    requires IsNext(text, cursor, Offset(text, i), right) && IsPrevious(text, cursor, right, back)
    ensures back == Offset(text, i)
  {
    forall a: nat, b: nat | a < b <= |text| ensures Offset(text, a) < Offset(text, b) { OffsetGrows(text, a, b); }
  }

  /** And one step left and one step right. */
  lemma LeftThenRight(text: seq<Char>, cursor: seq<bool>, i: nat, k: nat, left: nat, back: nat)
    requires Flags(text, cursor) && Caret(text, cursor, i) && Caret(text, cursor, k) && k < i
    requires IsPrevious(text, cursor, Offset(text, i), left) && IsNext(text, cursor, left, back)
    ensures back == Offset(text, i)
  {
    forall a: nat, b: nat | a < b <= |text| ensures Offset(text, a) < Offset(text, b) { OffsetGrows(text, a, b); }
  }
}
