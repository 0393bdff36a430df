/**
 Measured text lines, hit testing and tile rasterisation: src/client/bridge.c, lines 579-621 and
 717-818. Vertical positions are in Pango units, `UNITS` to a logical pixel.
 */
module TextLines {
  import opened Common

  const INT_MAX: int := 0x7FFF_FFFF
  const UNITS: int := 1024         // PANGO_SCALE

  predicate IsInt(n: int) { -INT_MAX - 1 <= n <= INT_MAX }

  /** What Pango reports for one line. */
  datatype Extents = Extents(inkTop: int, inkHeight: nat, left: int, baseline: int)

  datatype Box = Box(y: int, height: int)
  datatype Line = Line(ink: Box, logical: Box, left: int, baseline: int)

  function Bottom(b: Box): int { b.y + b.height }


  /** Assumptions on Pango: 32-bit values, baselines below the top, and no ink below the baseline of a line without ink. */
  predicate Plausible(e: Extents) {
    && IsInt(e.inkTop) && IsInt(e.inkTop + e.inkHeight) && IsInt(e.left) && 0 <= e.baseline <= INT_MAX
    && (e.inkHeight == 0 ==> 0 <= e.inkTop <= e.baseline)
  }

  // ---------------------------------------------------------------- the measured layout

  datatype Metrics = Metrics(ascent: nat, descent: nat, spacing: nat)

  function Above(e: Extents, m: Metrics): int {
    if e.inkHeight > 0 then Max(m.ascent, e.baseline - e.inkTop) else m.ascent
  }

  function Below(e: Extents, m: Metrics): int {
    if e.inkHeight > 0 then Max(m.descent, e.inkTop + e.inkHeight - e.baseline) else m.descent
  }

  /** Where line i starts when the boxes are stacked with the spacing between them. */
  function Top(lines: seq<Extents>, m: Metrics, i: nat): (y: nat)
    requires i <= |lines|
    ensures i > 0 ==> y >= m.spacing
  {
    if i == 0 then 0
    else Top(lines, m, i - 1) + Above(lines[i - 1], m) + Below(lines[i - 1], m) + m.spacing
  }

  lemma {:induction false} TopGrows(lines: seq<Extents>, m: Metrics, i: nat, j: nat)
    requires i <= j <= |lines|
    ensures Top(lines, m, i) <= Top(lines, m, j)
    ensures i < j ==> Top(lines, m, i) + Above(lines[i], m) + Below(lines[i], m) + m.spacing <= Top(lines, m, j)
  {
    if i < j { TopGrows(lines, m, i, j - 1); }
  }

  lemma TopStep(lines: seq<Extents>, m: Metrics, i: nat)
    requires i < |lines|
    ensures Top(lines, m, i + 1) == Top(lines, m, i) + Above(lines[i], m) + Below(lines[i], m) + m.spacing
    ensures Top(lines, m, i + 1) <= Top(lines, m, |lines|)
  {
    TopGrows(lines, m, i + 1, |lines|);
  }

  lemma TopStarts(lines: seq<Extents>, m: Metrics)
    ensures Top(lines, m, 0) == 0
  {
  }

  lemma Measures(lines: seq<Line>, extents: seq<Extents>, m: Metrics)
    requires |lines| == |extents|
    requires forall i :: 0 <= i < |lines| ==> IsMeasured(lines[i], extents[i], m, Top(extents, m, i))
    ensures AreMeasured(lines, extents, m)
  {
  }

  lemma Sides(e: Extents, m: Metrics)
    ensures Above(e, m) == if e.inkHeight > 0 then Max(m.ascent, e.baseline - e.inkTop) else m.ascent
    ensures Below(e, m) == if e.inkHeight > 0 then Max(m.descent, e.inkTop + e.inkHeight - e.baseline) else m.descent
  {
  }

  /** The height of the stack: no spacing after the last line. */
  function Height(lines: seq<Extents>, m: Metrics): int {
    if lines == [] then 0 else Top(lines, m, |lines|) - m.spacing
  }

  /** Line i of a measured text, said through the box that holds it. */
  predicate IsMeasured(line: Line, e: Extents, m: Metrics, top: int) {
    && line.logical == Box(top, Above(e, m) + Below(e, m))
    && line.baseline == top + Above(e, m)
    && line.ink == Box(e.inkTop - e.baseline + line.baseline, e.inkHeight)
    && line.left == e.left
  }

  predicate AreMeasured(lines: seq<Line>, extents: seq<Extents>, m: Metrics) {
    && |lines| == |extents|
    && forall i :: 0 <= i < |lines| ==> IsMeasured(lines[i], extents[i], m, Top(extents, m, i))
  }

  predicate LineFits(line: Line) {
    && IsInt(line.ink.y) && IsInt(Bottom(line.ink)) && IsInt(line.baseline)
    && 0 <= line.logical.y && IsInt(line.logical.y) && IsInt(line.logical.height) && IsInt(Bottom(line.logical))
  }

  /** Shifted ink stays inside its logical box, the baseline too, and everything fits 32 bits. */
  lemma MeasuredInkIsInside(line: Line, e: Extents, m: Metrics, top: nat)
    requires IsMeasured(line, e, m, top) && Plausible(e)
    requires top + Above(e, m) + Below(e, m) <= INT_MAX
    ensures LineFits(line)
    ensures line.logical.y <= line.baseline <= Bottom(line.logical)
    ensures e.inkHeight > 0 ==> line.logical.y <= line.ink.y && Bottom(line.ink) <= Bottom(line.logical)
  {
  }

  lemma LineIsMeasured(line: Line, e: Extents, m: Metrics, top: nat, above: int, below: int)
    requires Plausible(e) && above == Above(e, m) && below == Below(e, m) && top + above + below <= INT_MAX
    requires line == Line(Box(e.inkTop + (top + above - e.baseline), e.inkHeight), Box(top, above + below), e.left, top + above)
    ensures IsMeasured(line, e, m, top) && LineFits(line)
  {
    MeasuredInkIsInside(line, e, m, top);
  }

  /** No smaller box holds both the font's own extents around the baseline and the line's ink. */
  lemma MeasuredBoxIsLeast(line: Line, e: Extents, m: Metrics, top: nat, above: int, below: int)
    requires IsMeasured(line, e, m, top)
    requires m.ascent <= above && m.descent <= below
    requires e.inkHeight > 0 ==> line.baseline - above <= line.ink.y && Bottom(line.ink) <= line.baseline + below
    ensures line.baseline - above <= line.logical.y && Bottom(line.logical) <= line.baseline + below
  {
  }

  /** Boxes are ordered and disjoint, with at least the spacing between any two and exactly it between neighbours. */
  lemma MeasuredLinesAreStacked(lines: seq<Line>, extents: seq<Extents>, m: Metrics, i: nat, j: nat)
    requires AreMeasured(lines, extents, m) && i < j < |lines|
    ensures Bottom(lines[i].logical) + m.spacing <= lines[j].logical.y
    ensures j == i + 1 ==> Bottom(lines[i].logical) + m.spacing == lines[j].logical.y
    ensures Bottom(lines[i].logical) <= Bottom(lines[j].logical)
    ensures lines[0].logical.y == 0 && Bottom(lines[|lines| - 1].logical) == Height(extents, m)
  {
    TopGrows(extents, m, i, j);
  }

  // ---------------------------------------------------------------- hit testing

  /** The first line whose box, with half the gap below it, reaches past y; else the last. */
  predicate IsHit(lines: seq<Line>, half: int, y: int, i: nat) {
    && i < |lines|
    && (i == |lines| - 1 || y < Bottom(lines[i].logical) + half)
    && forall k :: 0 <= k < i ==> y >= Bottom(lines[k].logical) + half
  }

  function Distance(b: Box, y: int): nat {
    if y < b.y then b.y - y else if y > Bottom(b) then y - Bottom(b) else 0
  }

  /** Over an even spacing the hit line is nearest to the point; zc_text_new sets 3 * UNITS. */
  lemma HitIsNearest(lines: seq<Line>, extents: seq<Extents>, m: Metrics, y: int, i: nat, j: nat)
    requires AreMeasured(lines, extents, m) && m.spacing % 2 == 0
    requires IsHit(lines, m.spacing / 2, y, i) && j < |lines|
    ensures Distance(lines[i].logical, y) <= Distance(lines[j].logical, y)
  {
    hide AreMeasured;
    Heights(lines, extents, m, i);
    Heights(lines, extents, m, j);
    if i < j {
      MeasuredLinesAreStacked(lines, extents, m, i, j);
    } else if j < i {
      MeasuredLinesAreStacked(lines, extents, m, j, i);
      MeasuredLinesAreStacked(lines, extents, m, i - 1, i);
      if j < i - 1 { MeasuredLinesAreStacked(lines, extents, m, j, i - 1); }
    }
  }

  lemma Heights(lines: seq<Line>, extents: seq<Extents>, m: Metrics, i: nat)
    requires AreMeasured(lines, extents, m) && i < |lines|
    ensures lines[i].logical.height >= 0
  {
  }

  /** A point inside a line's box hits that line. */
  lemma InsideIsHit(lines: seq<Line>, extents: seq<Extents>, m: Metrics, y: int, i: nat, j: nat)
    requires AreMeasured(lines, extents, m)
    requires IsHit(lines, m.spacing / 2, y, i) && j < |lines|
    requires lines[j].logical.y <= y < Bottom(lines[j].logical)
    ensures i == j
  {
    if i < j { MeasuredLinesAreStacked(lines, extents, m, i, j); }
    if j < i { MeasuredLinesAreStacked(lines, extents, m, j, i); }
  }

  // ---------------------------------------------------------------- tiles

  function Ceiling(x: real): int { -(-x).Floor }

  /** The edges of everything a line paints, in pixels, before the margin. */
  function UpperEdge(line: Line, scale: real): real {
    (Min(line.ink.y, line.logical.y) as real) / (UNITS as real) * scale
  }

  function LowerEdge(line: Line, scale: real): real {
    (Max(Bottom(line.ink), Bottom(line.logical)) as real) / (UNITS as real) * scale
  }

  /** A line touches a pixel row if the row meets the line's edges with their two-pixel margin. */
  predicate Touches(line: Line, scale: real, row: int) {
    LowerEdge(line, scale) + 2.0 > row as real && UpperEdge(line, scale) - 2.0 < (row + 1) as real
  }

  /** A line lies wholly on a surface that shows the rows from `first` up to `last`. */
  predicate Within(line: Line, scale: real, first: int, last: int) {
    first as real <= UpperEdge(line, scale) - 2.0 && LowerEdge(line, scale) + 2.0 <= last as real
  }

  /** The lines that the second pass draws for a tile. */
  predicate Drawn(line: Line, scale: real, top: int, height: int) {
    !(LowerEdge(line, scale) + 2.0 < top as real || UpperEdge(line, scale) - 2.0 > (top + height) as real)
  }

  lemma SkippedLinesMissTheTile(line: Line, scale: real, top: int, height: int, row: int)
    requires !Drawn(line, scale, top, height) && top <= row < top + height
    ensures !Touches(line, scale, row)
  {
  }

  /** The rows that the first pass reserves for a line. */
  function FirstRow(line: Line, scale: real): int { UpperEdge(line, scale).Floor - 2 }

  function LastRow(line: Line, scale: real): int { Ceiling(LowerEdge(line, scale)) + 2 }

  predicate Reserved(line: Line, scale: real, top: int, height: int) {
    !(LastRow(line, scale) < top || FirstRow(line, scale) > top + height)
  }

  /** A line is drawn if its ink or its box, in units of a 1024th of a pixel, is at most two pixels from the tile. */
  lemma DrawnIsNear(line: Line, scale: real, top: int, height: int)
    requires 0.0 < scale
    ensures Drawn(line, scale, top, height) <==>
            && (|| (line.ink.y + line.ink.height) as real / 1024.0 * scale >= top as real - 2.0
                || (line.logical.y + line.logical.height) as real / 1024.0 * scale >= top as real - 2.0)
            && (|| line.ink.y as real / 1024.0 * scale <= (top + height) as real + 2.0
                || line.logical.y as real / 1024.0 * scale <= (top + height) as real + 2.0)
  {
    Scaled(line.ink.y, line.logical.y, scale);
    Scaled(Bottom(line.ink), Bottom(line.logical), scale);
  }

  lemma Scaled(a: int, b: int, scale: real)
    requires 0.0 < scale
    ensures a <= b ==> a as real / 1024.0 * scale <= b as real / 1024.0 * scale
    ensures b <= a ==> b as real / 1024.0 * scale <= a as real / 1024.0 * scale
  {
    assert a <= b ==> (b - a) as real / 1024.0 * scale >= 0.0;
    assert b <= a ==> (a - b) as real / 1024.0 * scale >= 0.0;
  }

  /** The rows reserved for a line go from two above its ink and box to two below them, and no further. */
  lemma ReservedRowsAreExact(line: Line, scale: real)
    requires 0.0 < scale
    ensures var first, last := FirstRow(line, scale) + 2, LastRow(line, scale) - 2;
            var inkTop, boxTop := line.ink.y as real / 1024.0 * scale, line.logical.y as real / 1024.0 * scale;
            var inkEnd := (line.ink.y + line.ink.height) as real / 1024.0 * scale;
            var boxEnd := (line.logical.y + line.logical.height) as real / 1024.0 * scale;
            && first as real <= inkTop && first as real <= boxTop && (inkTop < first as real + 1.0 || boxTop < first as real + 1.0)
            && inkEnd <= last as real && boxEnd <= last as real && (last as real - 1.0 < inkEnd || last as real - 1.0 < boxEnd)
  {
    Scaled(line.ink.y, line.logical.y, scale);
    Scaled(Bottom(line.ink), Bottom(line.logical), scale);
  }

  lemma WithinMore(line: Line, scale: real, first: int, last: int, f: int, l: int)
    requires Within(line, scale, first, last) && f <= first && last <= l
    ensures Within(line, scale, f, l)
  {
  }

  lemma DrawnLinesAreReserved(line: Line, scale: real, top: int, height: int)
    requires Drawn(line, scale, top, height)
    ensures Reserved(line, scale, top, height)
    ensures Within(line, scale, FirstRow(line, scale), LastRow(line, scale))
  {
  }

  /** The least rows that hold the tile and every reserved line. */
  ghost predicate IsRaster(lines: seq<Line>, scale: real, top: int, height: int, first: int, last: int) {
    && Holding(lines, scale, top, height, first, last)
    && (first == top || exists i :: 0 <= i < |lines| && Reserved(lines[i], scale, top, height) && FirstRow(lines[i], scale) == first)
    && (last == top + height || exists i :: 0 <= i < |lines| && Reserved(lines[i], scale, top, height) && LastRow(lines[i], scale) == last)
  }

  predicate Holding(lines: seq<Line>, scale: real, top: int, height: int, first: int, last: int) {
    && first <= top && top + height <= last
    && forall i :: 0 <= i < |lines| && Reserved(lines[i], scale, top, height) ==>
                     first <= FirstRow(lines[i], scale) && LastRow(lines[i], scale) <= last
  }

  lemma RasterIsLeast(lines: seq<Line>, scale: real, top: int, height: int, first: int, last: int, f: int, l: int)
    requires IsRaster(lines, scale, top, height, first, last) && Holding(lines, scale, top, height, f, l)
    ensures f <= first && last <= l
  {
    hide Reserved, FirstRow, LastRow;
  }

  /** One more line widens the rows to its own, if it is reserved. */
  lemma RasterNext(lines: seq<Line>, line: Line, scale: real, top: int, height: int, first: int, last: int)
    requires IsRaster(lines, scale, top, height, first, last)
    ensures var wide := Reserved(line, scale, top, height);
            IsRaster(lines + [line], scale, top, height,
                     if wide then Min(first, FirstRow(line, scale)) else first,
                     if wide then Max(last, LastRow(line, scale)) else last)
  {
    hide Reserved, FirstRow, LastRow;
    var more := lines + [line];
    assert forall i :: 0 <= i < |lines| ==> more[i] == lines[i];
    assert more[|lines|] == line;
  }

  lemma RasterHoldsTheTile(lines: seq<Line>, scale: real, top: int, height: int, first: int, last: int)
    requires IsRaster(lines, scale, top, height, first, last)
    ensures first <= top && top + height <= last
  {
  }

  /** What the second pass draws, it draws whole. */
  lemma RasterHoldsTheDrawn(lines: seq<Line>, scale: real, top: int, height: int, first: int, last: int)
    requires IsRaster(lines, scale, top, height, first, last)
    ensures forall i :: 0 <= i < |lines| && Drawn(lines[i], scale, top, height) ==> Within(lines[i], scale, first, last)
  {
    hide Reserved, FirstRow, LastRow, Drawn, Within;
    forall i | 0 <= i < |lines| && Drawn(lines[i], scale, top, height) ensures Within(lines[i], scale, first, last) {
      DrawnLinesAreReserved(lines[i], scale, top, height);
      WithinMore(lines[i], scale, FirstRow(lines[i], scale), LastRow(lines[i], scale), first, last);
    }
  }

  /** The nearest integer, a half rounded up. */
  predicate Rounds(n: int, x: real) { x - 0.5 < n as real <= x + 0.5 }

  /** A line's span of bytes reaches up to the next line, so that it holds a terminating newline. */
  function SpanEnd(starts: seq<int>, length: int, i: nat): int
    requires i < |starts|
  {
    if i + 1 < |starts| then starts[i + 1] else starts[i] + length
  }

  predicate Spans(starts: seq<int>, length: int, i: nat, b: int)
    requires i < |starts|
  {
    starts[i] <= b < SpanEnd(starts, length, i)
  }

  predicate Selected(starts: seq<int>, length: int, i: nat, start: int, end: int)
    requires i < |starts|
  {
    start < end && start < SpanEnd(starts, length, i) && end > starts[i]
  }

  /** Exactly the lines whose span holds a selected byte are filled. */
  lemma SelectedLinesHoldTheSelection(starts: seq<int>, length: int, i: nat, start: int, end: int)
    requires i < |starts| && starts[i] < SpanEnd(starts, length, i)
    ensures Selected(starts, length, i, start, end) <==>
            exists b :: Spans(starts, length, i, b) && start <= b < end
  {
    if Selected(starts, length, i, start, end) {
      assert Spans(starts, length, i, Max(start, starts[i]));
    }
  }

  /**
   How Pango and Cairo paint one line onto one pixel row: the row's next content, from the line's
   number, whether a selection is filled on it, the surface's first and last row (glyphs that
   straddle an edge may be clipped differently), the row's number and its content so far.
   */
  type Painter<!Row> = (nat, bool, int, int, int, Row) -> Row

  /** A line leaves rows beyond its margin alone; on a surface that holds it whole, the edges do not matter. */
  ghost predicate Paints<Row(!new)>(paint: Painter<Row>, lines: seq<Line>, scale: real) {
    && (forall i: nat, filled: bool, first: int, last: int, row: int, r: Row ::
          i < |lines| && !Touches(lines[i], scale, row) ==> paint(i, filled, first, last, row, r) == r)
    && (forall i: nat, filled: bool, first: int, last: int, f: int, l: int, row: int, r: Row ::
          i < |lines| && Within(lines[i], scale, first, last) && Within(lines[i], scale, f, l) ==>
            paint(i, filled, first, last, row, r) == paint(i, filled, f, l, row, r))
  }

  /** One row of a surface after painting those of the first n lines that are to be shown. */
  function Content<Row>(paint: Painter<Row>, shown: seq<bool>, fills: seq<bool>, first: int, last: int,
                        background: Row, row: int, n: nat): Row
    requires n <= |shown| == |fills|
  {
    if n == 0 then background
    else
      var r := Content(paint, shown, fills, first, last, background, row, n - 1);
      if shown[n - 1] then paint(n - 1, fills[n - 1], first, last, row, r) else r
  }

  function DrawnLines(lines: seq<Line>, scale: real, top: int, height: int): (d: seq<bool>)
    ensures |d| == |lines| && forall i :: 0 <= i < |lines| ==> d[i] == Drawn(lines[i], scale, top, height)
  {
    seq(|lines|, i requires 0 <= i < |lines| => Drawn(lines[i], scale, top, height))
  }

  function AllLines(n: nat): (d: seq<bool>)
    ensures |d| == n && forall i :: 0 <= i < n ==> d[i]
  {
    seq(n, i => true)
  }

  /** A row of the whole document, drawn on a surface that holds every line. */
  function Document<Row>(paint: Painter<Row>, fills: seq<bool>, first: int, last: int, background: Row, row: int): Row {
    Content(paint, AllLines(|fills|), fills, first, last, background, row, |fills|)
  }

  ghost predicate Holds(lines: seq<Line>, scale: real, first: int, last: int) {
    forall i :: 0 <= i < |lines| ==> Within(lines[i], scale, first, last)
  }

  lemma PaintsNothing<Row(!new)>(paint: Painter<Row>, lines: seq<Line>, scale: real, i: nat, filled: bool,
                                 first: int, last: int, row: int, r: Row)
    requires Paints(paint, lines, scale) && i < |lines| && !Touches(lines[i], scale, row)
    ensures paint(i, filled, first, last, row, r) == r
  {
  }

  lemma PaintsTheSame<Row(!new)>(paint: Painter<Row>, lines: seq<Line>, scale: real, i: nat, filled: bool,
                                 first: int, last: int, f: int, l: int, row: int, r: Row)
    requires Paints(paint, lines, scale) && i < |lines|
    requires Within(lines[i], scale, first, last) && Within(lines[i], scale, f, l)
    ensures paint(i, filled, first, last, row, r) == paint(i, filled, f, l, row, r)
  {
  }

  /** On a surface holding every drawn line, the rows of a tile are those of the whole document. */
  lemma {:induction false} TileIsSlice<Row(!new)>(paint: Painter<Row>, lines: seq<Line>, scale: real, fills: seq<bool>,
                                                   top: int, height: int, first: int, last: int, f: int, l: int,
                                                   background: Row, row: int, n: nat)
    requires Paints(paint, lines, scale) && n <= |lines| == |fills|
    requires forall i :: 0 <= i < |lines| && Drawn(lines[i], scale, top, height) ==> Within(lines[i], scale, first, last)
    requires Holds(lines, scale, f, l)
    requires top <= row < top + height
    ensures Content(paint, DrawnLines(lines, scale, top, height), fills, first, last, background, row, n) ==
            Content(paint, AllLines(|fills|), fills, f, l, background, row, n)
  {
    if n > 0 {
      TileIsSlice(paint, lines, scale, fills, top, height, first, last, f, l, background, row, n - 1);
      var i: nat, r := n - 1, Content(paint, AllLines(|fills|), fills, f, l, background, row, n - 1);
      if Drawn(lines[n - 1], scale, top, height) {
        PaintsTheSame(paint, lines, scale, i, fills[i], first, last, f, l, row, r);
      } else {
        SkippedLinesMissTheTile(lines[i], scale, top, height, row);
        PaintsNothing(paint, lines, scale, i, fills[i], f, l, row, r);
      }
    }
  }

  /** The rows of a surface that show the tile. */
  lemma TileRows<Row(!new)>(paint: Painter<Row>, lines: seq<Line>, scale: real, fills: seq<bool>, top: int, height: int,
                            first: int, last: int, background: Row, rows: seq<Row>)
    requires Paints(paint, lines, scale) && |fills| == |lines|
    requires IsRaster(lines, scale, top, height, first, last) && |rows| == last - first
    requires forall k :: 0 <= k < |rows| ==>
               rows[k] == Content(paint, DrawnLines(lines, scale, top, height), fills, first, last, background, first + k, |lines|)
    ensures forall i :: 0 <= i < |lines| && Drawn(lines[i], scale, top, height) ==> Within(lines[i], scale, first, last)
    ensures forall f, l, row :: Holds(lines, scale, f, l) && top <= row < top + height ==>
                                  0 <= row - first < |rows| && rows[row - first] == Document(paint, fills, f, l, background, row)
  {
    RasterHoldsTheDrawn(lines, scale, top, height, first, last);
    forall f, l, row | Holds(lines, scale, f, l) && top <= row < top + height
      ensures 0 <= row - first < |rows| && rows[row - first] == Document(paint, fills, f, l, background, row)
    {
      hide Paints, Holds, DrawnLines, Drawn, Within;
      TileIsSlice(paint, lines, scale, fills, top, height, first, last, f, l, background, row, |lines|);
    }
  }

  // ---------------------------------------------------------------- the text object

  const TILE_ROWS := 2048
  const TILE_PIXELS := 8 * 1024 * 1024

  datatype Hit = Hit(line: nat, column: int)

  class Text<Row(!new)> {
    var lines: array<Line>
    var count: nat
    var width: int
    var height: int
    const scale: real
    const spacing: nat
    const subpixel: bool
    var surface: Option<array<Row>>

    constructor (scale: real, spacing: nat, subpixel: bool)
      ensures fresh(lines) && count == lines.Length == 0 && surface == None
      ensures this.scale == scale && this.spacing == spacing && this.subpixel == subpixel
    {
      lines := new Line[0];
      count, width, height, surface := 0, 0, 0, None;
      this.scale, this.spacing, this.subpixel := scale, spacing, subpixel;
    }

    /**
     text_measure_lines: the height of the laid-out lines in Pango units, or zero. It fails exactly
     without the font or memory, or when the stack with spacing after every line passes a C int.
     */
    method MeasureLines(extents: seq<Extents>, m: Metrics, font: bool, memory: bool) returns (measured: int)
      requires m.spacing == spacing && forall e :: e in extents ==> Plausible(e)
      modifies this`lines, this`count
      ensures measured == if font && memory && Top(extents, m, |extents|) <= 0x7FFF_FFFF then Height(extents, m) else 0
      ensures font && memory && Top(extents, m, |extents|) <= INT_MAX ==>
                fresh(lines) && count == lines.Length && AreMeasured(lines[..], extents, m)
      ensures font && memory && Top(extents, m, |extents|) <= INT_MAX ==>
                forall i :: 0 <= i < count ==> LineFits(lines[i])
    {
      hide IsMeasured, AreMeasured, LineFits, Plausible, Top, Above, Below;
      if !font { return 0; }
      count := |extents|;
      if !memory { return 0; }
      lines := new Line[count];
      var y, i := 0, 0;
      TopStarts(extents, m);
      while i < |extents|
        invariant 0 <= i <= |extents| == count == lines.Length && fresh(lines)
        invariant y == if i < |extents| then Top(extents, m, i) else Height(extents, m)
        invariant Top(extents, m, i) <= INT_MAX
        invariant forall k :: 0 <= k < i ==> IsMeasured(lines[k], extents[k], m, Top(extents, m, k)) && LineFits(lines[k])
      {
        var e := extents[i];
        assert e in extents;
        var above, below := m.ascent, m.descent;
        if e.inkHeight > 0 {
          above := Max(above, e.baseline - e.inkTop);
          below := Max(below, e.inkTop + e.inkHeight - e.baseline);
        }
        assert above == Above(e, m) && below == Below(e, m) by { Sides(e, m); }
        TopStep(extents, m, i);
        if y + above + below + spacing > INT_MAX { return 0; }
        var baseline := y + above;
        lines[i] := Line(Box(e.inkTop + (baseline - e.baseline), e.inkHeight), Box(y, above + below), e.left, baseline);
        LineIsMeasured(lines[i], e, m, y, above, below);
        y := y + above + below;
        if i + 1 < |extents| { y := y + spacing; }
        i := i + 1;
      }
      Measures(lines[..], extents, m);
      measured := y;
    }

    /**
     The end of zc_text_new_weighted: the texture's size in pixels, from the text's right edge, the
     requested width and the measured height. It is at most 4096 wide and reaches below every line.
     There is none for a text that was not measured or a side that rounds to nothing or overflows.
     */
    method Fit(right: int, limit: int, measured: int) returns (ok: bool)
      requires 0.0 < scale && 1 <= limit && (limit as real + 2.0) * scale <= 4096.0 && 0 <= measured
      modifies this`width, this`height
      ensures var wide := (Min(right, limit) as real + 2.0) * scale;
              var tall := (Ceiling(measured as real / 1024.0) as real + 2.0) * scale;
              && (ok <==> measured > 0 && 0.5 <= wide && 0.5 <= tall <= 2147483647.0 - 0.5)
              && Rounds(width, wide) && width <= 4096
              && (ok ==> Rounds(height, tall) && 1 <= width && 1 <= height <= INT_MAX)
      ensures ok ==> height as real > measured as real / 1024.0 * scale + 2.0 * scale - 0.5
    {
      width := ((Min(right, limit) as real + 2.0) * scale + 0.5).Floor;
      assert (Min(right, limit) as real + 2.0) * scale <= (limit as real + 2.0) * scale;
      var tall := (Ceiling(measured as real / UNITS as real) as real + 2.0) * scale + 0.5;
      if measured == 0 || tall < 1.0 || tall > INT_MAX as real || width < 1 { return false; }
      height := tall.Floor;
      assert (Ceiling(measured as real / UNITS as real) as real) * scale >= measured as real / UNITS as real * scale;
      return true;
    }

    /** text_hit up to Pango's own lookup inside the line: which line, and the x it is asked about. */
    method HitLine(x: int, y: int) returns (hit: Hit)
      requires 0 < count <= lines.Length
      requires forall i, j :: 0 <= i < j < count ==> Bottom(lines[i].logical) <= Bottom(lines[j].logical)
      ensures IsHit(lines[..count], spacing / 2, y * 1024, hit.line)
      ensures hit.column == Max(-0x8000_0000, Min(0x7FFF_FFFF, x * 1024 - lines[hit.line].left))
    {
      var py := y * UNITS;
      var half := spacing / 2;
      var lo, hi := 0, count - 1;
      while lo < hi
        invariant 0 <= lo <= hi < count
        invariant hi == count - 1 || py < Bottom(lines[hi].logical) + half
        invariant forall k :: 0 <= k < lo ==> py >= Bottom(lines[k].logical) + half
      {
        var mid := lo + (hi - lo) / 2;
        var r := lines[mid].logical;
        if py < r.y + r.height + half { hi := mid; } else { lo := mid + 1; }
      }
      return Hit(lo, Max(-INT_MAX - 1, Min(INT_MAX, x * UNITS - lines[lo].left)));
    }

    /** The rows to rasterise: the tile and every line that the second pass may draw, whole. */
    method Raster(top: int, height: int) returns (rasterTop: int, rasterBottom: int)
      requires count <= lines.Length && height >= 0
      ensures IsRaster(lines[..count], scale, top, height, rasterTop, rasterBottom)
    {
      hide FirstRow, LastRow;
      rasterTop, rasterBottom := top, top + height;
      var i := 0;
      while i < count
        invariant 0 <= i <= count
        invariant IsRaster(lines[..i], scale, top, height, rasterTop, rasterBottom)
      {
        var y, bottom := FirstRow(lines[i], scale), LastRow(lines[i], scale);
        RasterNext(lines[..i], lines[i], scale, top, height, rasterTop, rasterBottom);
        assert lines[..i] + [lines[i]] == lines[..i + 1];
        hide IsRaster;
        if !(bottom < top || y > top + height) {
          rasterTop, rasterBottom := Min(rasterTop, y), Max(rasterBottom, bottom);
        }
        i := i + 1;
      }
    }

    /** The tiles that may be asked for: inside the texture, of a limited size, opaque for subpixel text. */
    predicate IsTile(top: int, height: int, solid: bool)
      reads this
    {
      && 0 <= top && 1 <= height <= TILE_ROWS && top + height <= this.height
      && width * height <= TILE_PIXELS && (subpixel ==> solid)
    }

    /** The second pass: each line in turn paints its rows of the new surface. */
    method Draw(fills: seq<bool>, top: int, height: int, first: int, last: int, paint: Painter<Row>, background: Row)
      returns (rows: array<Row>)
      requires count <= lines.Length && |fills| == count && first <= last
      ensures fresh(rows) && rows.Length == last - first
      ensures forall k :: 0 <= k < rows.Length ==>
                            rows[k] == Content(paint, DrawnLines(lines[..count], scale, top, height), fills, first, last, background, first + k, count)
    {
      ghost var drawn := DrawnLines(lines[..count], scale, top, height);
      rows := new Row[last - first](_ => background);
      var i := 0;
      while i < count
        invariant 0 <= i <= count && fresh(rows)
        invariant forall k :: 0 <= k < rows.Length ==>
                                rows[k] == Content(paint, drawn, fills, first, last, background, first + k, i)
      {
        if Drawn(lines[i], scale, top, height) {
          forall k | 0 <= k < rows.Length {
            rows[k] := paint(i, fills[i], first, last, first + k, rows[k]);
          }
        }
        i := i + 1;
      }
    }

    /**
     zc_text_pixels_with_selection: a surface and where the tile starts on it. The tile's rows are
     those of the whole document, whatever surface that is drawn on.
     */
    method Pixels(fills: seq<bool>, top: int, height: int, solid: bool, paint: Painter<Row>, background: Row, cairo: bool)
      returns (offset: Option<int>, ghost first: int, ghost last: int)
      requires count <= lines.Length && |fills| == count
      requires Paints(paint, lines[..count], scale)
      modifies this`surface
      ensures IsTile(top, height, solid) ==> IsRaster(lines[..count], scale, top, height, first, last)
      ensures offset.Some? <==> IsTile(top, height, solid) && width * (last - first) <= 8388608 && cairo
      ensures IsTile(top, height, solid) <==>
                0 <= top && 1 <= height <= 2048 && top + height <= this.height && width * height <= 8388608 && (subpixel ==> solid)
      ensures offset.Some? ==> surface.Some? && fresh(surface.value)
      ensures offset.Some? ==> 0 <= offset.value && 1 <= height && offset.value + height <= surface.value.Length
      ensures offset.Some? ==> surface.value.Length == last - first && offset.value == top - first
      ensures offset.Some? ==> forall i :: 0 <= i < count && Drawn(lines[i], scale, top, height) ==>
                                             Within(lines[i], scale, first, last)
      ensures offset.Some? ==> forall f, l, row :: Holds(lines[..count], scale, f, l) && top <= row < top + height ==>
                                                     surface.value[row - first] == Document(paint, fills, f, l, background, row)
      ensures offset.None? ==> surface.None?
    {
      hide Paints, Holds, Drawn, Within, Document, Content, DrawnLines, IsRaster;
      surface := None;
      first, last := top, top;
      if top < 0 || top >= this.height || height < 1 || height > TILE_ROWS || height > this.height - top
         || width * height > TILE_PIXELS || (subpixel && !solid) {
        return None, first, last;
      }
      var rasterTop, rasterBottom := Raster(top, height);
      first, last := rasterTop, rasterBottom;
      RasterHoldsTheTile(lines[..count], scale, top, height, first, last);
      if width * (rasterBottom - rasterTop) > TILE_PIXELS || !cairo { return None, first, last; }
      var rows := Draw(fills, top, height, rasterTop, rasterBottom, paint, background);
      TileRows(paint, lines[..count], scale, fills, top, height, first, last, background, rows[..]);
      surface := Some(rows);
      offset := Some(top - rasterTop);
    }
  }
}
