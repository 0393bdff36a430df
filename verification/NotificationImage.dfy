/** The avatar hint of a notification, src/client/notifications.c, lines 207-230. */
module NotificationImage {
  import opened Common

  const EDGE := 128
  const LARGEST := 2560

  /** Four bytes of one pixel, copied together. */
  type Pixel = seq<int>

  /** An image as it is handed over; `bytes` is what it says of its data's length. */
  datatype Image = Image(width: int, height: int, bytes: nat, data: Option<seq<Pixel>>)

  predicate Usable(image: Image) {
    && image.data.Some? && 0 < image.width <= LARGEST && 0 < image.height <= LARGEST
    && image.bytes == image.width * image.height * 4
  }


  /** A side of the hint for a side of the image whose longer side is `longer`. */
  function Side(side: int, longer: int): int
    requires longer > 0
  {
    if longer <= EDGE then side else Max(1, side * EDGE / longer)
  }

  /** The row or column of the image that row or column i of the hint shows. */
  function Source(i: int, side: int, scaled: int): int
    requires scaled > 0
  {
    i * side / scaled
  }

  /** A scaled side is within both bounds and never empty, and the longer side becomes the edge itself. */
  lemma SidesAreBounded(side: int, longer: int)
    requires 0 < side <= longer
    ensures 1 <= Side(side, longer) <= EDGE && Side(side, longer) <= side
    ensures side == longer ==> Side(side, longer) == if longer <= EDGE then longer else EDGE
  {
    if longer > EDGE {
      DivisionBounds(side, EDGE, longer);
    }
  }

  lemma Quotes(n: int, d: int)
    requires d > 0
    ensures n / d * d <= n < (n / d + 1) * d
  {
    Quotient(n, d, n / d);
    Quotient(n, d, n / d + 1);
  }

  /** The sides of a larger image keep their proportion to the longer one, rounded down, but for the least of one pixel. */
  lemma SidesKeepProportion(side: int, longer: int)
    requires 0 < side <= longer
    ensures longer <= 128 ==> Side(side, longer) == side
    ensures longer > 128 && side * 128 >= longer ==>
              Side(side, longer) * longer <= side * 128 < (Side(side, longer) + 1) * longer
    ensures longer > 128 && side * 128 < longer ==> Side(side, longer) == 1
  {
    Quotes(side * 128, longer);
    Quotient(side * 128, longer, 1);
  }

  /** A pixel comes from the same place, in proportion, of the image's side, rounded down. */
  lemma SourceKeepsProportion(i: int, side: int, scaled: int)
    requires 0 <= i < scaled && 0 < side
    ensures Source(i, side, scaled) * scaled <= i * side < (Source(i, side, scaled) + 1) * scaled
  {
    Quotes(i * side, scaled);
  }

  lemma Multiply(a: int, b: int, d: int)
    requires a <= b && 0 <= d
    ensures a * d <= b * d
  {
  }

  /** A quotient is less than b if the dividend is less than b times the divisor, and else at least b. */
  lemma Quotient(n: int, d: int, b: int)
    requires d > 0
    ensures n < b * d <==> n / d < b
  {
    var q := n / d;
    assert n == q * d + n % d;
    if q < b { Multiply(q + 1, b, d); assert (q + 1) * d == q * d + d; } else { Multiply(b, q, d); }
  }

  lemma DivisionBounds(side: int, edge: int, longer: int)
    requires 0 < side <= longer && 0 < edge < longer
    ensures side * edge / longer <= edge && side * edge / longer <= side
    ensures side == longer ==> side * edge / longer == edge
  {
    Multiply(side, longer, edge);
    Multiply(edge, longer, side);
    assert (edge + 1) * longer == longer * edge + longer && (side + 1) * longer == longer * side + longer;
    Quotient(side * edge, longer, edge + 1);
    Quotient(side * edge, longer, side + 1);
    Quotient(side * edge, longer, edge);
  }

  /** The source position is in the image, and its own in an image that is not scaled. */
  lemma SourceIsInside(i: int, side: int, scaled: int)
    requires 0 <= i < scaled && 0 < side
    ensures 0 <= Source(i, side, scaled) < side
    ensures scaled == side ==> Source(i, side, scaled) == i
  {
    Multiply(0, i, side);
    Multiply(i + 1, scaled, side);
    assert (i + 1) * side == i * side + side;
    assert side * scaled == scaled * side;
    Quotient(i * side, scaled, 0);
    Quotient(i * side, scaled, side);
    if scaled == side {
      Quotient(i * side, scaled, i);
      Quotient(i * side, scaled, i + 1);
    }
  }

  /** Positions keep their order, and no position is shown twice. */
  lemma SourceKeepsOrder(i: int, j: int, side: int, scaled: int)
    requires 0 <= i < j < scaled <= side
    ensures Source(i, side, scaled) < Source(j, side, scaled)
  {
    var p := Source(i, side, scaled);
    Quotient(i * side, scaled, p);
    Multiply(i + 1, j, side);
    assert (i + 1) * side == i * side + side;
    assert (p + 1) * scaled == p * scaled + scaled;
    Quotient(j * side, scaled, p + 1);
  }

  lemma IndexIsInside(x: int, y: int, width: int, height: int)
    requires 0 <= x < width && 0 <= y < height
    ensures 0 <= y * width + x < width * height
  {
    assert y * width <= (height - 1) * width;
  }

  /** image_hint: nothing for an image that contradicts itself, else each pixel's nearest one above and to the left. */
  method ImageHint(image: Option<Image>) returns (hint: Option<array2<Pixel>>)
    requires image.Some? && image.value.data.Some? ==> 4 * |image.value.data.value| == image.value.bytes
    ensures hint.Some? <==>
              && image.Some? && image.value.data.Some?
              && 0 < image.value.width <= 2560 && 0 < image.value.height <= 2560
              && image.value.bytes == image.value.width * image.value.height * 4
    ensures hint.Some? ==>
              var longer := Max(image.value.width, image.value.height);
              && hint.value.Length1 == Side(image.value.width, longer) && hint.value.Length0 == Side(image.value.height, longer)
              && 1 <= hint.value.Length0 <= EDGE && 1 <= hint.value.Length1 <= EDGE
    ensures hint.Some? ==>
              forall x, y :: 0 <= x < hint.value.Length1 && 0 <= y < hint.value.Length0 ==>
                IsSampled(image.value, hint.value.Length1, hint.value.Length0, x, y, hint.value[y, x])
  {
    if image.None? || image.value.data.None? || image.value.width <= 0 || image.value.height <= 0
       || image.value.width > LARGEST || image.value.height > LARGEST
       || image.value.bytes != image.value.width * image.value.height * 4 {
      return None;
    }
    var i, data := image.value, image.value.data.value;
    var edge := Max(i.width, i.height);
    var width, height := Side(i.width, edge), Side(i.height, edge);
    SidesAreBounded(i.width, edge);
    SidesAreBounded(i.height, edge);
    var pixels := new Pixel[height, width];
    var y := 0;
    while y < height
      invariant 0 <= y <= height
      invariant forall a, b :: 0 <= a < width && 0 <= b < y ==> IsSampled(i, width, height, a, b, pixels[b, a])
    {
      SourceIsInside(y, i.height, height);
      var row := Source(y, i.height, height);
      var x := 0;
      while x < width
        invariant 0 <= x <= width
        invariant forall a, b :: 0 <= a < width && 0 <= b < y ==> IsSampled(i, width, height, a, b, pixels[b, a])
        invariant forall a :: 0 <= a < x ==> IsSampled(i, width, height, a, y, pixels[y, a])
      {
        SourceIsInside(x, i.width, width);
        IndexIsInside(Source(x, i.width, width), row, i.width, i.height);
        pixels[y, x] := data[row * i.width + Source(x, i.width, width)];
        x := x + 1;
      }
      y := y + 1;
    }
    return Some(pixels);
  }

  predicate IsSampled(image: Image, width: int, height: int, x: int, y: int, pixel: Pixel) {
    && image.data.Some? && width > 0 && height > 0
    && var at := Source(y, image.height, height) * image.width + Source(x, image.width, width);
       0 <= at < |image.data.value| && pixel == image.data.value[at]
  }
}
