/** The sprites sample's background picture: diagonal colour strips, every other row
    darkened, and a dashed border inset from the edges. Pixels are addressed row-major,
    index i being pixel (i % width, i / width). */
module SpritesBackground {
  import opened Basics
  import opened Canvases

  const LineSize: int := 7
  const Margin: int := 4
  const Black: Color := Color(0, 0, 0, 0)
  const Yellow: Color := Color(255, 255, 0, 0)

  function Abs(n: int): nat
  {
    if n < 0 then -n else n
  }

  // ---------------------------------------------------------------------------
  // The strip

  /** The red channel of strip entry i: a triangle wave, falling from 127 to 0 and rising
      back over 511 entries, so the `byte` cast never truncates. */
  function StripRed(i: nat): (r: byte)
    ensures r <= 127
  {
    Abs(i % 511 - 255) / 2
  }

  /** The green channel, computed from the red one: brightest where red is darkest. */
  function StripGreen(red: byte): (r: byte)
    ensures r <= 10
  {
    assert 80 / (red + 4) <= 20;
    80 / (red + 4) / 2
  }

  /** Strip entry i. The blue channel is a sine wave in floating point; it is an input. */
  function StripColor(i: nat, blue: nat -> byte): Color
  {
    var red := StripRed(i);
    Color(red, StripGreen(red), blue(i), 0)
  }

  /** The red channel repeats every 511 entries. */
  lemma StripRedPeriodic(i: nat)
    ensures StripRed(i + 511) == StripRed(i)
  {
    assert (i + 511) % 511 == i % 511;
  }

  /** The red channel is symmetric about entry 255, where it is 0. */
  lemma StripRedSymmetric(d: nat)
    requires d <= 255
    ensures StripRed(255 - d) == StripRed(255 + d) == d / 2
    ensures StripRed(255) == 0 && StripRed(0) == 127
  {
    assert (255 - d) % 511 == 255 - d && (255 + d) % 511 == 255 + d;
    assert Abs(255 - d - 255) == d && Abs(255 + d - 255) == d;
  }

  // ---------------------------------------------------------------------------
  // Darkening

  /** One channel multiplied by 0.8 and truncated, which is exactly 4c/5 rounded down.
      When 5 divides c, 4c/5 is an integer the double product can represent, and the
      double nearest 0.8 lies above 0.8, so rounding never falls below that integer.
      Otherwise 4c/5 is at least 1/5 away from every integer, while the representation
      and rounding errors of the product stay below 2^-44, so truncation gives the same
      integer as truncating 4c/5. */
  function Scale80(c: byte): (r: byte)
    ensures r <= c && (0 < c ==> r < c)
  {
    4 * c / 5
  }

  /** A colour darkened as the sample does it: red, green and blue scaled, alpha kept. */
  function Darken(c: Color): (r: Color)
    ensures r.a == c.a
    ensures r.r <= c.r && r.g <= c.g && r.b <= c.b
    ensures c != Color(0, 0, 0, c.a) ==> r != c
  {
    Color(Scale80(c.r), Scale80(c.g), Scale80(c.b), c.a)
  }

  /** Rows 2, 4, 6, ... are darkened; rows 0 and 1 and the odd rows are not. */
  predicate DarkenedRow(y: int)
  {
    y >= 2 && y % 2 == 0
  }

  function Shade(y: int, c: Color): Color
  {
    if DarkenedRow(y) then Darken(c) else c
  }

  // ---------------------------------------------------------------------------
  // The dashed border

  /** The colour of the left and right border lines at row i: dashes of `LineSize`
      pixels, yellow first. */
  function VerticalColor(i: int): (r: Color)
    requires Margin <= i
    ensures r == Black || r == Yellow
    ensures Margin <= i < Margin + LineSize ==> r == Yellow
  {
    if (i - Margin) / LineSize % 2 == 1 then Black else Yellow
  }

  /** The colour of the top and bottom border lines at column i: black first. */
  function HorizontalColor(i: int): (r: Color)
    requires Margin <= i
    ensures r == Black || r == Yellow
    ensures Margin <= i < Margin + LineSize ==> r == Black
  {
    if (i - Margin) / LineSize % 2 == 1 then Yellow else Black
  }

  /** The two border colours are opposite at every position. */
  lemma BorderColorsOpposite(i: int)
    requires Margin <= i
    ensures VerticalColor(i) != HorizontalColor(i)
    ensures {VerticalColor(i), HorizontalColor(i)} == {Black, Yellow}
  {
  }

  /** Each dash is `LineSize` pixels long: the colour flips `LineSize` pixels on. */
  lemma DashesAlternate(i: int)
    requires Margin <= i
    ensures VerticalColor(i + LineSize) != VerticalColor(i)
    ensures HorizontalColor(i + LineSize) != HorizontalColor(i)
  {
    assert (i + LineSize - Margin) / LineSize == (i - Margin) / LineSize + 1;
  }

  /** Pixel (x, y) lies on the left or right border line drawn in the first k iterations. */
  predicate OnVertical(width: int, k: int, x: int, y: int)
  {
    (x == Margin || x == width - 1 - Margin) && Margin <= y < k
  }

  /** Pixel (x, y) lies on the top or bottom border line drawn in the first k iterations. */
  predicate OnHorizontal(height: int, k: int, x: int, y: int)
  {
    (y == Margin || y == height - 1 - Margin) && Margin <= x < k
  }

  /** Pixel (x, y) after the first k iterations of the border loop, `prev` being its colour
      before the loop. Iteration i writes row i of both vertical lines, then column i of
      both horizontal lines; where lines cross, the later write wins, and within one
      iteration the horizontal one. */
  function Bordered(width: int, height: int, k: int, x: int, y: int, prev: Color): (r: Color)
    ensures !OnVertical(width, k, x, y) && !OnHorizontal(height, k, x, y) ==> r == prev
    ensures OnVertical(width, k, x, y) || OnHorizontal(height, k, x, y) ==> r == Black || r == Yellow
  {
    if OnHorizontal(height, k, x, y) && (!OnVertical(width, k, x, y) || x >= y) then HorizontalColor(x)
    else if OnVertical(width, k, x, y) then VerticalColor(y)
    else prev
  }

  /** One more iteration changes exactly the four pixels it writes. */
  lemma BorderedStep(width: int, height: int, k: int, x: int, y: int, prev: Color)
    requires Margin <= k
    ensures Bordered(width, height, k + 1, x, y, prev) ==
      if x == k && (y == Margin || y == height - 1 - Margin) then HorizontalColor(k)
      else if (x == Margin || x == width - 1 - Margin) && y == k then VerticalColor(k)
      else Bordered(width, height, k, x, y, prev)
  {
  }

  /** The strip entry shown at pixel index i: the row's offset plus the column. */
  function StripOffset(width: int, i: int): (r: int)
    requires 0 < width
    ensures 0 <= r < 2 * width
  {
    i / width % width + i % width
  }

  /** The finished picture at index i of a canvas `width` pixels wide and `height` rows
      high: pixel (i % width, i / width). */
  function BackgroundAt(width: int, height: int, blue: nat -> byte, i: int): Color
    requires 0 < width && 0 <= i
  {
    Bordered(width, height, width - Margin, i % width, i / width,
             Shade(i / width, StripColor(StripOffset(width, i), blue)))
  }

  /** On a square canvas the border is a closed dashed frame: the top line in the
      horizontal dash pattern from corner to corner, the left line in the vertical pattern
      below its top corner, the right line in the vertical pattern between its corners,
      the bottom line in the horizontal pattern right of its left corner. */
  lemma {:induction false} BorderFrame(size: int, blue: nat -> byte, i: int)
    requires 2 * Margin < size && Margin <= i < size - Margin
    ensures BackgroundAt(size, size, blue, Index(size, i, Margin)) == HorizontalColor(i)
    ensures Margin < i ==> BackgroundAt(size, size, blue, Index(size, Margin, i)) == VerticalColor(i)
    ensures Margin < i < size - 1 - Margin ==>
      BackgroundAt(size, size, blue, Index(size, size - 1 - Margin, i)) == VerticalColor(i)
    ensures Margin < i ==>
      BackgroundAt(size, size, blue, Index(size, i, size - 1 - Margin)) == HorizontalColor(i)
  {
    IndexInBounds(size, size, i, Margin);
    IndexDivMod(size, size, i, Margin);
    IndexInBounds(size, size, Margin, i);
    IndexDivMod(size, size, Margin, i);
    IndexInBounds(size, size, size - 1 - Margin, i);
    IndexDivMod(size, size, size - 1 - Margin, i);
    IndexInBounds(size, size, i, size - 1 - Margin);
    IndexDivMod(size, size, i, size - 1 - Margin);
  }

  /** Off the four border lines, the picture is the strip, darkened on even rows from 2. */
  lemma {:induction false} AwayFromBorder(width: int, height: int, blue: nat -> byte, x: int, y: int)
    requires 0 <= x < width && 0 <= y < height
    requires x != Margin && x != width - 1 - Margin && y != Margin && y != height - 1 - Margin
    ensures 0 <= Index(width, x, y) < width * height
    ensures BackgroundAt(width, height, blue, Index(width, x, y)) == Shade(y, StripColor(y % width + x, blue))
  {
    IndexInBounds(width, height, x, y);
    IndexDivMod(width, height, x, y);
  }

  /** The strips run diagonally: within the first `width` rows, the pixel below (x, y)
      reads the strip entry of the pixel to its right. */
  lemma {:induction false} StripsRunDiagonally(width: int, x: int, y: int)
    requires 0 <= x && x + 1 < width && 0 <= y && y + 1 < width
    ensures StripOffset(width, Index(width, x, y + 1)) == StripOffset(width, Index(width, x + 1, y))
  {
    OffsetOfPixel(width, y + 2, x, y + 1);
    OffsetOfPixel(width, y + 2, x + 1, y);
    SmallMod(y, width);
    SmallMod(y + 1, width);
  }

  lemma SmallMod(a: int, m: int)
    requires 0 <= a < m
    ensures a % m == a
  {
  }

  /** The strip entry pixel (x, y) reads: the row's offset plus the column. */
  lemma OffsetOfPixel(width: int, height: int, x: int, y: int)
    requires 0 <= x < width && 0 <= y < height
    ensures StripOffset(width, Index(width, x, y)) == y % width + x
  {
    var i := Index(width, x, y);
    IndexDivMod(width, height, x, y);
    assert i / width == y && i % width == x;
  }

  // ---------------------------------------------------------------------------
  // The four phases of the picture

  /** Fills the strip: `2 * width` entries, enough for every row's offset plus a full row. */
  method BuildStrip(width: int, blue: nat -> byte) returns (strip: array<Color>)
    requires 0 < width
    ensures fresh(strip) && strip.Length == 2 * width
    ensures forall i | 0 <= i < strip.Length :: strip[i] == StripColor(i, blue)
  {
    strip := new Color[2 * width](_ => DefaultColor);
    for i := 0 to 2 * width
      invariant forall j | 0 <= j < i :: strip[j] == StripColor(j, blue)
    {
      var red := StripRed(i);
      strip[i] := Color(red, StripGreen(red), blue(i), 0);
    }
  }

  /** Row y shows the strip from entry `y % width` on. */
  method PaintStrips(pixels: array<Color>, width: int, height: int, strip: array<Color>)
    requires 0 < width && 0 <= height && pixels.Length == width * height
    requires strip.Length == 2 * width && strip != pixels
    modifies pixels
    ensures forall i | 0 <= i < pixels.Length :: pixels[i] == strip[StripOffset(width, i)]
  {
    for y := 0 to height
      invariant forall i | 0 <= i < width * y :: pixels[i] == strip[StripOffset(width, i)]
    {
      PaintRow(pixels, width, height, strip, y);
      assert width * (y + 1) == width * y + width;
    }
  }

  /** The inner loop of `PaintStrips`: row y. */
  method PaintRow(pixels: array<Color>, width: int, height: int, strip: array<Color>, y: int)
    requires 0 < width && 0 <= y < height && pixels.Length == width * height
    requires strip.Length == 2 * width && strip != pixels
    modifies pixels
    ensures forall i | 0 <= i < pixels.Length ::
      pixels[i] == if width * y <= i < width * y + width then strip[StripOffset(width, i)] else old(pixels[i])
  {
    var stripIdx := y % width;
    IndexInBounds(width, height, width - 1, y);
    for x := 0 to width
      invariant forall i | 0 <= i < pixels.Length ::
        pixels[i] == if width * y <= i < width * y + x then strip[StripOffset(width, i)] else old(pixels[i])
    {
      IndexDivMod(width, height, x, y);
      pixels[Index(width, x, y)] := strip[stripIdx + x];
    }
  }

  /** Indices from `width * y` to `width * y + width - 1` lie in row y. */
  lemma RowOfIndex(width: int, y: int, i: int)
    requires 0 < width && 0 <= y && width * y <= i < width * y + width
    ensures i / width == y
  {
    IndexDivMod(width, y + 1, i - width * y, y);
  }

  /** Darkens rows 2, 4, 6, ... */
  method DarkenRows(pixels: array<Color>, width: int, height: int)
    requires 0 < width && 0 <= height && pixels.Length == width * height
    modifies pixels
    ensures forall i | 0 <= i < pixels.Length :: pixels[i] == Shade(i / width, old(pixels[i]))
  {
    var y := 2;
    while y < height
      invariant 2 <= y && y % 2 == 0
      invariant forall i | 0 <= i < pixels.Length ::
        pixels[i] == if i < width * y then Shade(i / width, old(pixels[i])) else old(pixels[i])
    {
      DarkenRow(pixels, width, height, y);
      forall i | width * y <= i < width * y + width
        ensures i / width == y
      {
        RowOfIndex(width, y, i);
      }
      forall i | width * y + width <= i < width * y + 2 * width
        ensures i / width == y + 1
      {
        assert width * (y + 1) == width * y + width;
        RowOfIndex(width, y + 1, i);
      }
      assert width * (y + 2) == width * y + 2 * width;
      y := y + 2;
    }
    assert width * y == width * height + width * (y - height);
    if y > height {
      MulAtLeast(width, y - height);
    }
  }

  /** The inner loop of `DarkenRows`: row y. */
  method DarkenRow(pixels: array<Color>, width: int, height: int, y: int)
    requires 0 < width && 0 <= y < height && pixels.Length == width * height
    modifies pixels
    ensures forall i | 0 <= i < pixels.Length ::
      pixels[i] == if width * y <= i < width * y + width then Darken(old(pixels[i])) else old(pixels[i])
  {
    IndexInBounds(width, height, width - 1, y);
    for x := 0 to width
      invariant forall i | 0 <= i < pixels.Length ::
        pixels[i] == if width * y <= i < width * y + x then Darken(old(pixels[i])) else old(pixels[i])
    {
      var pix := Index(width, x, y);
      pixels[pix] := Darken(pixels[pix]);
    }
  }

  /** Iteration k of the border loop writes index i exactly when pixel (i % width, i / width)
      is one of the four pixels `BorderedStep` names. */
  lemma BorderWrites(width: int, height: int, k: int, i: int)
    requires 0 < width <= height + Margin && Margin <= k < width - Margin && 0 <= i < width * height
    ensures var x, y := i % width, i / width;
      && ((x == k && (y == Margin || y == height - 1 - Margin)) <==>
          (i == Index(width, k, Margin) || i == Index(width, k, height - 1 - Margin)))
      && (((x == Margin || x == width - 1 - Margin) && y == k) <==>
          (i == Index(width, Margin, k) || i == Index(width, width - 1 - Margin, k)))
  {
    IndexCovers(width, height, i);
    var x, y := i % width, i / width;
    if i == Index(width, Margin, k) { IndexInjective(width, x, y, Margin, k); }
    if i == Index(width, width - 1 - Margin, k) { IndexInjective(width, x, y, width - 1 - Margin, k); }
    if i == Index(width, k, Margin) { IndexInjective(width, x, y, k, Margin); }
    if i == Index(width, k, height - 1 - Margin) { IndexInjective(width, x, y, k, height - 1 - Margin); }
  }

  /** Draws the dashed border, `Margin` pixels in from each edge. The loop runs over the
      width only and writes rows up to `width - 1 - Margin`, so it stays inside the
      canvas while the width is at most `height + Margin` (or the loop does not run). */
  method DrawBorder(pixels: array<Color>, width: int, height: int)
    requires 0 < width && 0 <= height && pixels.Length == width * height
    requires width <= 2 * Margin || width <= height + Margin
    modifies pixels
    ensures forall i | 0 <= i < pixels.Length ::
      pixels[i] == Bordered(width, height, width - Margin, i % width, i / width, old(pixels[i]))
  {
    var k := Margin;
    while k < width - Margin
      invariant Margin <= k && (k <= width - Margin || k == Margin)
      invariant forall i | 0 <= i < pixels.Length ::
        pixels[i] == Bordered(width, height, k, i % width, i / width, old(pixels[i]))
    {
      ghost var before := pixels[..];
      var vertical := VerticalColor(k);
      IndexInBounds(width, height, Margin, k);
      IndexInBounds(width, height, width - 1 - Margin, k);
      IndexInBounds(width, height, k, Margin);
      IndexInBounds(width, height, k, height - 1 - Margin);
      var p1, p2 := Index(width, Margin, k), Index(width, width - 1 - Margin, k);
      var p3, p4 := Index(width, k, Margin), Index(width, k, height - 1 - Margin);
      pixels[p1] := vertical;
      pixels[p2] := vertical;
      var horizontal := HorizontalColor(k);
      pixels[p3] := horizontal;
      pixels[p4] := horizontal;
      forall i | 0 <= i < pixels.Length
        ensures pixels[i] == Bordered(width, height, k + 1, i % width, i / width, old(pixels[i]))
      {
        BorderWrites(width, height, k, i);
        BorderedStep(width, height, k, i % width, i / width, old(pixels[i]));
      }
      k := k + 1;
    }
  }

  /** Past that bound the border loop leaves the canvas: once the width exceeds
      `height + Margin`, the loop reaches row `width - 1 - Margin`, and its left-line
      write there lies beyond the last pixel. */
  lemma BorderLeavesCanvas(width: int, height: int)
    requires 2 * Margin < width && 0 <= height && height + Margin < width
    ensures Margin <= width - 1 - Margin < width - Margin
    ensures Index(width, Margin, width - 1 - Margin) >= width * height
  {
    var row := width - 1 - Margin;
    assert width * row == width * height + width * (row - height);
    assert width * (row - height) >= 0;
  }

  /** The four phases together paint `BackgroundAt` everywhere. */
  lemma BackgroundPhases(width: int, height: int, blue: nat -> byte, strip: seq<Color>,
                         painted: seq<Color>, darkened: seq<Color>, bordered: seq<Color>)
    requires 0 < width && |strip| == 2 * width
    requires |painted| == |darkened| == |bordered|
    requires forall j | 0 <= j < |strip| :: strip[j] == StripColor(j, blue)
    requires forall i | 0 <= i < |painted| :: painted[i] == strip[StripOffset(width, i)]
    requires forall i | 0 <= i < |darkened| :: darkened[i] == Shade(i / width, painted[i])
    requires forall i | 0 <= i < |bordered| ::
      bordered[i] == Bordered(width, height, width - Margin, i % width, i / width, darkened[i])
    ensures forall i | 0 <= i < |bordered| :: bordered[i] == BackgroundAt(width, height, blue, i)
  {
    forall i | 0 <= i < |bordered|
      ensures bordered[i] == BackgroundAt(width, height, blue, i)
    {
      assert painted[i] == StripColor(StripOffset(width, i), blue);
    }
  }
}
