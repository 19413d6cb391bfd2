/**
  What drawing comes to: the bytes and dirty flags of a canvas, the effect of one
  `setPixel` and of many in a row, and which pixels a drawing leaves with which color.
*/
module Plotting {
  import opened IntMath
  import opened Colors
  import opened DirtyChunks
  import opened Raster

  /** The bytes and the dirty flags of a canvas. */
  datatype Frame = Frame(data: seq<bv8>, flags: seq<bool>)

  /** One call of `setPixel`. */
  datatype Plot = Plot(at: Point, color: Color)

  /** How C++ converts a signed coordinate to `unsigned`. */
  function Unsigned(x: int): nat {
    x % 0x1_0000_0000
  }

  function ByteIndex(w: nat, x: nat, y: nat): nat {
    3 * w * y + 3 * x
  }

  ghost predicate Fits(f: Frame, w: nat, h: nat) {
    |f.data| == 3 * w * h
  }

  lemma IndexInRange(w: nat, h: nat, x: nat, y: nat)
    requires x < w && y < h
    ensures ByteIndex(w, x, y) + 3 <= 3 * w * h
  {
    Monotone(3 * w, y + 1, h);
  }

  lemma RowBelow(stride: nat, y: nat, y': nat)
    requires y < y'
    ensures stride * y + stride <= stride * y'
  {
    MulSucc(stride, y);
    Monotone(stride, y + 1, y');
  }

  /** Two pixels never share a byte. */
  lemma IndexApart(w: nat, x: nat, y: nat, x': nat, y': nat)
    requires x < w && x' < w && (x, y) != (x', y')
    ensures ByteIndex(w, x, y) + 3 <= ByteIndex(w, x', y') || ByteIndex(w, x', y') + 3 <= ByteIndex(w, x, y)
  {
    if y < y' {
      RowBelow(3 * w, y, y');
    } else if y' < y {
      RowBelow(3 * w, y', y);
    }
  }

  function PixelAt(f: Frame, w: nat, h: nat, x: nat, y: nat): Color
    requires Fits(f, w, h) && x < w && y < h
  {
    IndexInRange(w, h, x, y);
    var i := ByteIndex(w, x, y);
    Rgb(f.data[i], f.data[i + 1], f.data[i + 2])
  }

  function Store(data: seq<bv8>, i: nat, c: Color): seq<bv8>
    requires i + 3 <= |data|
  {
    data[i := c.Red()][i + 1 := c.Green()][i + 2 := c.Blue()]
  }

  /** The color that `setPixel` stores over `was`. */
  function Blended(was: Color, c: Color): Color {
    if c.blend == Invert then was.Inverted() else c
  }

  predicate Visible(w: nat, h: nat, x: nat, y: nat, c: Color) {
    x < w && y < h && !c.IsTransparent()
  }

  /** `setPixel` with its default of marking changes. */
  function SetPixel(f: Frame, w: nat, h: nat, x: nat, y: nat, c: Color): (f': Frame)
    requires Fits(f, w, h)
    ensures Fits(f', w, h) && |f'.flags| == |f.flags|
  {
    if !Visible(w, h, x, y, c) then f
    else
      IndexInRange(w, h, x, y);
      var was := PixelAt(f, w, h, x, y);
      var now := Blended(was, c);
      Frame(Store(f.data, ByteIndex(w, x, y), now),
            if was != now then SetDirtyChunk(f.flags, y, h) else f.flags)
  }

  function PlotOne(f: Frame, w: nat, h: nat, plot: Plot): (f': Frame)
    requires Fits(f, w, h)
    ensures Fits(f', w, h) && |f'.flags| == |f.flags|
  {
    SetPixel(f, w, h, Unsigned(plot.at.x), Unsigned(plot.at.y), plot.color)
  }

  function PlotAll(f: Frame, w: nat, h: nat, plots: seq<Plot>): (f': Frame)
    requires Fits(f, w, h)
    ensures Fits(f', w, h) && |f'.flags| == |f.flags|
  {
    if plots == [] then f
    else PlotOne(PlotAll(f, w, h, plots[..|plots| - 1]), w, h, plots[|plots| - 1])
  }

  function Plots(points: seq<Point>, c: Color): seq<Plot> {
    seq(|points|, i requires 0 <= i < |points| => Plot(points[i], c))
  }

  // --------------------------------------------------------- one pixel at a time

  /** Painting a pixel leaves every other pixel alone. */
  lemma {:induction false} SetPixelIsLocal(f: Frame, w: nat, h: nat, x: nat, y: nat, c: Color, x': nat, y': nat)
    requires Fits(f, w, h) && x' < w && y' < h && (x, y) != (x', y')
    ensures PixelAt(SetPixel(f, w, h, x, y, c), w, h, x', y') == PixelAt(f, w, h, x', y')
  {
    if Visible(w, h, x, y, c) {
      IndexInRange(w, h, x, y);
      IndexInRange(w, h, x', y');
      IndexApart(w, x, y, x', y');
    }
  }

  /** Reading a pixel back gives the channels that were painted. */
  lemma {:induction false} SetPixelReadsBack(f: Frame, w: nat, h: nat, x: nat, y: nat, c: Color)
    requires Fits(f, w, h) && Visible(w, h, x, y, c)
    ensures var was, now := PixelAt(f, w, h, x, y), PixelAt(SetPixel(f, w, h, x, y, c), w, h, x, y);
      now == if c.blend == Invert then Rgb(!was.r, !was.g, !was.b) else Rgb(c.r, c.g, c.b)
  {
    IndexInRange(w, h, x, y);
  }

  /** Writing back the color that was read changes nothing, the dirty flags included. */
  lemma {:induction false} WriteBack(f: Frame, w: nat, h: nat, x: nat, y: nat)
    requires Fits(f, w, h) && x < w && y < h
    ensures SetPixel(f, w, h, x, y, PixelAt(f, w, h, x, y)) == f
  {
    IndexInRange(w, h, x, y);
  }

  /** Inverting twice restores every byte. */
  lemma {:induction false} InvertTwice(f: Frame, w: nat, h: nat, x: nat, y: nat, c: Color)
    requires Fits(f, w, h) && Visible(w, h, x, y, c) && c.blend == Invert
    ensures SetPixel(SetPixel(f, w, h, x, y, c), w, h, x, y, c).data == f.data
  {
    IndexInRange(w, h, x, y);
    var once := SetPixel(f, w, h, x, y, c);
    StoreTwice(f.data, ByteIndex(w, x, y), PixelAt(f, w, h, x, y).Inverted(),
               once.data, PixelAt(once, w, h, x, y).Inverted());
  }

  lemma {:induction false} NotNot(b: bv8)
    ensures !!b == b
  {
  }

  lemma {:induction false} UpdateBack<T>(s: seq<T>, i: nat, a: T, b: T, c: T)
    requires i + 3 <= |s|
    ensures s[i := a][i + 1 := b][i + 2 := c][i := s[i]][i + 1 := s[i + 1]][i + 2 := s[i + 2]] == s
  {
  }

  lemma {:induction false} StoreTwice(data: seq<bv8>, i: nat, was: Color, once: seq<bv8>, was': Color)
    requires i + 3 <= |data| && was.blend == Invert == was'.blend
    requires was.r == data[i] && was.g == data[i + 1] && was.b == data[i + 2]
    requires once == Store(data, i, was)
    requires was'.r == once[i] && was'.g == once[i + 1] && was'.b == once[i + 2]
    ensures Store(once, i, was') == data
  {
    NotNot(data[i]);
    NotNot(data[i + 1]);
    NotNot(data[i + 2]);
    assert was'.Red() == data[i] && was'.Green() == data[i + 1] && was'.Blue() == data[i + 2];
    UpdateBack(data, i, was.Red(), was.Green(), was.Blue());
  }

  // ------------------------------------------------------------------ dirty flags

  ghost predicate RowDirty(f: Frame, y: nat, h: nat) {
    1 <= |f.flags| <= h && DirtyChunk(f.flags, ChunkOf(y, h, |f.flags|))
  }

  lemma {:induction false} SetPixelMarks(f: Frame, w: nat, h: nat, x: nat, y: nat, c: Color, x': nat, y': nat)
    requires Fits(f, w, h) && x' < w && y' < h && 1 <= |f.flags| <= h
    ensures var f' := SetPixel(f, w, h, x, y, c);
      && (RowDirty(f, y', h) ==> RowDirty(f', y', h))
      && (PixelAt(f', w, h, x', y') != PixelAt(f, w, h, x', y') ==> RowDirty(f', y', h))
  {
    OnlyMarks(f.flags, y, h, ChunkOf(y', h, |f.flags|));
    if (x, y) != (x', y') {
      SetPixelIsLocal(f, w, h, x, y, c, x', y');
    } else if Visible(w, h, x, y, c) {
      SetPixelReadsBack(f, w, h, x, y, c);
    }
  }

  /** Whatever is drawn, a pixel that ends up different lies in a chunk that is marked dirty. */
  lemma {:induction false} DrawingMarksChanges(f: Frame, w: nat, h: nat, plots: seq<Plot>, x: nat, y: nat)
    requires Fits(f, w, h) && x < w && y < h && 1 <= |f.flags| <= h
    ensures var f' := PlotAll(f, w, h, plots);
      && (RowDirty(f, y, h) ==> RowDirty(f', y, h))
      && (PixelAt(f', w, h, x, y) != PixelAt(f, w, h, x, y) ==> RowDirty(f', y, h))
    decreases |plots|
  {
    if plots != [] {
      var n := |plots| - 1;
      DrawingMarksChanges(f, w, h, plots[..n], x, y);
      var at := plots[n].at;
      SetPixelMarks(PlotAll(f, w, h, plots[..n]), w, h, Unsigned(at.x), Unsigned(at.y), plots[n].color, x, y);
    }
  }

  lemma {:induction false} PlotAllConcat(f: Frame, w: nat, h: nat, a: seq<Plot>, b: seq<Plot>)
    requires Fits(f, w, h)
    ensures PlotAll(f, w, h, a + b) == PlotAll(PlotAll(f, w, h, a), w, h, b)
    decreases |b|
  {
    if b == [] {
      assert a + b == a;
    } else {
      assert (a + b)[..|a + b| - 1] == a + b[..|b| - 1];
      PlotAllConcat(f, w, h, a, b[..|b| - 1]);
    }
  }

  lemma {:induction false} PlotMore(f: Frame, w: nat, h: nat, a: seq<Plot>, plot: Plot)
    requires Fits(f, w, h)
    ensures PlotAll(f, w, h, a + [plot]) == PlotOne(PlotAll(f, w, h, a), w, h, plot)
  {
    assert (a + [plot])[..|a|] == a;
  }

  // ---------------------------------------------------------------------- circle

  /** What a circle puts at offset (x, y) from its centre: nothing, outline or fill. */
  function CirclePlot(cx: nat, cy: nat, r: nat, c: Color, fill: Color, x: int, y: int): seq<Plot> {
    if OnOutline(r, x, y) then [Plot(Point(x + cx, y + cy), c)]
    else if !fill.IsTransparent() && Inside(r, x, y) then [Plot(Point(x + cx, y + cy), fill)]
    else []
  }

  /** Column x from row y0 up to but not including y1. */
  function CircleColumn(cx: nat, cy: nat, r: nat, c: Color, fill: Color, x: int, y0: int, y1: int): seq<Plot>
    decreases y1 - y0
  {
    if y1 <= y0 then []
    else CircleColumn(cx, cy, r, c, fill, x, y0, y1 - 1) + CirclePlot(cx, cy, r, c, fill, x, y1 - 1)
  }

  function CircleColumns(cx: nat, cy: nat, r: nat, c: Color, fill: Color, box: Box, x1: int): seq<Plot>
    decreases x1 - box.x0
  {
    if x1 <= box.x0 then []
    else CircleColumns(cx, cy, r, c, fill, box, x1 - 1)
         + CircleColumn(cx, cy, r, c, fill, x1 - 1, box.y0, box.y1 + 1)
  }

  function CirclePlots(cx: nat, cy: nat, r: nat, c: Color, fill: Color, shape: CircleType): seq<Plot> {
    if r == 0 then []
    else
      var box := Scan(r, shape);
      CircleColumns(cx, cy, r, c, fill, box, box.x1 + 1)
  }

  lemma {:induction false} ColumnMember(cx: nat, cy: nat, r: nat, c: Color, fill: Color, x: int, y0: int, y1: int,
                                        dx: int, dy: int, color: Color)
    ensures Plot(Point(dx + cx, dy + cy), color) in CircleColumn(cx, cy, r, c, fill, x, y0, y1) <==>
      dx == x && y0 <= dy < y1 && Plot(Point(dx + cx, dy + cy), color) in CirclePlot(cx, cy, r, c, fill, dx, dy)
    decreases y1 - y0
  {
    if y1 > y0 {
      ColumnMember(cx, cy, r, c, fill, x, y0, y1 - 1, dx, dy, color);
    }
  }

  lemma {:induction false} ColumnsMember(cx: nat, cy: nat, r: nat, c: Color, fill: Color, box: Box, x1: int,
                                         dx: int, dy: int, color: Color)
    ensures Plot(Point(dx + cx, dy + cy), color) in CircleColumns(cx, cy, r, c, fill, box, x1) <==>
      box.x0 <= dx < x1 && box.y0 <= dy <= box.y1
      && Plot(Point(dx + cx, dy + cy), color) in CirclePlot(cx, cy, r, c, fill, dx, dy)
    decreases x1 - box.x0
  {
    if x1 > box.x0 {
      ColumnsMember(cx, cy, r, c, fill, box, x1 - 1, dx, dy, color);
      ColumnMember(cx, cy, r, c, fill, x1 - 1, box.y0, box.y1 + 1, dx, dy, color);
    }
  }

  /** Exactly what a circle of any type paints, and in which color. */
  lemma {:induction false} CircleMember(cx: nat, cy: nat, r: nat, c: Color, fill: Color, shape: CircleType,
                                        x: int, y: int, color: Color)
    requires r >= 1
    ensures Plot(Point(x + cx, y + cy), color) in CirclePlots(cx, cy, r, c, fill, shape) <==>
      && Scan(r, shape).Has(x, y)
      && (if OnOutline(r, x, y) then color == c
          else color == fill && !fill.IsTransparent() && Inside(r, x, y))
  {
    ColumnsMember(cx, cy, r, c, fill, Scan(r, shape), Scan(r, shape).x1 + 1, x, y, color);
  }

  ghost predicate Paints(plots: seq<Plot>, p: Point) {
    exists color :: Plot(p, color) in plots
  }

  /** A filled full circle paints exactly the disc of squared radius r * r + r. */
  lemma {:induction false} FilledCircleIsDisc(cx: nat, cy: nat, r: nat, c: Color, fill: Color, x: int, y: int)
    requires r >= 1 && !fill.IsTransparent()
    ensures Paints(CirclePlots(cx, cy, r, c, fill, Full), Point(x + cx, y + cy)) <==> x * x + y * y < r * r + r
  {
    DiscShape(r, x, y);
    CircleMember(cx, cy, r, c, fill, Full, x, y, if OnOutline(r, x, y) then c else fill);
    if x * x + y * y < r * r + r {
      DiscInBox(r, x, y);
    }
    if Paints(CirclePlots(cx, cy, r, c, fill, Full), Point(x + cx, y + cy)) {
      var color :| Plot(Point(x + cx, y + cy), color) in CirclePlots(cx, cy, r, c, fill, Full);
      CircleMember(cx, cy, r, c, fill, Full, x, y, color);
    }
  }

  /** The four quarters together paint what the full circle paints, in the same colors. */
  lemma {:induction false} QuartersPaintFull(cx: nat, cy: nat, r: nat, c: Color, fill: Color, x: int, y: int, color: Color)
    requires r >= 1
    ensures var p := Plot(Point(x + cx, y + cy), color);
      p in CirclePlots(cx, cy, r, c, fill, Full) <==>
        || p in CirclePlots(cx, cy, r, c, fill, QuarterTopLeft)
        || p in CirclePlots(cx, cy, r, c, fill, QuarterTopRight)
        || p in CirclePlots(cx, cy, r, c, fill, QuarterBottomLeft)
        || p in CirclePlots(cx, cy, r, c, fill, QuarterBottomRight)
  {
    QuartersMakeFull(r, x, y);
    CircleMember(cx, cy, r, c, fill, Full, x, y, color);
    CircleMember(cx, cy, r, c, fill, QuarterTopLeft, x, y, color);
    CircleMember(cx, cy, r, c, fill, QuarterTopRight, x, y, color);
    CircleMember(cx, cy, r, c, fill, QuarterBottomLeft, x, y, color);
    CircleMember(cx, cy, r, c, fill, QuarterBottomRight, x, y, color);
  }

  /** The outline of a full circle has a pixel in every column and in every row. */
  lemma {:induction false} OutlineReachesAll(cx: nat, cy: nat, r: nat, c: Color, fill: Color, k: int) returns (m: int)
    requires r >= 1 && 0 - r <= k <= r
    ensures Plot(Point(k + cx, m + cy), c) in CirclePlots(cx, cy, r, c, fill, Full)
    ensures Plot(Point(m + cx, k + cy), c) in CirclePlots(cx, cy, r, c, fill, Full)
  {
    m := OutlineInColumn(r, k);
    CircleMember(cx, cy, r, c, fill, Full, k, m, c);
    CircleMember(cx, cy, r, c, fill, Full, m, k, c);
  }

  // ------------------------------------------------------------------ triangle

  /** The fill, and then the outline unless all corners are on one row. */
  function TrianglePlots(p: Point, q: Point, r: Point, c: Color, fill: Color): seq<Plot> {
    var filled := Plots(FilledPoints(p, q, r), fill);
    var (p, q, r) := SortByY(p, q, r);
    if p.y == r.y then filled
    else filled + Plots(LinePoints(p, q), c) + Plots(LinePoints(q, r), c) + Plots(LinePoints(r, p), c)
  }

  lemma {:induction false} SmallUnsigned(x: nat)
    requires x <= 0xffff_ffff
    ensures Unsigned(x) == x
  {
  }

  lemma {:induction false} NoPlots(f: Frame, w: nat, h: nat)
    requires Fits(f, w, h)
    ensures PlotAll(f, w, h, []) == f
  {
  }

  // -------------------------------------------------------------------- images

  /** The bytes of a pixel. */
  lemma {:induction false} PixelBytes(f: Frame, w: nat, h: nat, x: nat, y: nat)
    requires Fits(f, w, h) && x < w && y < h
    ensures 0 <= 3 * w * y + 3 * x && 3 * w * y + 3 * x + 2 < |f.data|
    ensures PixelAt(f, w, h, x, y)
      == Rgb(f.data[3 * w * y + 3 * x], f.data[3 * w * y + 3 * x + 1], f.data[3 * w * y + 3 * x + 2])
  {
    IndexInRange(w, h, x, y);
  }

  /** Drawn at that pixel, in a color that shows. */
  predicate Hits(plot: Plot, x: nat, y: nat) {
    plot.at.x % 0x1_0000_0000 == x && plot.at.y % 0x1_0000_0000 == y && plot.color.blend != Transparent
  }

  /** The color, or its complement after an odd number of inversions. */
  function Turned(c: Color, odd: bool): Color {
    if odd then Rgb(!c.r, !c.g, !c.b) else Rgb(c.r, c.g, c.b)
  }

  predicate Odd(n: nat) {
    n % 2 == 1
  }

  function HitCount(plots: seq<Plot>, x: nat, y: nat): nat {
    if plots == [] then 0
    else HitCount(plots[..|plots| - 1], x, y) + (if Hits(plots[|plots| - 1], x, y) then 1 else 0)
  }

  lemma {:induction false} PlotPixel(f: Frame, w: nat, h: nat, plot: Plot, x: nat, y: nat)
    requires Fits(f, w, h) && x < w && y < h
    ensures PixelAt(PlotOne(f, w, h, plot), w, h, x, y) ==
      if !Hits(plot, x, y) then PixelAt(f, w, h, x, y)
      else Turned(if plot.color.blend == Invert then PixelAt(f, w, h, x, y) else plot.color,
                  plot.color.blend == Invert)
  {
    hide PixelAt, SetPixel;
    var px, py := Unsigned(plot.at.x), Unsigned(plot.at.y);
    if (px, py) != (x, y) {
      SetPixelIsLocal(f, w, h, px, py, plot.color, x, y);
    } else if plot.color.blend == Transparent {
      assert PlotOne(f, w, h, plot) == f by { InvisiblePixel(f, w, h, px, py, plot.color); }
    } else {
      SetPixelReadsBack(f, w, h, x, y, plot.color);
    }
  }

  lemma {:induction false} InvisiblePixel(f: Frame, w: nat, h: nat, x: nat, y: nat, c: Color)
    requires Fits(f, w, h) && !(x < w && y < h && c.blend != Transparent)
    ensures SetPixel(f, w, h, x, y, c) == f
  {
  }

  lemma {:induction false} TurnedTwice(c: Color, odd: bool)
    ensures Turned(Turned(c, odd), true) == Turned(c, !odd)
    ensures Turned(Turned(c, odd), false) == Turned(c, odd) == Turned(Turned(c, false), odd)
  {
    hide Turned, Rgb;
    TurnedBy(c);
    TurnedRgb(c.r, c.g, c.b);
    TurnedRgb(!c.r, !c.g, !c.b);
    NotNot(c.r);
    NotNot(c.g);
    NotNot(c.b);
  }

  lemma {:induction false} TurnedBy(c: Color)
    ensures Turned(c, true) == Rgb(!c.r, !c.g, !c.b) && Turned(c, false) == Rgb(c.r, c.g, c.b)
  {
  }

  lemma {:induction false} TurnedRgb(r: bv8, g: bv8, b: bv8)
    ensures Turned(Rgb(r, g, b), true) == Rgb(!r, !g, !b) && Turned(Rgb(r, g, b), false) == Rgb(r, g, b)
  {
    hide Rgb;
    RgbBytes(r, g, b);
  }

  lemma {:induction false} RgbBytes(r: bv8, g: bv8, b: bv8)
    ensures Rgb(r, g, b).r == r && Rgb(r, g, b).g == g && Rgb(r, g, b).b == b
  {
  }

  lemma {:induction false} NoneIsEven()
    ensures !Odd(0)
  {
  }

  lemma {:induction false} OddFlips(n: nat)
    ensures Odd(n + 1) == !Odd(n)
  {
  }

  lemma {:induction false} PixelIsPlain(f: Frame, w: nat, h: nat, x: nat, y: nat)
    requires Fits(f, w, h) && x < w && y < h
    ensures Turned(PixelAt(f, w, h, x, y), false) == PixelAt(f, w, h, x, y)
  {
  }

  /** Where a drawing only inverts, each pixel is inverted as often as it is hit. */
  lemma {:induction false} ImageInverted(f: Frame, w: nat, h: nat, plots: seq<Plot>, x: nat, y: nat)
    requires Fits(f, w, h) && x < w && y < h
    requires forall i :: 0 <= i < |plots| && Hits(plots[i], x, y) ==> plots[i].color.blend == Invert
    ensures PixelAt(PlotAll(f, w, h, plots), w, h, x, y) == Turned(PixelAt(f, w, h, x, y), Odd(HitCount(plots, x, y)))
    decreases |plots|
  {
    hide PixelAt, PlotOne, Hits, Turned, Odd;
    if plots == [] {
      NoneIsEven();
      PixelIsPlain(f, w, h, x, y);
    } else {
      var n := |plots| - 1;
      ImageInverted(f, w, h, plots[..n], x, y);
      PlotPixel(PlotAll(f, w, h, plots[..n]), w, h, plots[n], x, y);
      TurnedTwice(PixelAt(f, w, h, x, y), Odd(HitCount(plots[..n], x, y)));
      OddFlips(HitCount(plots[..n], x, y));
    }
  }

  /**
    Main theorem on images: after any drawing, a pixel shows the color of the last
    plain plot that hits it, inverted as often as it is hit in invert mode after that.
    Where no plain plot hits, `ImageInverted` says what it shows.
  */
  lemma {:induction false} ImagePixel(f: Frame, w: nat, h: nat, plots: seq<Plot>, x: nat, y: nat, k: nat)
    requires Fits(f, w, h) && x < w && y < h
    requires k < |plots| && Hits(plots[k], x, y) && plots[k].color.blend == Normal
    requires forall i :: k < i < |plots| && Hits(plots[i], x, y) ==> plots[i].color.blend == Invert
    ensures PixelAt(PlotAll(f, w, h, plots), w, h, x, y) == Turned(plots[k].color, Odd(HitCount(plots[k + 1..], x, y)))
  {
    hide PixelAt, PlotOne, PlotAll, Hits, Turned, HitCount, Odd;
    var upTo, after := plots[..k], plots[k + 1..];
    var g := PlotAll(f, w, h, upTo + [plots[k]]);
    assert plots == upTo + [plots[k]] + after;
    PlotAllConcat(f, w, h, upTo + [plots[k]], after);
    PlotMore(f, w, h, upTo, plots[k]);
    PlotPixel(PlotAll(f, w, h, upTo), w, h, plots[k], x, y);
    forall i | 0 <= i < |after| && Hits(after[i], x, y)
      ensures after[i].color.blend == Invert
    {
      assert after[i] == plots[k + 1 + i];
    }
    ImageInverted(g, w, h, after, x, y);
    TurnedTwice(plots[k].color, Odd(HitCount(after, x, y)));
  }

  /** Where every plot that hits has the same plain color. */
  lemma {:induction false} ImageOneColor(f: Frame, w: nat, h: nat, plots: seq<Plot>, x: nat, y: nat, c: Color)
    requires Fits(f, w, h) && x < w && y < h && c.blend == Normal
    requires forall i :: 0 <= i < |plots| && Hits(plots[i], x, y) ==> plots[i].color == c
    ensures PixelAt(PlotAll(f, w, h, plots), w, h, x, y) ==
      if exists i :: 0 <= i < |plots| && Hits(plots[i], x, y) then Rgb(c.r, c.g, c.b) else PixelAt(f, w, h, x, y)
    decreases |plots|
  {
    hide PixelAt, PlotOne, Hits;
    if plots != [] {
      var n := |plots| - 1;
      ImageOneColor(f, w, h, plots[..n], x, y, c);
      PlotPixel(PlotAll(f, w, h, plots[..n]), w, h, plots[n], x, y);
      if exists i :: 0 <= i < n && Hits(plots[..n][i], x, y) {
        var i :| 0 <= i < n && Hits(plots[..n][i], x, y);
        assert Hits(plots[i], x, y);
      }
      if exists i :: 0 <= i < n && Hits(plots[i], x, y) {
        var i :| 0 <= i < n && Hits(plots[i], x, y);
        assert Hits(plots[..n][i], x, y);
      }
    }
  }

  /** A canvas, and the same after exactly the pixels of a set were given a plain color. */
  ghost predicate Recolored(f: Frame, f': Frame, w: nat, h: nat, points: seq<Point>, c: Color)
    requires Fits(f, w, h) && Fits(f', w, h)
  {
    forall x, y :: 0 <= x < w && 0 <= y < h ==>
      PixelAt(f', w, h, x, y) == if Point(x, y) in points then Rgb(c.r, c.g, c.b) else PixelAt(f, w, h, x, y)
  }

  /** The points are 32-bit unsigned coordinates. */
  ghost predicate Plain(points: seq<Point>) {
    forall i :: 0 <= i < |points| ==> 0 <= points[i].x <= 0xffff_ffff && 0 <= points[i].y <= 0xffff_ffff
  }

  lemma {:induction false} PointHit(points: seq<Point>, c: Color, x: nat, y: nat)
    requires Plain(points) && c.blend == Normal
    ensures (exists i :: 0 <= i < |points| && Hits(Plots(points, c)[i], x, y)) <==> Point(x, y) in points
  {
    if Point(x, y) in points {
      var i :| 0 <= i < |points| && points[i] == Point(x, y);
      SmallUnsigned(x);
      SmallUnsigned(y);
      assert Hits(Plots(points, c)[i], x, y);
    }
    if exists i :: 0 <= i < |points| && Hits(Plots(points, c)[i], x, y) {
      var i :| 0 <= i < |points| && Hits(Plots(points, c)[i], x, y);
      SmallUnsigned(points[i].x);
      SmallUnsigned(points[i].y);
      assert points[i] == Point(x, y);
    }
  }

  /** Plotting points in one plain color gives exactly those pixels that color. */
  lemma {:induction false} PointsRecolor(f: Frame, w: nat, h: nat, points: seq<Point>, c: Color)
    requires Fits(f, w, h) && Plain(points) && c.blend == Normal
    ensures Recolored(f, PlotAll(f, w, h, Plots(points, c)), w, h, points, c)
  {
    hide PixelAt, PlotAll, Hits, Plain;
    forall x, y | 0 <= x < w && 0 <= y < h
      ensures PixelAt(PlotAll(f, w, h, Plots(points, c)), w, h, x, y)
        == if Point(x, y) in points then Rgb(c.r, c.g, c.b) else PixelAt(f, w, h, x, y)
    {
      ImageOneColor(f, w, h, Plots(points, c), x, y, c);
      PointHit(points, c, x, y);
    }
  }

  lemma {:induction false} LineRecolors(f: Frame, w: nat, h: nat, p: Point, q: Point, c: Color)
    requires Fits(f, w, h) && OnPlane(p) && OnPlane(q)
    ensures c.blend == Normal ==> Recolored(f, PlotAll(f, w, h, Plots(LinePoints(p, q), c)), w, h, LinePoints(p, q), c)
  {
    hide PlotAll, Plots, LinePoints, Recolored;
    LinePlain(p, q);
    if c.blend == Normal {
      PointsRecolor(f, w, h, LinePoints(p, q), c);
    }
  }

  /** The pixels from `x` on, `l` of them, on row `y`: none if the end of the line wraps around. */
  ghost predicate RowShows(f: Frame, f': Frame, w: nat, h: nat, x: nat, y: nat, l: nat, c: Color)
    requires Fits(f, w, h) && Fits(f', w, h)
  {
    forall a, b :: 0 <= a < w && 0 <= b < h ==>
      PixelAt(f', w, h, a, b) ==
        if b == y && x <= a < x + l <= 0xffff_ffff then Rgb(c.r, c.g, c.b) else PixelAt(f, w, h, a, b)
  }

  lemma {:induction false} RowRecolors(f: Frame, w: nat, h: nat, x: nat, y: nat, l: nat, c: Color)
    requires Fits(f, w, h) && x <= 0xffff_ffff && y <= 0xffff_ffff && l <= 0xffff_ffff
    ensures c.blend == Normal ==>
      RowShows(f, PlotAll(f, w, h, Plots(Row(x, Unsigned(x + l) - 1, y), c)), w, h, x, y, l, c)
  {
    hide PixelAt, PlotAll, Plots;
    var points := Row(x, Unsigned(x + l) - 1, y);
    UnsignedSum(x, l);
    if c.blend == Normal {
      PointsRecolor(f, w, h, points, c);
      forall a, b | 0 <= a < w && 0 <= b < h
        ensures Point(a, b) in points <==> b == y && x <= a < x + l <= 0xffff_ffff
      {
        RowMember(x, Unsigned(x + l) - 1, y, Point(a, b));
      }
    }
  }

  lemma {:induction false} UnsignedSum(x: nat, l: nat)
    requires x <= 0xffff_ffff && l <= 0xffff_ffff
    ensures Unsigned(x + l) == if x + l <= 0xffff_ffff then x + l else x + l - 0x1_0000_0000
  {
  }

  lemma {:induction false} LinePlain(p: Point, q: Point)
    requires 0 <= p.x <= 0xffff_ffff && 0 <= p.y <= 0xffff_ffff && 0 <= q.x <= 0xffff_ffff && 0 <= q.y <= 0xffff_ffff
    ensures Plain(LinePoints(p, q))
  {
    hide LinePoint;
    forall j | 0 <= j <= LineSteps(p, q)
      ensures 0 <= LinePoint(p, q, j).x <= 0xffff_ffff && 0 <= LinePoint(p, q, j).y <= 0xffff_ffff
    {
      LineInBox(p, q, j);
    }
  }

  /** One step past such a point is still a 32-bit coordinate. */
  predicate OnPlane(p: Point) {
    0 <= p.x < 0x7fff_ffff && 0 <= p.y < 0x7fff_ffff
  }

  predicate Apart(p: Point, q: Point, limit: nat) {
    Abs(q.x - p.x) < limit && Abs(q.y - p.y) < limit
  }

  predicate Compact(p: Point, q: Point, r: Point) {
    && OnPlane(p) && OnPlane(q) && OnPlane(r)
    && Apart(p, q, 0x8000) && Apart(q, r, 0x8000) && Apart(p, r, 0x8000)
  }

  // ------------------------------------------------------------ image of a circle

  /** The part of the plane around the centre that a circle type draws in. */
  predicate Covers(shape: CircleType, x: int, y: int) {
    match shape
    case Full => true
    case SemiLeft => x <= 0
    case SemiRight => x >= 0
    case SemiTop => y <= 0
    case SemiBottom => y >= 0
    case QuarterTopLeft => x <= 0 && y <= 0
    case QuarterTopRight => x >= 0 && y <= 0
    case QuarterBottomLeft => x <= 0 && y >= 0
    case QuarterBottomRight => x >= 0 && y >= 0
  }

  lemma {:induction false} ScanMeans(r: nat, shape: CircleType, x: int, y: int)
    ensures Scan(r, shape).Has(x, y) <==> 0 - r <= x <= r && 0 - r <= y <= r && Covers(shape, x, y)
  {
  }

  /** An offset from the centre that wraps to pixel `x` is the plain difference. */
  lemma {:induction false} NoWrap(r: nat, c: nat, d: int, x: nat)
    requires r < 0x8000 && c <= 0x7fff_ffff && x < 0x7fff_ffff && 0 - r <= d <= r
    ensures (d + c) % 0x1_0000_0000 == x <==> d == x - c
  {
  }

  /** The plots of a circle that hit a pixel: at most one offset, and so one color. */
  lemma {:induction false} CircleHit(cx: nat, cy: nat, r: nat, c: Color, fill: Color, shape: CircleType,
                                     x: nat, y: nat, plot: Plot)
    requires 1 <= r < 0x8000 && cx <= 0x7fff_ffff && cy <= 0x7fff_ffff && x < 0x7fff_ffff && y < 0x7fff_ffff
    requires plot in CirclePlots(cx, cy, r, c, fill, shape) && Hits(plot, x, y)
    ensures var dx, dy := x - cx, y - cy;
      && plot.at == Point(x, y) && Scan(r, shape).Has(dx, dy)
      && if OnOutline(r, dx, dy) then plot.color == c
         else plot.color == fill && !fill.IsTransparent() && Inside(r, dx, dy)
  {
    hide CirclePlots, OnOutline, Inside;
    var dx, dy := plot.at.x - cx, plot.at.y - cy;
    assert plot == Plot(Point(dx + cx, dy + cy), plot.color);
    CircleMember(cx, cy, r, c, fill, shape, dx, dy, plot.color);
    ScanMeans(r, shape, dx, dy);
    NoWrap(r, cx, dx, x);
    NoWrap(r, cy, dy, y);
  }

  /**
    Main theorem on circles: around the centre, the pixels with |x² + y² - r²| < r show
    the outline color, those with x² + y² < r² besides the fill color, if there is one,
    and all others are as before.
  */
  lemma {:induction false} CirclePixel(f: Frame, w: nat, h: nat, cx: nat, cy: nat, r: nat, c: Color, fill: Color,
                                       shape: CircleType, x: nat, y: nat)
    requires Fits(f, w, h) && x < w <= 0x7fff_ffff && y < h <= 0x7fff_ffff
    requires 1 <= r < 0x8000 && cx <= 0x7fff_ffff && cy <= 0x7fff_ffff
    requires c.blend == Normal && fill.blend != Invert
    ensures var dx, dy := x - cx, y - cy;
      var d := dx * dx + dy * dy;
      PixelAt(PlotAll(f, w, h, CirclePlots(cx, cy, r, c, fill, shape)), w, h, x, y) ==
        if Covers(shape, dx, dy) && r * r - d < r && d - r * r < r then Rgb(c.r, c.g, c.b)
        else if Covers(shape, dx, dy) && d < r * r && fill.blend == Normal then Rgb(fill.r, fill.g, fill.b)
        else PixelAt(f, w, h, x, y)
  {
    hide PixelAt, PlotAll, CirclePlots, Hits;
    var dx, dy := x - cx, y - cy;
    var plots := CirclePlots(cx, cy, r, c, fill, shape);
    var color := if OnOutline(r, dx, dy) || fill.IsTransparent() then c else fill;
    forall i | 0 <= i < |plots| && Hits(plots[i], x, y)
      ensures plots[i].color == color
    {
      CircleHit(cx, cy, r, c, fill, shape, x, y, plots[i]);
    }
    ImageOneColor(f, w, h, plots, x, y, color);
    CircleHits(cx, cy, r, c, fill, shape, x, y, color);
    ScanMeans(r, shape, dx, dy);
    if dx * dx + dy * dy < r * r + r {
      DiscInBox(r, dx, dy);
      ScanMeans(r, Full, dx, dy);
    }
  }

  /** What a circle leaves on the canvas, pixel by pixel. */
  ghost predicate CircleShows(f: Frame, f': Frame, w: nat, h: nat, cx: nat, cy: nat, r: nat, c: Color, fill: Color,
                              shape: CircleType)
    requires Fits(f, w, h) && Fits(f', w, h)
  {
    forall x, y :: 0 <= x < w && 0 <= y < h ==>
      var dx, dy := x - cx, y - cy;
      var d := dx * dx + dy * dy;
      PixelAt(f', w, h, x, y) ==
        if Covers(shape, dx, dy) && r * r - d < r && d - r * r < r then Rgb(c.r, c.g, c.b)
        else if Covers(shape, dx, dy) && d < r * r && fill.blend == Normal then Rgb(fill.r, fill.g, fill.b)
        else PixelAt(f, w, h, x, y)
  }

  lemma {:induction false} CircleRecolors(f: Frame, w: nat, h: nat, cx: nat, cy: nat, r: nat, c: Color, fill: Color,
                                          shape: CircleType)
    requires Fits(f, w, h) && w <= 0x7fff_ffff && h <= 0x7fff_ffff
    requires 1 <= r < 0x8000 && cx <= 0x7fff_ffff && cy <= 0x7fff_ffff
    requires c.blend == Normal && fill.blend != Invert
    ensures CircleShows(f, PlotAll(f, w, h, CirclePlots(cx, cy, r, c, fill, shape)), w, h, cx, cy, r, c, fill, shape)
  {
    hide PixelAt, PlotAll, CirclePlots, Covers;
    var f' := PlotAll(f, w, h, CirclePlots(cx, cy, r, c, fill, shape));
    forall x, y | 0 <= x < w && 0 <= y < h
      ensures var dx, dy := x - cx, y - cy;
        var d := dx * dx + dy * dy;
        PixelAt(f', w, h, x, y) ==
          if Covers(shape, dx, dy) && r * r - d < r && d - r * r < r then Rgb(c.r, c.g, c.b)
          else if Covers(shape, dx, dy) && d < r * r && fill.blend == Normal then Rgb(fill.r, fill.g, fill.b)
          else PixelAt(f, w, h, x, y)
    {
      CirclePixel(f, w, h, cx, cy, r, c, fill, shape, x, y);
    }
  }

  lemma {:induction false} CircleHits(cx: nat, cy: nat, r: nat, c: Color, fill: Color, shape: CircleType,
                                      x: nat, y: nat, color: Color)
    requires 1 <= r < 0x8000 && cx <= 0x7fff_ffff && cy <= 0x7fff_ffff && x < 0x7fff_ffff && y < 0x7fff_ffff
    requires color == if OnOutline(r, x - cx, y - cy) || fill.IsTransparent() then c else fill
    requires color.blend == Normal
    ensures var plots := CirclePlots(cx, cy, r, c, fill, shape);
      (exists i :: 0 <= i < |plots| && Hits(plots[i], x, y)) <==>
        Scan(r, shape).Has(x - cx, y - cy)
        && (OnOutline(r, x - cx, y - cy) || (!fill.IsTransparent() && Inside(r, x - cx, y - cy)))
  {
    hide CirclePlots, OnOutline, Inside;
    var plots := CirclePlots(cx, cy, r, c, fill, shape);
    var plot := Plot(Point(x, y), color);
    CircleMember(cx, cy, r, c, fill, shape, x - cx, y - cy, color);
    assert Point(x - cx + cx, y - cy + cy) == Point(x, y);
    SmallUnsigned(x);
    SmallUnsigned(y);
    if plot in plots {
      var i :| 0 <= i < |plots| && plots[i] == plot;
      assert Hits(plots[i], x, y);
    }
    if exists i :: 0 <= i < |plots| && Hits(plots[i], x, y) {
      var i :| 0 <= i < |plots| && Hits(plots[i], x, y);
      CircleHit(cx, cy, r, c, fill, shape, x, y, plots[i]);
    }
  }

  // ---------------------------------------------------------- image of a triangle

  /** For corners ordered by row: within the fill. */
  ghost predicate InFill(p: Point, q: Point, r: Point, z: Point)
    requires p.y <= q.y <= r.y
  {
    if p.y == r.y then z.y == p.y && Min(p.x, Min(q.x, r.x)) <= z.x <= Max(p.x, Max(q.x, r.x))
    else p.y <= z.y <= r.y && Span(p, q, r, z.y).0 <= z.x <= Span(p, q, r, z.y).1
  }

  ghost predicate OnSides(p: Point, q: Point, r: Point, z: Point) {
    p.y < r.y && (z in LinePoints(p, q) || z in LinePoints(q, r) || z in LinePoints(r, p))
  }

  lemma {:induction false} FilledMember(p: Point, q: Point, r: Point, z: Point)
    ensures var (a, b, c) := SortByY(p, q, r); z in FilledPoints(p, q, r) <==> InFill(a, b, c, z)
  {
    hide Rows, Span;
    var (a, b, c) := SortByY(p, q, r);
    if a.y == c.y {
      RowMember(Min(a.x, Min(b.x, c.x)), Max(a.x, Max(b.x, c.x)), a.y, z);
    } else {
      RowsMember(a, b, c, c.y + 1, z);
    }
  }

  lemma {:induction false} FilledPlain(p: Point, q: Point, r: Point)
    requires Compact(p, q, r)
    ensures Plain(FilledPoints(p, q, r))
  {
    hide FilledPoints, Span;
    var (a, b, c) := SortByY(p, q, r);
    forall i | 0 <= i < |FilledPoints(p, q, r)|
      ensures var z := FilledPoints(p, q, r)[i]; 0 <= z.x <= 0xffff_ffff && 0 <= z.y <= 0xffff_ffff
    {
      var z := FilledPoints(p, q, r)[i];
      FilledMember(p, q, r, z);
      if a.y < c.y {
        SpanInRange(a, b, c, z.y);
      }
    }
  }

  lemma {:induction false} PlotsConcat(a: seq<Point>, b: seq<Point>, c: Color)
    ensures Plots(a + b, c) == Plots(a, c) + Plots(b, c)
  {
  }

  /** Plots in a transparent color change no pixel. */
  lemma {:induction false} TransparentImage(f: Frame, w: nat, h: nat, points: seq<Point>, c: Color, x: nat, y: nat)
    requires Fits(f, w, h) && x < w && y < h && c.blend == Transparent
    ensures PixelAt(PlotAll(f, w, h, Plots(points, c)), w, h, x, y) == PixelAt(f, w, h, x, y)
  {
    hide PixelAt, PlotAll;
    ImageOneColor(f, w, h, Plots(points, c), x, y, Grey(0));
  }

  /**
    Main theorem on triangles: the pixels of the three sides show the outline color,
    those of the fill besides the fill color, if there is one, and all others are as
    before; with all corners on one row there is no outline.
  */
  lemma {:induction false} TrianglePixel(f: Frame, w: nat, h: nat, p: Point, q: Point, r: Point, c: Color, fill: Color,
                                         x: nat, y: nat)
    requires Fits(f, w, h) && x < w && y < h && Compact(p, q, r)
    requires c.blend == Normal && fill.blend != Invert
    ensures var (a, b, d) := SortByY(p, q, r);
      PixelAt(PlotAll(f, w, h, TrianglePlots(p, q, r, c, fill)), w, h, x, y) ==
        if OnSides(a, b, d, Point(x, y)) then Rgb(c.r, c.g, c.b)
        else if fill.blend == Normal && InFill(a, b, d, Point(x, y)) then Rgb(fill.r, fill.g, fill.b)
        else PixelAt(f, w, h, x, y)
  {
    hide PixelAt, PlotAll, FilledPoints, LinePoints, InFill, Plots, Plain, SortByY;
    var (a, b, d) := SortByY(p, q, r);
    var filled := Plots(FilledPoints(p, q, r), fill);
    var g := PlotAll(f, w, h, filled);
    FilledMember(p, q, r, Point(x, y));
    if fill.blend == Normal {
      FilledPlain(p, q, r);
      PointsRecolor(f, w, h, FilledPoints(p, q, r), fill);
    } else {
      TransparentImage(f, w, h, FilledPoints(p, q, r), fill, x, y);
    }
    if a.y < d.y {
      SortedPlane(p, q, r);
      SidesImage(g, w, h, a, b, d, c, x, y);
      PlotAllConcat(f, w, h, filled, Plots(LinePoints(a, b) + LinePoints(b, d) + LinePoints(d, a), c));
      PlotsConcat(LinePoints(a, b) + LinePoints(b, d), LinePoints(d, a), c);
      PlotsConcat(LinePoints(a, b), LinePoints(b, d), c);
      assert TrianglePlots(p, q, r, c, fill)
          == filled + (Plots(LinePoints(a, b), c) + Plots(LinePoints(b, d), c) + Plots(LinePoints(d, a), c));
    }
  }

  /** What a triangle with these corners, ordered by row, leaves on the canvas, pixel by pixel. */
  ghost predicate TriangleShows(f: Frame, f': Frame, w: nat, h: nat, p: Point, q: Point, r: Point, c: Color, fill: Color)
    requires Fits(f, w, h) && Fits(f', w, h) && p.y <= q.y <= r.y
  {
    forall x, y :: 0 <= x < w && 0 <= y < h ==>
      PixelAt(f', w, h, x, y) ==
        if OnSides(p, q, r, Point(x, y)) then Rgb(c.r, c.g, c.b)
        else if fill.blend == Normal && InFill(p, q, r, Point(x, y)) then Rgb(fill.r, fill.g, fill.b)
        else PixelAt(f, w, h, x, y)
  }

  lemma {:induction false} TriangleRecolors(f: Frame, w: nat, h: nat, p: Point, q: Point, r: Point, c: Color, fill: Color)
    requires Fits(f, w, h) && Compact(p, q, r)
    requires c.blend == Normal && fill.blend != Invert
    ensures var (a, b, d) := SortByY(p, q, r);
      TriangleShows(f, PlotAll(f, w, h, TrianglePlots(p, q, r, c, fill)), w, h, a, b, d, c, fill)
  {
    hide PixelAt, PlotAll, TrianglePlots, OnSides, InFill, SortByY;
    var (a, b, d) := SortByY(p, q, r);
    var f' := PlotAll(f, w, h, TrianglePlots(p, q, r, c, fill));
    forall x, y | 0 <= x < w && 0 <= y < h
      ensures PixelAt(f', w, h, x, y) ==
        if OnSides(a, b, d, Point(x, y)) then Rgb(c.r, c.g, c.b)
        else if fill.blend == Normal && InFill(a, b, d, Point(x, y)) then Rgb(fill.r, fill.g, fill.b)
        else PixelAt(f, w, h, x, y)
    {
      TrianglePixel(f, w, h, p, q, r, c, fill, x, y);
    }
  }

  lemma {:induction false} SortedPlane(p: Point, q: Point, r: Point)
    requires Compact(p, q, r)
    ensures var (a, b, d) := SortByY(p, q, r); OnPlane(a) && OnPlane(b) && OnPlane(d) && Compact(a, b, d)
  {
  }

  lemma {:induction false} SidesImage(f: Frame, w: nat, h: nat, p: Point, q: Point, r: Point, c: Color, x: nat, y: nat)
    requires Fits(f, w, h) && x < w && y < h && OnPlane(p) && OnPlane(q) && OnPlane(r) && c.blend == Normal
    ensures var points := LinePoints(p, q) + LinePoints(q, r) + LinePoints(r, p);
      PixelAt(PlotAll(f, w, h, Plots(points, c)), w, h, x, y) ==
        if Point(x, y) in LinePoints(p, q) || Point(x, y) in LinePoints(q, r) || Point(x, y) in LinePoints(r, p)
        then Rgb(c.r, c.g, c.b) else PixelAt(f, w, h, x, y)
  {
    hide PixelAt, PlotAll, Plots, LinePoints;
    LinePlain(p, q);
    LinePlain(q, r);
    LinePlain(r, p);
    PointsRecolor(f, w, h, LinePoints(p, q) + LinePoints(q, r) + LinePoints(r, p), c);
  }
}
