/**
  The canvas itself: three bytes a pixel, one dirty flag a chunk, and the drawing
  methods, each proved to set exactly the pixels that module Raster describes.
*/
module Drawing {
  import opened IntMath
  import opened Colors
  import opened DirtyChunks
  import opened Raster
  import opened Plotting

  // ---------------------------------------------------------------------- canvas

  type int32 = x: int | -0x8000_0000 <= x < 0x8000_0000
  type int16 = x: int | -0x8000 <= x < 0x8000

  class Canvas {
    const width: nat
    const height: nat
    const data: array<bv8>
    var flags: seq<bool>

    ghost predicate Valid()
      reads this, data
    {
      && data.Length == 3 * width * height
      && width <= 0x7fff_ffff && height <= 0x7fff_ffff
    }

    ghost function Image(): (f: Frame)
      requires Valid()
      reads this, data
      ensures Fits(f, width, height)
    {
      Frame(data[..], flags)
    }

    constructor (width: nat, height: nat, chunks: nat)
      requires width <= 0x7fff_ffff && height <= 0x7fff_ffff
      ensures Valid() && fresh(data) && this.width == width && this.height == height
      ensures flags == AllFlags(chunks, true)
    {
      this.width, this.height := width, height;
      data := new bv8[3 * width * height](_ => 0);
      flags := AllFlags(chunks, true);
    }

    /** Transparent outside the canvas. */
    method Pixel(x: nat, y: nat) returns (c: Color)
      requires Valid()
      ensures x < width && y < height ==> c == PixelAt(Image(), width, height, x, y)
      ensures !(x < width && y < height) ==> c == Color(0, 0, 0, 0, Transparent)
    {
      if x >= width || y >= height {
        return Color(0, 0, 0, 0, Transparent);
      }
      IndexInRange(width, height, x, y);
      var i := ByteIndex(width, x, y);
      return Rgb(data[i], data[i + 1], data[i + 2]);
    }

    method Set(x: nat, y: nat, c: Color)
      requires Valid()
      modifies this`flags, data
      ensures Valid() && Image() == SetPixel(old(Image()), width, height, x, y, c)
    {
      if x >= width || y >= height || c.IsTransparent() {
        return;
      }
      IndexInRange(width, height, x, y);
      var i := ByteIndex(width, x, y);
      var was := Rgb(data[i], data[i + 1], data[i + 2]);
      var now := c;
      if c.blend == Invert {
        now := was.Inverted();
      }
      StoreBytes(data, i, now);
      if was != now {
        flags := SetDirtyChunk(flags, y, height);
      }
    }

    /** `Set` at the next point of a drawing that has put `done` on the canvas so far. */
    method Draw(x: int, y: int, c: Color, ghost start: Frame, ghost done: seq<Plot>)
      requires Valid() && Fits(start, width, height) && Image() == PlotAll(start, width, height, done)
      modifies this`flags, data
      ensures Valid() && Image() == PlotAll(start, width, height, done + [Plot(Point(x, y), c)])
    {
      PlotMore(start, width, height, done, Plot(Point(x, y), c));
      Set(Unsigned(x), Unsigned(y), c);
    }

    method Line(x0: nat, y0: nat, x1: nat, y1: nat, c: Color)
      requires Valid()
      // as the 32-bit coordinates and the 32-bit error term of the code need
      requires OnPlane(Point(x0, y0)) && OnPlane(Point(x1, y1)) && Apart(Point(x0, y0), Point(x1, y1), 0x4000_0000)
      modifies this`flags, data
      ensures Valid()
      ensures Image() == PlotAll(old(Image()), width, height, Plots(LinePoints(Point(x0, y0), Point(x1, y1)), c))
      ensures c.blend == Normal ==>
        Recolored(old(Image()), Image(), width, height, LinePoints(Point(x0, y0), Point(x1, y1)), c)
    {
      hide PlotAll, LinePoints, Plots, Traces, Recolored;
      LineRecolors(Image(), width, height, Point(x0, y0), Point(x1, y1), c);
      var dx: int32, s1: int32 := Abs(x1 - x0), Sign(x1 - x0);
      var dy: int32, s2: int32 := Abs(y1 - y0), Sign(y1 - y0);
      ghost var points, errors := LineTrace(Point(x0, y0), Point(x1, y1));
      if dy > dx {
        LineLoop(x0, y0, dy, dx, s1, s2, true, c, points, errors);
      } else {
        LineLoop(x0, y0, dx, dy, s1, s2, false, c, points, errors);
      }
    }

    /** The loop of `Line`, once the longer of the two distances is called `dx`. */
    method LineLoop(x0: int32, y0: int32, dx: int32, dy: int32, s1: int32, s2: int32, swapped: bool, c: Color,
                    ghost points: seq<Point>, ghost errors: seq<int>)
      requires Valid() && 0 <= dy <= dx < 0x4000_0000
      requires Traces(points, errors, dx, dy, s1, s2, swapped)
      requires points[0] == Point(x0, y0) && errors[0] == 2 * dy - dx
      modifies this`flags, data
      ensures Valid() && Image() == PlotAll(old(Image()), width, height, Plots(points, c))
    {
      hide PlotAll;
      ghost var plots := Plots(points, c);
      ghost var f := Image();
      var x: int32, y: int32 := x0, y0;
      var e: int32 := 2 * dy - dx;
      var j := 0;
      NoPlots(f, width, height);
      assert plots[..0] == [];
      while j <= dx
        invariant Valid() && 0 <= j <= dx + 1
        invariant Image() == PlotAll(f, width, height, plots[..j])
        invariant j <= dx ==> Point(x, y) == points[j] && e == errors[j]
      {
        assert plots[..j + 1] == plots[..j] + [Plot(Point(x, y), c)];
        Draw(x, y, c, f, plots[..j]);
        if e >= 0 {
          if swapped {
            x := x + s1;
          } else {
            y := y + s2;
          }
          e := e - 2 * dx;
        }
        if swapped {
          y := y + s2;
        } else {
          x := x + s1;
        }
        e := e + 2 * dy;
        j := j + 1;
      }
      assert plots[..j] == plots;
    }

    /** Draws nothing when the end of the line wraps around. */
    method LineHorizontal(x: nat, y: nat, l: nat, c: Color)
      requires Valid() && x <= 0xffff_ffff && y <= 0xffff_ffff && l <= 0xffff_ffff
      modifies this`flags, data
      ensures Valid() && Image() == PlotAll(old(Image()), width, height, Plots(Row(x, Unsigned(x + l) - 1, y), c))
      ensures c.blend == Normal ==> RowShows(old(Image()), Image(), width, height, x, y, l, c)
    {
      hide RowShows, PlotAll, Unsigned;
      RowRecolors(Image(), width, height, x, y, l, c);
      NoPlots(Image(), width, height);
      var end := Unsigned(x + l);
      ghost var plots := Plots(Row(x, end - 1, y), c);
      ghost var f := Image();
      var i := x;
      while i < end
        invariant Valid() && x <= i && (i <= end || i == x)
        invariant Image() == PlotAll(f, width, height, plots[..i - x])
      {
        assert plots[..i - x + 1] == plots[..i - x] + [Plot(Point(i, y), c)];
        Draw(i, y, c, f, plots[..i - x]);
        i := i + 1;
      }
      assert plots[..i - x] == plots;
    }

    method CircleFilled(cx: nat, cy: nat, r: nat, c: Color, fill: Color, shape: CircleType)
      requires Valid() && r < 0x8000 && cx <= 0xffff_ffff && cy <= 0xffff_ffff
      modifies this`flags, data
      ensures Valid()
      ensures Image() == PlotAll(old(Image()), width, height, CirclePlots(cx, cy, r, c, fill, shape))
      ensures r == 0 ==> Image() == old(Image())
      ensures 1 <= r && c.blend == Normal && fill.blend != Invert && cx <= 0x7fff_ffff && cy <= 0x7fff_ffff ==>
        CircleShows(old(Image()), Image(), width, height, cx, cy, r, c, fill, shape)
    {
      hide PlotAll, CircleColumn, CircleShows;
      if 1 <= r && c.blend == Normal && fill.blend != Invert && cx <= 0x7fff_ffff && cy <= 0x7fff_ffff {
        CircleRecolors(Image(), width, height, cx, cy, r, c, fill, shape);
      }
      if r == 0 {
        NoPlots(Image(), width, height);
        return;
      }
      ghost var f := Image();
      var box := Scan(r, shape);
      var x := box.x0;
      NoPlots(f, width, height);
      while x <= box.x1
        invariant Valid() && box.x0 <= x <= box.x1 + 1
        invariant Image() == PlotAll(f, width, height, CircleColumns(cx, cy, r, c, fill, box, x))
      {
        ghost var done := CircleColumns(cx, cy, r, c, fill, box, x);
        PlotAllConcat(f, width, height, done, CircleColumn(cx, cy, r, c, fill, x, box.y0, box.y1 + 1));
        FillColumn(cx, cy, r, c, fill, x, box.y0, box.y1);
        x := x + 1;
      }
    }

    /** The inner loop of `CircleFilled`. */
    method FillColumn(cx: nat, cy: nat, r: nat, c: Color, fill: Color, x: int, y0: int, y1: int)
      requires Valid() && r < 0x8000 && cx <= 0xffff_ffff && cy <= 0xffff_ffff
      requires -0x8000 < x < 0x8000 && -0x8000 < y0 <= y1 < 0x8000
      modifies this`flags, data
      ensures Valid()
      ensures Image() == PlotAll(old(Image()), width, height, CircleColumn(cx, cy, r, c, fill, x, y0, y1 + 1))
    {
      hide PlotAll, OnOutline, Inside;
      ghost var f := Image();
      NoPlots(f, width, height);
      var y := y0;
      while y <= y1
        invariant Valid() && y0 <= y <= y1 + 1
        invariant Image() == PlotAll(f, width, height, CircleColumn(cx, cy, r, c, fill, x, y0, y))
      {
        ghost var done := CircleColumn(cx, cy, r, c, fill, x, y0, y);
        var outline, inside := RingTest(r, x, y);
        if outline {
          Draw(x + cx, y + cy, c, f, done);
        } else if !fill.IsTransparent() && inside {
          Draw(x + cx, y + cy, fill, f, done);
        } else {
          assert done + CirclePlot(cx, cy, r, c, fill, x, y) == done;
        }
        y := y + 1;
      }
    }

    /** Corners are no farther apart than the 16-bit differences of the code allow. */
    method TriangleFilled(x0: nat, y0: nat, x1: nat, y1: nat, x2: nat, y2: nat, c: Color, fill: Color)
      returns (finished: bool)
      requires Valid()
      requires Compact(Point(x0, y0), Point(x1, y1), Point(x2, y2))
      modifies this`flags, data
      ensures Valid()
      ensures finished <==> !DividesByZero(Point(x0, y0), Point(x1, y1), Point(x2, y2))
      ensures finished ==>
        Image() == PlotAll(old(Image()), width, height,
                           TrianglePlots(Point(x0, y0), Point(x1, y1), Point(x2, y2), c, fill))
      ensures !finished ==> Image() == old(Image())
      ensures finished && c.blend == Normal && fill.blend != Invert ==>
        var (p, q, r) := SortByY(Point(x0, y0), Point(x1, y1), Point(x2, y2));
        TriangleShows(old(Image()), Image(), width, height, p, q, r, c, fill)
    {
      hide PlotAll, TrianglePlots, TriangleShows;
      if c.blend == Normal && fill.blend != Invert {
        TriangleRecolors(Image(), width, height, Point(x0, y0), Point(x1, y1), Point(x2, y2), c, fill);
      }
      finished := SortAndFill(x0, y0, x1, y1, x2, y2, c, fill);
    }

    /** The body of `TriangleFilled`. */
    method SortAndFill(x0: nat, y0: nat, x1: nat, y1: nat, x2: nat, y2: nat, c: Color, fill: Color)
      returns (finished: bool)
      requires Valid()
      requires Compact(Point(x0, y0), Point(x1, y1), Point(x2, y2))
      modifies this`flags, data
      ensures Valid()
      ensures finished <==> !DividesByZero(Point(x0, y0), Point(x1, y1), Point(x2, y2))
      ensures finished ==>
        Image() == PlotAll(old(Image()), width, height,
                           TrianglePlots(Point(x0, y0), Point(x1, y1), Point(x2, y2), c, fill))
      ensures !finished ==> Image() == old(Image())
    {
      hide PlotAll, Rows, LinePoints, Plots;
      ghost var f := Image();
      var p, q, r := Point(x0, y0), Point(x1, y1), Point(x2, y2);
      if p.y > q.y {
        p, q := q, p;
      }
      if q.y > r.y {
        q, r := r, q;
      }
      if p.y > q.y {
        p, q := q, p;
      }
      assert (p, q, r) == SortByY(Point(x0, y0), Point(x1, y1), Point(x2, y2));
      if p.y == r.y {
        var a, b := p.x, p.x;
        if q.x < a {
          a := q.x;
        } else if q.x > b {
          b := q.x;
        }
        if r.x < a {
          a := r.x;
        } else if r.x > b {
          b := r.x;
        }
        SmallUnsigned(b + 1);
        LineHorizontal(a, p.y, b - a + 1, fill);
        return true;
      }
      finished := FillRows(p, q, r, fill);
      if !finished {
        return;
      }
      ghost var filled := Plots(Rows(p, q, r, r.y + 1), fill);
      ghost var side1, side2 := Plots(LinePoints(p, q), c), Plots(LinePoints(q, r), c);
      Line(p.x, p.y, q.x, q.y, c);
      PlotAllConcat(f, width, height, filled, side1);
      Line(q.x, q.y, r.x, r.y, c);
      PlotAllConcat(f, width, height, filled + side1, side2);
      Line(r.x, r.y, p.x, p.y, c);
      PlotAllConcat(f, width, height, filled + side1 + side2, Plots(LinePoints(r, p), c));
    }

    /** The two scanline loops of `TriangleFilled`. */
    method FillRows(p: Point, q: Point, r: Point, fill: Color) returns (finished: bool)
      requires Valid() && Corners(p, q, r) && Compact(p, q, r)
      modifies this`flags, data
      ensures Valid()
      ensures finished <==> !(q.y == 0 && r.y > 0)
      ensures finished ==> Image() == PlotAll(old(Image()), width, height, Plots(Rows(p, q, r, r.y + 1), fill))
      ensures !finished ==> Image() == old(Image())
    {
      hide EdgeX, Rows, PlotAll, Unsigned;
      ghost var f := Image();
      var dx01: int16, dy01: int16 := q.x - p.x, q.y - p.y;
      var dx02: int16, dy02: int16 := r.x - p.x, r.y - p.y;
      var sa: int32, sb: int32 := 0, 0;
      var last := if q.y == r.y then q.y else Unsigned(q.y - 1); // wraps when the middle corner is on row 0
      LastRow(q.y);
      var y := p.y;
      NoRows(p, q, r, fill, f, width, height);
      while y <= last
        invariant Valid() && p.y <= y
        invariant q.y == 0 && r.y > 0 ==> y == p.y
        invariant !(q.y == 0 && r.y > 0) ==> y <= r.y + 1 && (y <= last + 1 || y == q.y)
        invariant sa == Times(dx01, y - p.y) && sb == Times(dx02, y - p.y)
        invariant Image() == PlotAll(f, width, height, Plots(Rows(p, q, r, y), fill))
        decreases last - y
      {
        if dy01 == 0 {
          return false; // the division by dy01 traps
        }
        var a := Crossing(p, q, y, sa);
        var b := Crossing(p, r, y, sb);
        TimesGrows(dx01, y - p.y);
        TimesGrows(dx02, y - p.y);
        sa := sa + dx01;
        sb := sb + dx02;
        FillRow(p, q, r, y, a, b, fill, f);
        y := y + 1;
      }
      FillLowerRows(p, q, r, y, fill, f);
      return true;
    }

    /** The second loop: rows from `y` on, between the edges that end in the lowest corner. */
    method FillLowerRows(p: Point, q: Point, r: Point, y0: int, fill: Color, ghost f: Frame)
      requires Valid() && Fits(f, width, height)
      requires Corners(p, q, r) && Compact(p, q, r)
      requires q.y <= y0 <= r.y + 1 && (q.y == r.y ==> y0 == r.y + 1)
      requires Image() == PlotAll(f, width, height, Plots(Rows(p, q, r, y0), fill))
      modifies this`flags, data
      ensures Valid() && Image() == PlotAll(f, width, height, Plots(Rows(p, q, r, r.y + 1), fill))
    {
      hide EdgeX, Rows, PlotAll;
      var dx12: int16, dx02: int16 := r.x - q.x, r.x - p.x;
      var y := y0;
      TimesGrows(dx12, y - q.y);
      TimesGrows(dx02, y - p.y);
      var sa: int32, sb: int32 := Product(dx12, y - q.y), Product(dx02, y - p.y);
      while y <= r.y
        invariant Valid() && y0 <= y <= r.y + 1
        invariant sa == Times(dx12, y - q.y) && sb == Times(dx02, y - p.y)
        invariant Image() == PlotAll(f, width, height, Plots(Rows(p, q, r, y), fill))
      {
        var a := Crossing(q, r, y, sa);
        var b := Crossing(p, r, y, sb);
        TimesGrows(dx12, y - q.y);
        TimesGrows(dx02, y - p.y);
        sa := sa + dx12;
        sb := sb + dx02;
        FillRow(p, q, r, y, a, b, fill, f);
        y := y + 1;
      }
    }

    method FillRow(p: Point, q: Point, r: Point, y: nat, a: nat, b: nat, fill: Color, ghost f: Frame)
      requires Valid() && Fits(f, width, height) && Corners(p, q, r) && OnPlane(r)
      requires p.y <= y <= r.y && a < 0x7fff_ffff && b < 0x7fff_ffff
      requires Span(p, q, r, y) == (Min(a, b), Max(a, b))
      requires Image() == PlotAll(f, width, height, Plots(Rows(p, q, r, y), fill))
      modifies this`flags, data
      ensures Valid() && Image() == PlotAll(f, width, height, Plots(Rows(p, q, r, y + 1), fill))
    {
      hide Span, PlotAll;
      var lo, hi := a, b;
      if lo > hi {
        lo, hi := hi, lo;
      }
      ghost var above, row := Plots(Rows(p, q, r, y), fill), Plots(Row(lo, hi, y), fill);
      PlotAllConcat(f, width, height, above, row);
      assert Plots(Rows(p, q, r, y + 1), fill) == above + row;
      SmallUnsigned(hi + 1);
      LineHorizontal(lo, y, hi - lo + 1, fill);
    }
  }

  /** A flat top on row 0, with the third corner below: `last` wraps around and the first division is by zero. */
  predicate DividesByZero(p: Point, q: Point, r: Point) {
    var (p, q, r) := SortByY(p, q, r);
    q.y == 0 && r.y > 0
  }

  /** The smallest such triangle. */
  lemma {:induction false} DividesByZeroExample()
    ensures Compact(Point(0, 0), Point(1, 0), Point(0, 1))
    ensures DividesByZero(Point(0, 0), Point(1, 0), Point(0, 1))
  {
  }

  /** In the caller's terms: exactly two of the three corners are on row 0. */
  lemma {:induction false} DividesByZeroMeans(p: Point, q: Point, r: Point)
    requires OnPlane(p) && OnPlane(q) && OnPlane(r)
    ensures DividesByZero(p, q, r) <==>
      || (p.y == 0 && q.y == 0 && r.y > 0)
      || (p.y == 0 && r.y == 0 && q.y > 0)
      || (q.y == 0 && r.y == 0 && p.y > 0)
  {
  }

  lemma {:induction false} LastRow(y: nat)
    requires y < 0x7fff_ffff
    ensures Unsigned(y - 1) == if y == 0 then 0xffff_ffff else y - 1
  {
  }

  /** A product kept by repeated addition. */
  function Times(d: int, k: nat): int {
    if k == 0 then 0 else Times(d, k - 1) + d
  }

  function Product(d: int, k: nat): (s: int)
    ensures s == Times(d, k)
  {
    TimesIsProduct(d, k);
    d * k
  }

  lemma {:induction false} TimesIsProduct(d: int, k: nat)
    ensures Times(d, k) == d * k
  {
    if k > 0 {
      TimesIsProduct(d, k - 1);
      MulSucc(d, k - 1);
    }
  }

  lemma {:induction false} TimesGrows(d: int, k: nat)
    requires -0x8000 < d < 0x8000 && k <= 0x8000
    ensures Times(d, k) + d == Times(d, k + 1) && -0x4000_0000 <= Times(d, k) <= 0x4000_0000
  {
    TimesIsProduct(d, k);
    Monotone(0x8000, k, 0x8000);
    Monotone(k, -0x8000, d);
    Monotone(k, d, 0x8000);
  }

  /** One edge of a scanline, from the product the loop keeps for it. */
  method Crossing(a: Point, b: Point, y: int, s: int32) returns (x: nat)
    requires OnPlane(a) && OnPlane(b) && a.y < b.y && a.y <= y <= b.y
    requires s == Times(b.x - a.x, y - a.y)
    ensures x == EdgeX(a, b, y) && x < 0x7fff_ffff
  {
    TimesIsProduct(b.x - a.x, y - a.y);
    EdgeInRange(a, b, y);
    x := a.x + TruncDiv(s, b.y - a.y);
  }

  lemma {:induction false} NoRows(p: Point, q: Point, r: Point, fill: Color, f: Frame, w: nat, h: nat)
    requires Corners(p, q, r) && Fits(f, w, h)
    ensures PlotAll(f, w, h, Plots(Rows(p, q, r, p.y), fill)) == f
  {
  }

  /** The two tests of the circle loop, in 32-bit arithmetic. */
  method RingTest(r: nat, x: int, y: int) returns (outline: bool, inside: bool)
    requires r < 0x8000 && -0x8000 < x < 0x8000 && -0x8000 < y < 0x8000
    ensures outline == OnOutline(r, x, y) && inside == Inside(r, x, y)
  {
    SmallSquare(x);
    SmallSquare(y);
    SmallSquare(r);
    var xysq: int32 := x * x + y * y;
    var rsq: int32 := r * r;
    outline := rsq - xysq < r && xysq - rsq < r;
    inside := xysq < rsq;
  }

  lemma {:induction false} SmallSquare(x: int)
    requires -0x8000 < x < 0x8000
    ensures 0 <= x * x <= 0x3fff_0001
  {
    var a: nat := if x < 0 then -x else x;
    assert x * x == a * a;
    Monotone(a, a, 0x7fff);
    Monotone(0x7fff, a, 0x7fff);
  }

  method StoreBytes(data: array<bv8>, i: nat, c: Color)
    requires i + 3 <= data.Length
    modifies data
    ensures data[..] == Store(old(data[..]), i, c)
  {
    data[i] := c.Red();
    data[i + 1] := c.Green();
    data[i + 2] := c.Blue();
  }

  lemma {:induction false} LineStarts(p: Point, q: Point)
    ensures var dx, dy := Abs(q.x - p.x), Abs(q.y - p.y);
      LinePoint(p, q, 0) == p && Error(Max(dx, dy), Min(dx, dy), 0) == 2 * Min(dx, dy) - Max(dx, dy)
  {
    LineEnds(p, q);
    var dx, dy := Abs(q.x - p.x), Abs(q.y - p.y);
    if Max(dx, dy) > 0 {
      NearStart(Max(dx, dy), Min(dx, dy));
    }
  }

  /** The points and error terms a line goes through, all far from overflowing. */
  ghost predicate Traces(points: seq<Point>, errors: seq<int>, dx: int, dy: int, s1: int, s2: int, swapped: bool) {
    && |points| == |errors| == dx + 1 && -1 <= s1 <= 1 && -1 <= s2 <= 1
    && (forall j :: 0 <= j <= dx ==>
          OnPlane(points[j]) && 2 * dy - 2 * dx <= errors[j] <= 2 * dy)
    && (forall j :: 0 <= j < dx ==>
          && points[j + 1] == StepFrom(points[j], errors[j], s1, s2, swapped)
          && errors[j + 1] == errors[j] - (if errors[j] >= 0 then 2 * dx else 0) + 2 * dy)
  }

  function StepFrom(a: Point, e: int, s1: int, s2: int, swapped: bool): Point {
    if swapped then Point(a.x + (if e >= 0 then s1 else 0), a.y + s2)
    else Point(a.x + s1, a.y + (if e >= 0 then s2 else 0))
  }

  lemma {:induction false} LineTrace(p: Point, q: Point) returns (points: seq<Point>, errors: seq<int>)
    requires OnPlane(p) && OnPlane(q)
    ensures points == LinePoints(p, q) && errors != [] && points != [] && points[0] == p
    ensures var dx, dy := Abs(q.x - p.x), Abs(q.y - p.y);
      && errors[0] == 2 * Min(dx, dy) - Max(dx, dy)
      && Traces(points, errors, Max(dx, dy), Min(dx, dy), Sign(q.x - p.x), Sign(q.y - p.y), dy > dx)
  {
    hide Error, LinePoint, Rounded, Sign;
    var dx, dy := Abs(q.x - p.x), Abs(q.y - p.y);
    var major, minor := Max(dx, dy), Min(dx, dy);
    points := LinePoints(p, q);
    errors := seq(major + 1, j requires 0 <= j => Error(major, minor, j));
    LineStarts(p, q);
    SignSmall(q.x - p.x);
    SignSmall(q.y - p.y);
    forall j | 0 <= j <= major
      ensures OnPlane(points[j])
      ensures 2 * minor - 2 * major <= errors[j] <= 2 * minor
    {
      LineInBox(p, q, j);
      ErrorRange(major, minor, j);
    }
    forall j | 0 <= j < major
      ensures points[j + 1] == StepFrom(points[j], errors[j], Sign(q.x - p.x), Sign(q.y - p.y), dy > dx)
      ensures errors[j + 1] == errors[j] - (if errors[j] >= 0 then 2 * major else 0) + 2 * minor
    {
      LineStep(p, q, j);
      RoundedStep(major, minor, j);
    }
  }

  lemma SignSmall(d: int)
    ensures -1 <= Sign(d) <= 1
  {
  }

  lemma {:induction false} ErrorRange(major: nat, minor: nat, j: nat)
    requires minor <= major
    ensures 2 * minor - 2 * major <= Error(major, minor, j) <= 2 * minor
  {
    if major > 0 {
      RoundedStep(major, minor, j);
    }
  }
}
