/** Colors as the library stores and compares them. */
module Colors {
  datatype BlendMode = Normal | Invert | Transparent

  /** The stored channels; the getters complement them in invert mode. */
  datatype Color = Color(r: bv8, g: bv8, b: bv8, m: bv8, blend: BlendMode) {
    function Red(): bv8 { if blend == Invert then !r else r }
    function Green(): bv8 { if blend == Invert then !g else g }
    function Blue(): bv8 { if blend == Invert then !b else b }
    function Mono(): bv8 { if blend == Invert then !m else m }
    predicate IsTransparent() { blend == Transparent }
    function Inverted(): Color { this.(blend := Invert) }
  }

  function Highest(x: bv8, y: bv8): bv8 { if x < y then y else x }

  function Rgb(r: bv8, g: bv8, b: bv8): Color {
    Color(r, g, b, Highest(r, Highest(g, b)), Normal)
  }

  function Grey(m: bv8): Color {
    Color(m, m, m, m, Normal)
  }

  /** The higher of two channels, of which a color's brightness is made. */
  lemma {:induction false} HigherOfTwo(x: bv8, y: bv8)
    ensures var m := Highest(x, y); m >= x && m >= y && (m == x || m == y)
  {
  }
}

/** The per-chunk dirty flags of CanvasBase, for a canvas of `h` rows. */
module DirtyChunks {
  import opened IntMath

  function ChunkOf(y: nat, h: nat, n: nat): nat
    requires 1 <= n <= h
  {
    ChunkHeightPositive(h, n);
    if y / (h / n) < n - 1 then y / (h / n) else n - 1
  }

  /** `setDirtyChunk`: does nothing below one row per chunk. */
  function SetDirtyChunk(flags: seq<bool>, y: nat, h: nat): seq<bool> {
    if 1 <= |flags| <= h && y < h then flags[ChunkOf(y, h, |flags|) := true] else flags
  }

  predicate Dirty(flags: seq<bool>) {
    true in flags
  }

  predicate DirtyChunk(flags: seq<bool>, chunk: nat) {
    chunk < |flags| && flags[chunk]
  }

  function AllFlags(n: nat, value: bool): seq<bool> {
    seq(n, _ => value)
  }

  lemma {:induction false} ChunkHeightPositive(h: nat, n: nat)
    requires 1 <= n <= h
    ensures h / n >= 1
  {
    if h < 2 * n {
      assert h == n * 1 + (h - n);
    }
  }

  /** Marking a row of a canvas makes it dirty just when there is at most one chunk per row. */
  lemma {:induction false} MarksWhenChunksFit(flags: seq<bool>, y: nat, h: nat)
    requires y < h && !Dirty(flags)
    ensures Dirty(SetDirtyChunk(flags, y, h)) <==> 1 <= |flags| <= h
    ensures 1 <= |flags| <= h ==> DirtyChunk(SetDirtyChunk(flags, y, h), ChunkOf(y, h, |flags|))
  {
    if 1 <= |flags| <= h {
      assert SetDirtyChunk(flags, y, h)[ChunkOf(y, h, |flags|)];
    }
  }

  /** The rows of a chunk: `h / n` of them from the first on, and all that are left for the last chunk. */
  predicate RowInChunk(y: nat, h: nat, n: nat, chunk: nat)
    requires n >= 1
  {
    chunk < n && chunk * (h / n) <= y && (chunk < n - 1 ==> y < chunk * (h / n) + h / n)
  }

  /** Marking a row marks the chunk whose rows it is among, and no other. */
  lemma {:induction false} MarksItsRows(flags: seq<bool>, y: nat, h: nat, chunk: nat)
    requires 1 <= |flags| <= h && y < h && chunk < |flags|
    ensures DirtyChunk(SetDirtyChunk(flags, y, h), chunk) <==>
      DirtyChunk(flags, chunk) || RowInChunk(y, h, |flags|, chunk)
  {
    var n := |flags|;
    ChunkHeightPositive(h, n);
    RowOfChunk(y, h / n, n, chunk);
  }

  lemma {:induction false} RowOfChunk(y: nat, rows: nat, n: nat, chunk: nat)
    requires rows >= 1 && n >= 1 && chunk < n
    ensures chunk == (if y / rows < n - 1 then y / rows else n - 1) <==>
      chunk * rows <= y && (chunk < n - 1 ==> y < chunk * rows + rows)
  {
    var k := y / rows;
    DivMod(y, rows);
    assert k * rows <= y < k * rows + rows;
    if chunk < k {
      Monotone(rows, chunk + 1, k);
      MulSucc(rows, chunk);
    } else if k < chunk {
      Monotone(rows, k + 1, chunk);
      MulSucc(rows, k);
    }
    assert rows * chunk == chunk * rows && rows * k == k * rows;
    if chunk == n - 1 && chunk < k {
      Monotone(rows, chunk, k);
    }
  }

  lemma {:induction false} OnlyMarks(flags: seq<bool>, y: nat, h: nat, chunk: nat)
    ensures |SetDirtyChunk(flags, y, h)| == |flags|
    ensures DirtyChunk(flags, chunk) ==> DirtyChunk(SetDirtyChunk(flags, y, h), chunk)
  {
  }
}

/** Where the drawing algorithms put pixels: pure geometry, with integer arithmetic as in the code. */
module Raster {
  import opened IntMath

  datatype Point = Point(x: int, y: int)

  function Abs(x: int): nat { if x < 0 then -x else x }

  function Sign(x: int): int { if x < 0 then -1 else if x > 0 then 1 else 0 }

  function Max(x: int, y: int): int { if x < y then y else x }

  // ---------------------------------------------------------------------- line

  /** `j * minor / major` rounded to the nearest integer, halves upward. */
  function Rounded(major: nat, minor: nat, j: nat): nat {
    if major == 0 then 0 else (2 * j * minor + major) / (2 * major)
  }

  /** The point of a line after `j` steps along its major axis. */
  function LinePoint(p: Point, q: Point, j: nat): Point {
    var dx, dy := Abs(q.x - p.x), Abs(q.y - p.y);
    if dy > dx then
      Point(p.x + Sign(q.x - p.x) * Rounded(dy, dx, j), p.y + Sign(q.y - p.y) * j)
    else
      Point(p.x + Sign(q.x - p.x) * j, p.y + Sign(q.y - p.y) * Rounded(dx, dy, j))
  }

  function LineSteps(p: Point, q: Point): nat {
    Max(Abs(q.x - p.x), Abs(q.y - p.y))
  }

  function LinePoints(p: Point, q: Point): seq<Point> {
    seq(LineSteps(p, q) + 1, j requires 0 <= j => LinePoint(p, q, j))
  }

  /** `m` is within half a step of the true line after `j` steps. */
  ghost predicate Near(major: nat, minor: nat, j: nat, m: nat) {
    2 * major * m <= 2 * j * minor + major < 2 * major * m + 2 * major
  }

  lemma {:induction false} NearIsRounded(major: nat, minor: nat, j: nat, m: nat)
    requires Near(major, minor, j, m)
    ensures m == Rounded(major, minor, j)
  {
    UniqueQuotient(2 * j * minor + major, 2 * major, m);
  }

  /** One round of the error-term loop, whose `e` is the distance to the next minor step. */
  lemma {:induction false} ErrorStep(major: nat, minor: nat, j: nat, m: nat, e: int)
    requires minor <= major && 1 <= major && Near(major, minor, j, m)
    requires e == 2 * minor * (j + 1) - major - 2 * major * m
    ensures 2 * minor - 2 * major <= e < 2 * minor
    ensures var m' := if e >= 0 then m + 1 else m;
      && Near(major, minor, j + 1, m')
      && e - (if e >= 0 then 2 * major else 0) + 2 * minor == 2 * minor * (j + 2) - major - 2 * major * m'
  {
    assert 2 * minor * (j + 1) == 2 * j * minor + 2 * minor;
    assert 2 * minor * (j + 2) == 2 * j * minor + 4 * minor;
    assert 2 * (j + 1) * minor == 2 * j * minor + 2 * minor;
    assert 2 * major * (m + 1) == 2 * major * m + 2 * major;
  }

  lemma {:induction false} NearStart(major: nat, minor: nat)
    requires 1 <= major
    ensures Near(major, minor, 0, 0) && Rounded(major, minor, 0) == 0
  {
    NearIsRounded(major, minor, 0, 0);
  }

  lemma {:induction false} NearEnd(major: nat, minor: nat)
    requires minor <= major
    ensures Rounded(major, minor, major) == minor
  {
    if major >= 1 {
      assert 2 * major * minor == 2 * minor * major;
      NearIsRounded(major, minor, major, minor);
    }
  }

  lemma {:induction false} RoundedIsNear(major: nat, minor: nat, j: nat)
    requires 1 <= major
    ensures Near(major, minor, j, Rounded(major, minor, j))
  {
    var x, d := 2 * j * minor + major, 2 * major;
    var q := x / d;
    assert d * q <= x < d * q + d;
  }

  /** Main theorem on lines: from one end exactly to the other, one step of the major axis at a time. */
  lemma {:induction false} LineEnds(p: Point, q: Point)
    ensures LinePoint(p, q, 0) == p && LinePoint(p, q, LineSteps(p, q)) == q
  {
    var dx, dy := Abs(q.x - p.x), Abs(q.y - p.y);
    var major, minor := Max(dx, dy), Min(dx, dy);
    if major > 0 {
      NearStart(major, minor);
    }
    NearEnd(major, minor);
    SignAbs(q.x - p.x);
    SignAbs(q.y - p.y);
    TimesZero(Sign(q.x - p.x));
    TimesZero(Sign(q.y - p.y));
  }

  lemma {:induction false} SignAbs(x: int)
    ensures Sign(x) * Abs(x) == x
  {
  }

  lemma {:induction false} TimesZero(s: int)
    ensures s * 0 == 0
  {
  }

  lemma {:induction false} RoundedStep(major: nat, minor: nat, j: nat)
    requires minor <= major && 1 <= major
    ensures var e := Error(major, minor, j);
      && 2 * minor - 2 * major <= e < 2 * minor
      && Rounded(major, minor, j + 1) == Rounded(major, minor, j) + (if e >= 0 then 1 else 0)
      && Error(major, minor, j + 1) == e - (if e >= 0 then 2 * major else 0) + 2 * minor
  {
    var m, e := Rounded(major, minor, j), Error(major, minor, j);
    RoundedIsNear(major, minor, j);
    ErrorStep(major, minor, j, m, e);
    NearIsRounded(major, minor, j + 1, if e >= 0 then m + 1 else m);
  }

  /** The error term of the loop after `j` steps. */
  function Error(major: nat, minor: nat, j: nat): int {
    2 * minor * (j + 1) - major - 2 * major * Rounded(major, minor, j)
  }

  lemma {:induction false} RoundedBounded(major: nat, minor: nat, j: nat)
    requires j <= major
    ensures 0 <= Rounded(major, minor, j) <= minor
  {
    if major > 0 {
      var m := Rounded(major, minor, j);
      RoundedIsNear(major, minor, j);
      Monotone(2 * minor, j, major);
      assert 2 * minor * major == 2 * major * minor && 2 * j * minor == 2 * minor * j;
      if m > minor {
        Monotone(2 * major, minor + 1, m);
      }
    }
  }

  /** The major axis moves by exactly one each step, the minor axis by one or not at all. */
  lemma {:induction false} LineStep(p: Point, q: Point, j: nat)
    requires j < LineSteps(p, q)
    ensures var a, b := LinePoint(p, q, j), LinePoint(p, q, j + 1);
      var dx, dy, s1, s2 := Abs(q.x - p.x), Abs(q.y - p.y), Sign(q.x - p.x), Sign(q.y - p.y);
      var e := Error(Max(dx, dy), Min(dx, dy), j);
      if dy > dx then b == Point(a.x + (if e >= 0 then s1 else 0), a.y + s2)
      else b == Point(a.x + s1, a.y + (if e >= 0 then s2 else 0))
  {
    var dx, dy := Abs(q.x - p.x), Abs(q.y - p.y);
    RoundedStep(Max(dx, dy), Min(dx, dy), j);
    SignStep(Sign(q.x - p.x), j);
    SignStep(Sign(q.y - p.y), j);
    SignStep(Sign(q.x - p.x), Rounded(Max(dx, dy), Min(dx, dy), j));
    SignStep(Sign(q.y - p.y), Rounded(Max(dx, dy), Min(dx, dy), j));
  }

  lemma {:induction false} SignStep(s: int, j: int)
    ensures s * (j + 1) == s * j + s
  {
  }

  lemma {:induction false} SignInjective(s: int, i: int, j: int)
    requires s != 0 && s * i == s * j
    ensures i == j
  {
  }

  /** No point is visited twice. */
  lemma {:induction false} LineDistinct(p: Point, q: Point, i: nat, j: nat)
    requires i < j <= LineSteps(p, q)
    ensures LinePoint(p, q, i) != LinePoint(p, q, j)
  {
    if LinePoint(p, q, i) == LinePoint(p, q, j) {
      var dx, dy := Abs(q.x - p.x), Abs(q.y - p.y);
      SignInjective(if dy > dx then Sign(q.y - p.y) else Sign(q.x - p.x), i, j);
    }
  }

  /** Each visited minor coordinate is the integer nearest to the true line, never more than half a step off. */
  lemma {:induction false} LineNearest(major: nat, minor: nat, j: nat)
    requires 1 <= major
    ensures -1 * major < 2 * (major * Rounded(major, minor, j)) - 2 * (j * minor) <= major
  {
    RoundedIsNear(major, minor, j);
    var m := Rounded(major, minor, j);
    assert 2 * major * m == 2 * (major * m);
    assert 2 * j * minor == 2 * (j * minor);
  }

  lemma {:induction false} SignRange(d: int, j: int)
    requires 0 <= j <= Abs(d)
    ensures Min(0, d) <= Sign(d) * j <= Max(0, d)
  {
    assert 1 * j == j && -1 * j == -j && 0 * j == 0;
  }

  lemma {:induction false} LineInBox(p: Point, q: Point, j: nat)
    requires j <= LineSteps(p, q)
    ensures var r := LinePoint(p, q, j);
      Min(p.x, q.x) <= r.x <= Max(p.x, q.x) && Min(p.y, q.y) <= r.y <= Max(p.y, q.y)
  {
    var dx, dy := Abs(q.x - p.x), Abs(q.y - p.y);
    RoundedBounded(Max(dx, dy), Min(dx, dy), j);
    if dy > dx {
      SignRange(q.x - p.x, Rounded(dy, dx, j));
      SignRange(q.y - p.y, j);
    } else {
      SignRange(q.x - p.x, j);
      SignRange(q.y - p.y, Rounded(dx, dy, j));
    }
  }

  // ----------------------------------------------------------------- triangle

  /** The three corners ordered by row, as the three compare-and-swaps leave them. */
  function SortByY(p: Point, q: Point, r: Point): (s: (Point, Point, Point))
    ensures s.0.y <= s.1.y <= s.2.y
    ensures s in {(p, q, r), (p, r, q), (q, p, r), (q, r, p), (r, p, q), (r, q, p)}
  {
    var (p, q) := if p.y > q.y then (q, p) else (p, q);
    var (q, r) := if q.y > r.y then (r, q) else (q, r);
    var (p, q) := if p.y > q.y then (q, p) else (p, q);
    (p, q, r)
  }

  /** Where the edge from `a` down to `b` crosses row `y`, truncated toward `a`. */
  function EdgeX(a: Point, b: Point, y: int): int
    requires a.y < b.y
  {
    a.x + TruncDiv((b.x - a.x) * (y - a.y), b.y - a.y)
  }

  predicate Corners(p: Point, q: Point, r: Point) {
    p.y <= q.y <= r.y && p.y < r.y
  }

  /** The first and last pixel of row `y` of the triangle. */
  function Span(p: Point, q: Point, r: Point, y: int): (int, int)
    requires Corners(p, q, r) && p.y <= y <= r.y
  {
    var a := if y < q.y || q.y == r.y then EdgeX(p, q, y) else EdgeX(q, r, y);
    var b := EdgeX(p, r, y);
    (Min(a, b), Max(a, b))
  }

  function Row(lo: int, hi: int, y: int): seq<Point> {
    if hi < lo then [] else seq(hi - lo + 1, k requires 0 <= k => Point(lo + k, y))
  }

  /** The rows above row `y`, top to bottom. */
  function Rows(p: Point, q: Point, r: Point, y: int): seq<Point>
    requires Corners(p, q, r) && y <= r.y + 1
    decreases y - p.y
  {
    if y <= p.y then []
    else Rows(p, q, r, y - 1) + Row(Span(p, q, r, y - 1).0, Span(p, q, r, y - 1).1, y - 1)
  }

  function FilledPoints(p: Point, q: Point, r: Point): seq<Point> {
    var (p, q, r) := SortByY(p, q, r);
    if p.y == r.y then Row(Min(p.x, Min(q.x, r.x)), Max(p.x, Max(q.x, r.x)), p.y)
    else Rows(p, q, r, r.y + 1)
  }

  lemma {:induction false} TruncBounds(d: int, k: nat, n: nat)
    requires 0 < n && k <= n
    ensures Min(0, d) <= TruncDiv(d * k, n) <= Max(0, d)
    ensures k == 0 ==> TruncDiv(d * k, n) == 0
    ensures k == n ==> TruncDiv(d * k, n) == d
  {
    if d >= 0 {
      QuotientBounds(d, k, n);
    } else {
      QuotientBounds(-d, k, n);
      assert -d * k == -(d * k);
    }
  }

  lemma {:induction false} QuotientBounds(d: nat, k: nat, n: nat)
    requires 0 < n && k <= n
    ensures 0 <= d * k && 0 <= (d * k) / n <= d
    ensures k == 0 ==> (d * k) / n == 0
    ensures k == n ==> (d * k) / n == d
  {
    Monotone(d, 0, k);
    Monotone(d, k, n);
    var q := (d * k) / n;
    DivMod(d * k, n);
    if q > d {
      Monotone(n, d + 1, q);
    }
    if k == n {
      UniqueQuotient(d * k, n, d);
    }
  }

  /** The crossing stays between the ends of the edge, and is exact at both. */
  lemma {:induction false} EdgeInRange(a: Point, b: Point, y: int)
    requires a.y < b.y && a.y <= y <= b.y
    ensures Min(a.x, b.x) <= EdgeX(a, b, y) <= Max(a.x, b.x)
    ensures EdgeX(a, b, a.y) == a.x && EdgeX(a, b, b.y) == b.x
  {
    var d, n := b.x - a.x, b.y - a.y;
    TruncBounds(d, y - a.y, n);
    TruncBounds(d, 0, n);
    TruncBounds(d, n, n);
  }

  /** The crossing is off the true edge by less than one pixel, toward `a`. */
  lemma {:induction false} EdgeAccurate(a: Point, b: Point, y: int)
    requires a.y < b.y && a.y <= y <= b.y
    ensures var n, exact := b.y - a.y, (b.x - a.x) * (y - a.y);
      Abs(exact - n * (EdgeX(a, b, y) - a.x)) < n && Abs(n * (EdgeX(a, b, y) - a.x)) <= Abs(exact)
  {
    TruncAccurate((b.x - a.x) * (y - a.y), b.y - a.y);
  }

  lemma {:induction false} TruncAccurate(x: int, n: nat)
    requires 0 < n
    ensures Abs(x - n * TruncDiv(x, n)) < n && Abs(n * TruncDiv(x, n)) <= Abs(x)
  {
    var q := Abs(x) / n;
    DivMod(Abs(x), n);
    Monotone(n, 0, q);
    assert n * -q == -(n * q);
  }

  /** `x` is where the edge from `a` to `b` crosses row `y`, cut off toward `a`. */
  ghost predicate Crosses(a: Point, b: Point, y: int, x: int) {
    var n, exact := b.y - a.y, (b.x - a.x) * (y - a.y);
    Abs(exact - n * (x - a.x)) < n && Abs(n * (x - a.x)) <= Abs(exact)
  }

  /** A span runs between the long side and, down to the middle corner, the upper short side, then the lower one. */
  lemma {:induction false} SpanMeans(p: Point, q: Point, r: Point, y: int)
    requires Corners(p, q, r) && p.y <= y <= r.y
    ensures exists a, b ::
      (Crosses(p, r, y, b) && (if y < q.y || q.y == r.y then Crosses(p, q, y, a) else Crosses(q, r, y, a))
      && Span(p, q, r, y) == if a < b then (a, b) else (b, a))
  {
    hide EdgeX;
    var b := EdgeX(p, r, y);
    EdgeAccurate(p, r, y);
    if y < q.y || q.y == r.y {
      EdgeAccurate(p, q, y);
      assert Crosses(p, r, y, b) && Crosses(p, q, y, EdgeX(p, q, y));
    } else {
      EdgeAccurate(q, r, y);
      assert Crosses(p, r, y, b) && Crosses(q, r, y, EdgeX(q, r, y));
    }
  }

  lemma {:induction false} SpanInRange(p: Point, q: Point, r: Point, y: int)
    requires Corners(p, q, r) && p.y <= y <= r.y
    ensures var (lo, hi) := Span(p, q, r, y);
      Min(p.x, Min(q.x, r.x)) <= lo <= hi <= Max(p.x, Max(q.x, r.x))
  {
    EdgeInRange(p, r, y);
    if y < q.y || q.y == r.y {
      EdgeInRange(p, q, y);
    } else {
      EdgeInRange(q, r, y);
    }
  }

  /** The fill covers the three corners. */
  lemma {:induction false} SpanTouchesCorners(p: Point, q: Point, r: Point)
    requires Corners(p, q, r)
    ensures var (lo, hi) := Span(p, q, r, p.y); lo <= p.x <= hi
    ensures var (lo, hi) := Span(p, q, r, q.y); lo <= q.x <= hi
    ensures var (lo, hi) := Span(p, q, r, r.y); lo <= r.x <= hi
  {
    EdgeInRange(p, r, p.y);
    if q.y == r.y {
      EdgeInRange(p, q, q.y);
    } else {
      EdgeInRange(q, r, q.y);
    }
  }

  /** Each row from the highest corner to the lowest gets its span and nothing else. */
  lemma {:induction false} RowsMember(p: Point, q: Point, r: Point, y: int, z: Point)
    requires Corners(p, q, r) && y <= r.y + 1
    ensures z in Rows(p, q, r, y) <==>
      p.y <= z.y < y && Span(p, q, r, z.y).0 <= z.x <= Span(p, q, r, z.y).1
    decreases y - p.y
  {
    if y > p.y {
      RowsMember(p, q, r, y - 1, z);
      RowMember(Span(p, q, r, y - 1).0, Span(p, q, r, y - 1).1, y - 1, z);
    }
  }

  lemma {:induction false} RowMember(lo: int, hi: int, y: int, z: Point)
    ensures z in Row(lo, hi, y) <==> z.y == y && lo <= z.x <= hi
  {
    if z.y == y && lo <= z.x <= hi {
      assert Row(lo, hi, y)[z.x - lo] == z;
    }
  }

  /** No pixel of the fill is painted twice. */
  lemma {:induction false} RowsDistinct(p: Point, q: Point, r: Point, y: int, i: nat, j: nat)
    requires Corners(p, q, r) && y <= r.y + 1
    requires i < j < |Rows(p, q, r, y)|
    ensures Rows(p, q, r, y)[i] != Rows(p, q, r, y)[j]
    decreases y - p.y
  {
    var above := Rows(p, q, r, y - 1);
    var row := Row(Span(p, q, r, y - 1).0, Span(p, q, r, y - 1).1, y - 1);
    assert Rows(p, q, r, y) == above + row;
    if j < |above| {
      RowsDistinct(p, q, r, y - 1, i, j);
    } else if i < |above| {
      RowsMember(p, q, r, y - 1, above[i]);
      assert above[i] in above && row[j - |above|].y == y - 1;
    }
  }

  // ------------------------------------------------------------------- circle

  datatype CircleType =
    | Full | SemiLeft | SemiTop | SemiRight | SemiBottom
    | QuarterTopLeft | QuarterTopRight | QuarterBottomRight | QuarterBottomLeft

  /** The offsets a circle type scans: x from x0 to x1, y from y0 to y1. */
  datatype Box = Box(x0: int, x1: int, y0: int, y1: int) {
    predicate Has(x: int, y: int) {
      x0 <= x <= x1 && y0 <= y <= y1
    }
  }

  function Scan(r: nat, shape: CircleType): Box {
    match shape
    case Full => Box(0 - r, r, 0 - r, r)
    case SemiLeft => Box(0 - r, 0, 0 - r, r)
    case SemiRight => Box(0, r, 0 - r, r)
    case SemiTop => Box(0 - r, r, 0 - r, 0)
    case SemiBottom => Box(0 - r, r, 0, r)
    case QuarterTopLeft => Box(0 - r, 0, 0 - r, 0)
    case QuarterTopRight => Box(0, r, 0 - r, 0)
    case QuarterBottomLeft => Box(0 - r, 0, 0, r)
    case QuarterBottomRight => Box(0, r, 0, r)
  }

  predicate OnOutline(r: nat, x: int, y: int) {
    r * r - (x * x + y * y) < r && (x * x + y * y) - r * r < r
  }

  predicate Inside(r: nat, x: int, y: int) {
    x * x + y * y < r * r
  }

  /** Outline and interior together are the disc of squared radius r * r + r. */
  lemma {:induction false} DiscShape(r: nat, x: int, y: int)
    requires r >= 1
    ensures OnOutline(r, x, y) || Inside(r, x, y) <==> x * x + y * y < r * r + r
  {
  }

  /** The scanned square misses nothing of that disc. */
  lemma {:induction false} DiscInBox(r: nat, x: int, y: int)
    requires x * x + y * y < r * r + r
    ensures Scan(r, Full).Has(x, y)
  {
    SquareBound(r, x, y * y);
    SquareBound(r, y, x * x);
  }

  lemma {:induction false} SquareBound(r: nat, x: int, rest: nat)
    requires x * x + rest < r * r + r
    ensures 0 - r <= x <= r
  {
    if x > r {
      Monotone(x, r + 1, x);
      Monotone(r + 1, r + 1, x);
    } else if x < 0 - r {
      assert x * x == -x * -x;
      Monotone(-x, r + 1, -x);
      Monotone(r + 1, r + 1, -x);
    }
  }

  /** The full circle is the union of its four quarters. */
  lemma {:induction false} QuartersMakeFull(r: nat, x: int, y: int)
    ensures Scan(r, Full).Has(x, y) <==>
      || Scan(r, QuarterTopLeft).Has(x, y) || Scan(r, QuarterTopRight).Has(x, y)
      || Scan(r, QuarterBottomLeft).Has(x, y) || Scan(r, QuarterBottomRight).Has(x, y)
  {
  }

  /** The largest y whose square does not exceed s. */
  lemma {:induction false} Root(s: nat, top: nat) returns (y: nat)
    requires s < (top + 1) * (top + 1)
    ensures y <= top && y * y <= s < (y + 1) * (y + 1)
    decreases top
  {
    if top * top <= s {
      y := top;
    } else {
      y := Root(s, top - 1);
    }
  }

  /** The outline reaches every column; by symmetry of the test, every row too. */
  lemma {:induction false} OutlineInColumn(r: nat, x: int) returns (y: int)
    requires r >= 1 && 0 - r <= x <= r
    ensures 0 <= y <= r && OnOutline(r, x, y) && OnOutline(r, y, x)
  {
    ColumnSquare(r, x);
    var s := r * r - x * x;
    var k := Root(s, r);
    if k == r {
      y := r;
      Monotone(x * x, 0, 1);
      assert r * r <= s;
    } else if s - k * k < r {
      y := k;
    } else {
      y := k + 1;
      assert (k + 1) * (k + 1) == k * k + 2 * k + 1;
    }
  }

  lemma {:induction false} ColumnSquare(r: nat, x: int)
    requires 0 - r <= x <= r
    ensures 0 <= x * x <= r * r < (r + 1) * (r + 1)
  {
    var a: nat := if x < 0 then -x else x;
    assert x * x == a * a;
    Monotone(a, a, r);
    Monotone(r, a, r);
    assert (r + 1) * (r + 1) == r * r + 2 * r + 1;
  }
}
