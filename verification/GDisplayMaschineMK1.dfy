/**
  The MK1 display: 255 x 64 pixels of 5 bits, inverted, three to two bytes, in
  22 chunks.  The floating-point scaling of the code never lands on a tie, so
  exact integer quotients stand for it.
*/
module GDisplayMaschineMK1 {
  import opened Colors
  import opened DirtyChunks

  const WIDTH: nat := 255
  const HEIGHT: nat := 64
  const SIZE: nat := 10880
  const CHUNKS: nat := 22
  const WIDTH_IN_BYTES: nat := 170

  /** The 5-bit level for an 8-bit brightness: mono / 255.0 * 31 + 0.5, truncated. */
  function Level(mono: bv8): bv8 {
    (((mono as bv16) * 62 + 255) / 510) as bv8
  }

  /** The brightness read from 5 stored bits: the complement of raw / 31.0 * 255, truncated. */
  function Shade(raw: bv8): bv8
    requires raw <= 31
  {
    !(((raw as bv16) * 255 / 31) as bv8)
  }

  // ------------------------------------------------- three pixels in two bytes

  /** Pixel `k` of the two bytes that hold three. */
  function Get(k: nat, b0: bv8, b1: bv8): (raw: bv8)
    requires k < 3
    ensures raw <= 31
  {
    if k == 0 then (b0 & 0xF8) >> 3
    else if k == 1 then ((b0 & 0x07) << 2) | ((b1 & 0xC0) >> 6)
    else b1 & 0x1F
  }

  /** The first byte after storing `level` in pixel `k`. */
  function Put0(k: nat, b0: bv8, level: bv8): bv8
    requires k < 3
  {
    if k == 0 then (b0 | 0xF8) & !(level << 3)
    else if k == 1 then (b0 | 0x07) & !(level >> 2)
    else b0
  }

  function Put1(k: nat, b1: bv8, level: bv8): bv8
    requires k < 3
  {
    if k == 0 then b1
    else if k == 1 then (b1 | 0xC0) & !(level << 6)
    else (b1 | 0x1F) & !level
  }

  lemma {:induction false} PutGet(k: nat, j: nat, b0: bv8, b1: bv8, level: bv8)
    requires k < 3 && j < 3 && level <= 31
    ensures Get(j, Put0(k, b0, level), Put1(k, b1, level)) == if j == k then 31 - level else Get(j, b0, b1)
  {
    if j == k {
      PutGetSame(k, b0, b1, level);
    } else {
      PutGetOther(k, j, b0, b1, level);
    }
  }

  lemma {:induction false} PutGetSame(k: nat, b0: bv8, b1: bv8, level: bv8)
    requires k < 3 && level <= 31
    ensures Get(k, Put0(k, b0, level), Put1(k, b1, level)) == 31 - level
  {
    if k == 0 {
      assert (((b0 | 0xF8) & !(level << 3)) & 0xF8) >> 3 == 31 - level;
    } else if k == 1 {
      assert ((((b0 | 0x07) & !(level >> 2)) & 0x07) << 2) | ((((b1 | 0xC0) & !(level << 6)) & 0xC0) >> 6) == 31 - level;
    } else {
      assert ((b1 | 0x1F) & !level) & 0x1F == 31 - level;
    }
  }

  lemma {:induction false} PutGetOther(k: nat, j: nat, b0: bv8, b1: bv8, level: bv8)
    requires k < 3 && j < 3 && k != j && level <= 31
    ensures Get(j, Put0(k, b0, level), Put1(k, b1, level)) == Get(j, b0, b1)
  {
    hide Get, Put0, Put1;
    if k == 0 {
      PutFirst(j, b0, b1, level);
    } else if k == 1 {
      PutMiddle(j, b0, b1, level);
    } else {
      PutLast(j, b0, b1, level);
    }
  }

  lemma {:induction false} PutFirst(j: nat, b0: bv8, b1: bv8, level: bv8)
    requires 1 <= j < 3 && level <= 31
    ensures Get(j, Put0(0, b0, level), Put1(0, b1, level)) == Get(j, b0, b1)
  {
    assert ((b0 | 0xF8) & !(level << 3)) & 0x07 == b0 & 0x07;
  }

  lemma {:induction false} PutMiddle(j: nat, b0: bv8, b1: bv8, level: bv8)
    requires (j == 0 || j == 2) && level <= 31
    ensures Get(j, Put0(1, b0, level), Put1(1, b1, level)) == Get(j, b0, b1)
  {
    assert ((b0 | 0x07) & !(level >> 2)) & 0xF8 == b0 & 0xF8;
    assert ((b1 | 0xC0) & !(level << 6)) & 0x1F == b1 & 0x1F;
  }

  lemma {:induction false} PutLast(j: nat, b0: bv8, b1: bv8, level: bv8)
    requires j < 2 && level <= 31
    ensures Get(j, Put0(2, b0, level), Put1(2, b1, level)) == Get(j, b0, b1)
  {
    assert ((b1 | 0x1F) & !level) & 0xC0 == b1 & 0xC0;
  }

  /** Where the three pixels are in their two bytes, counted in bits from the top: 0-4, 5-9 and 11-15. */
  lemma {:induction false} GetMeans(b0: bv8, b1: bv8)
    ensures Get(0, b0, b1) == b0 / 8
    ensures Get(1, b0, b1) == b0 % 8 * 4 + b1 / 64
    ensures Get(2, b0, b1) == b1 % 32
  {
  }

  /** Storing what is there changes neither byte. */
  lemma {:induction false} PutBack(k: nat, b0: bv8, b1: bv8)
    requires k < 3
    ensures Put0(k, b0, 31 - Get(k, b0, b1)) == b0 && Put1(k, b1, 31 - Get(k, b0, b1)) == b1
  {
  }

  /** Storing twice is storing the second. */
  lemma {:induction false} PutTwice(k: nat, b0: bv8, b1: bv8, first: bv8, second: bv8)
    requires k < 3 && first <= 31 && second <= 31
    ensures Put0(k, Put0(k, b0, first), second) == Put0(k, b0, second)
    ensures Put1(k, Put1(k, b1, first), second) == Put1(k, b1, second)
  {
    hide Put0, Put1;
    PutTwice0(k, b0, first, second);
    PutTwice1(k, b1, first, second);
  }

  lemma {:induction false} PutTwice0(k: nat, b: bv8, first: bv8, second: bv8)
    requires k < 3 && first <= 31
    ensures Put0(k, Put0(k, b, first), second) == Put0(k, b, second)
  {
    if k == 0 {
      assert ((b | 0xF8) & !(first << 3)) | 0xF8 == b | 0xF8;
    } else if k == 1 {
      assert ((b | 0x07) & !(first >> 2)) | 0x07 == b | 0x07;
    }
  }

  lemma {:induction false} PutTwice1(k: nat, b: bv8, first: bv8, second: bv8)
    requires k < 3 && first <= 31
    ensures Put1(k, Put1(k, b, first), second) == Put1(k, b, second)
  {
    if k == 1 {
      assert ((b | 0xC0) & !(first << 6)) | 0xC0 == b | 0xC0;
    } else if k == 2 {
      assert ((b | 0x1F) & !first) | 0x1F == b | 0x1F;
    }
  }

  // ----------------------------------------------------------------- brightness

  lemma {:induction false} LevelRange(mono: bv8)
    ensures Level(mono) <= 31
  {
  }

  /** The level is the brightness scaled from 255 to 31 and rounded to the nearest. */
  lemma {:induction false} LevelMeans(mono: bv8)
    ensures var l, m := Level(mono) as bv16, mono as bv16;
      510 * l <= 62 * m + 255 && 62 * m + 255 < 510 * l + 510
  {
  }

  /** The shade is the complement of the stored bits scaled from 31 to 255 and rounded down. */
  lemma {:induction false} ShadeMeans(raw: bv8)
    requires raw <= 31
    ensures var v, b := (255 - Shade(raw)) as bv16, raw as bv16;
      31 * v <= 255 * b && 255 * b < 31 * v + 31
  {
  }

  /** A stored brightness reads back within 5 of what was asked for. */
  lemma {:induction false} ShadeOfLevel(mono: bv8)
    ensures Level(mono) <= 31
    ensures Close(Shade(31 - Level(mono)), mono)
  {
  }

  predicate Close(x: bv8, y: bv8) {
    if x <= y then y - x <= 5 else x - y <= 5
  }

  /** A brightness that was read is stored as the level it came from. */
  lemma {:induction false} LevelOfShade(raw: bv8)
    requires raw <= 31
    ensures Level(Shade(raw)) == 31 - raw
    ensures Level(!Shade(raw)) == raw
  {
  }

  // --------------------------------------------------------------------- screen

  /** The bytes and dirty flags of one display. */
  datatype Screen = Screen(data: seq<bv8>, flags: seq<bool>)

  function Filled(value: bv8): (s: seq<bv8>)
    ensures |s| == SIZE
  {
    seq(SIZE, _ => value)
  }

  ghost predicate Ok(s: Screen) {
    |s.data| == SIZE && |s.flags| == CHUNKS
  }

  predicate OnScreen(x: nat, y: nat) {
    x < WIDTH && y < HEIGHT
  }

  /** The first of the two bytes that hold pixel (x, y). */
  function ByteIndex(x: nat, y: nat): (i: nat)
    requires OnScreen(x, y)
    ensures i + 1 < SIZE
  {
    WIDTH_IN_BYTES * y + x / 3 * 2
  }

  function Raw(s: Screen, x: nat, y: nat): (raw: bv8)
    requires Ok(s) && OnScreen(x, y)
    ensures raw <= 31
  {
    var i := ByteIndex(x, y);
    Get(x % 3, s.data[i], s.data[i + 1])
  }

  function PixelOf(s: Screen, x: nat, y: nat): Color
    requires Ok(s)
  {
    if !OnScreen(x, y) then Color(0, 0, 0, 0, Transparent) else Grey(Shade(Raw(s, x, y)))
  }

  /** The level that `setPixel` stores over the color `was`. */
  function LevelOver(was: Color, c: Color): bv8 {
    if c.blend == Invert then Level(was.Inverted().Mono()) else Level(c.Mono())
  }

  function PutAt(data: seq<bv8>, x: nat, y: nat, level: bv8): (data': seq<bv8>)
    requires |data| == SIZE && OnScreen(x, y)
    ensures |data'| == SIZE
  {
    var i, k := ByteIndex(x, y), x % 3;
    data[i := Put0(k, data[i], level)][i + 1 := Put1(k, data[i + 1], level)]
  }

  function SetPixel(s: Screen, x: nat, y: nat, c: Color, mark: bool): (s': Screen)
    requires Ok(s)
    ensures Ok(s')
  {
    if !OnScreen(x, y) || c.IsTransparent() then s
    else
      var was := PixelOf(s, x, y);
      Screen(PutAt(s.data, x, y, LevelOver(was, c)),
             if mark && was != c then SetDirtyChunk(s.flags, y, HEIGHT) else s.flags)
  }

  function White(s: Screen): Screen {
    Screen(Filled(0x00), AllFlags(CHUNKS, true))
  }

  function Black(s: Screen): Screen {
    Screen(Filled(0xff), AllFlags(CHUNKS, true))
  }

  // ------------------------------------------------------------ reading and writing

  /** Rows from top to bottom, 170 bytes each; in a row two bytes for every three pixels. */
  lemma {:induction false} PixelBits(s: Screen, x: nat, y: nat)
    requires Ok(s) && OnScreen(x, y)
    ensures var i := 170 * y + x / 3 * 2;
      && i + 1 < |s.data|
      && PixelOf(s, x, y).m == Shade(if x % 3 == 0 then s.data[i] / 8
                                     else if x % 3 == 1 then s.data[i] % 8 * 4 + s.data[i + 1] / 64
                                     else s.data[i + 1] % 32)
  {
    hide Get, Shade;
    var i := ByteIndex(x, y);
    GetMeans(s.data[i], s.data[i + 1]);
  }

  /** Outside 255 x 64 nothing is drawn, and every pixel reads transparent. */
  lemma {:induction false} OffScreen(s: Screen, x: nat, y: nat, c: Color, mark: bool)
    requires Ok(s)
    ensures !(x < 255 && y < 64) ==> SetPixel(s, x, y, c, mark) == s && PixelOf(s, x, y).IsTransparent()
    ensures x < 255 && y < 64 ==> !PixelOf(s, x, y).IsTransparent()
  {
  }

  lemma {:induction false} SameBytes(x: nat, y: nat, x': nat, y': nat)
    requires OnScreen(x, y) && OnScreen(x', y')
    ensures ByteIndex(x, y) == ByteIndex(x', y') || ByteIndex(x, y) + 1 < ByteIndex(x', y')
      || ByteIndex(x', y') + 1 < ByteIndex(x, y)
    ensures ByteIndex(x, y) == ByteIndex(x', y') && x % 3 == x' % 3 ==> x == x' && y == y'
  {
  }

  /** Storing a level at one pixel is seen there and nowhere else. */
  lemma {:induction false} PutAtReads(s: Screen, x: nat, y: nat, level: bv8, x': nat, y': nat)
    requires Ok(s) && OnScreen(x, y) && OnScreen(x', y') && level <= 31
    ensures Raw(s.(data := PutAt(s.data, x, y, level)), x', y')
      == if (x', y') == (x, y) then 31 - level else Raw(s, x', y')
  {
    hide Get, Put0, Put1;
    SameBytes(x, y, x', y');
    var i := ByteIndex(x, y);
    PutGet(x % 3, x' % 3, s.data[i], s.data[i + 1], level);
  }

  lemma {:induction false} LevelOverRange(was: Color, c: Color)
    ensures LevelOver(was, c) <= 31
  {
    hide Level;
    LevelRange(was.Inverted().Mono());
    LevelRange(c.Mono());
  }

  /** No other pixel changes. */
  lemma {:induction false} SetPixelIsLocal(s: Screen, x: nat, y: nat, c: Color, mark: bool, x': nat, y': nat)
    requires Ok(s) && OnScreen(x', y') && (x', y') != (x, y)
    ensures PixelOf(SetPixel(s, x, y, c, mark), x', y') == PixelOf(s, x', y')
  {
    hide Get, Put0, Put1, Level, Shade, LevelOver, PutAt, Raw;
    if OnScreen(x, y) && !c.IsTransparent() {
      var level := LevelOver(PixelOf(s, x, y), c);
      LevelOverRange(PixelOf(s, x, y), c);
      PutAtReads(s, x, y, level, x', y');
      RawDepends(SetPixel(s, x, y, c, mark), s.(data := PutAt(s.data, x, y, level)), x', y');
    }
  }

  /** The flags play no part in reading a pixel. */
  lemma {:induction false} RawDepends(s: Screen, t: Screen, x: nat, y: nat)
    requires Ok(s) && Ok(t) && s.data == t.data && OnScreen(x, y)
    ensures Raw(s, x, y) == Raw(t, x, y)
  {
    hide Get;
  }

  /** A painted grey reads back within 5 of the brightness asked for. */
  lemma {:induction false} SetPixelReadsBack(s: Screen, x: nat, y: nat, c: Color, mark: bool)
    requires Ok(s) && OnScreen(x, y) && c.blend == Normal
    ensures Close(PixelOf(SetPixel(s, x, y, c, mark), x, y).m, c.m)
  {
    hide Get, Put0, Put1, Level, Shade, PutAt, Raw, Close;
    var level := Level(c.m);
    ShadeOfLevel(c.m);
    PutAtReads(s, x, y, level, x, y);
    var s' := SetPixel(s, x, y, c, mark);
    RawDepends(s', s.(data := PutAt(s.data, x, y, level)), x, y);
    assert PixelOf(s', x, y).m == Shade(Raw(s', x, y));
  }

  lemma {:induction false} PutAtBack(s: Screen, x: nat, y: nat)
    requires Ok(s) && OnScreen(x, y)
    ensures PutAt(s.data, x, y, 31 - Raw(s, x, y)) == s.data
  {
    hide Get, Put0, Put1;
    var i := ByteIndex(x, y);
    PutBack(x % 3, s.data[i], s.data[i + 1]);
  }

  /** Writing back the color that was read changes no byte. */
  lemma {:induction false} WriteBack(s: Screen, x: nat, y: nat, mark: bool)
    requires Ok(s) && OnScreen(x, y)
    ensures SetPixel(s, x, y, PixelOf(s, x, y), mark).data == s.data
  {
    hide Get, Put0, Put1, Level, Shade, PutAt, Raw;
    LevelOfShade(Raw(s, x, y));
    PutAtBack(s, x, y);
  }

  /** An inverted pixel is stored as the complement of its level. */
  lemma {:induction false} InvertedLevel(s: Screen, x: nat, y: nat, c: Color)
    requires Ok(s) && OnScreen(x, y) && c.blend == Invert
    ensures LevelOver(PixelOf(s, x, y), c) == Raw(s, x, y)
  {
    hide Level, Shade, Raw;
    LevelOfShade(Raw(s, x, y));
  }

  /** Inverting a pixel twice restores the buffer. */
  lemma {:induction false} InvertTwice(s: Screen, x: nat, y: nat, c: Color, mark: bool)
    requires Ok(s) && OnScreen(x, y) && c.blend == Invert
    ensures SetPixel(SetPixel(s, x, y, c, mark), x, y, c, mark).data == s.data
  {
    hide Get, Put0, Put1, Level, Shade, PutAt, Raw, LevelOver, PixelOf;
    var raw := Raw(s, x, y);
    var once := SetPixel(s, x, y, c, mark);
    InvertedLevel(s, x, y, c);
    InvertedLevel(once, x, y, c);
    PutAtReads(s, x, y, raw, x, y);
    RawDepends(once, s.(data := PutAt(s.data, x, y, raw)), x, y);
    PutAtTwice(s.data, x, y, raw, 31 - raw);
    PutAtBack(s, x, y);
  }

  lemma {:induction false} PutAtTwice(data: seq<bv8>, x: nat, y: nat, first: bv8, second: bv8)
    requires |data| == SIZE && OnScreen(x, y) && first <= 31 && second <= 31
    ensures PutAt(PutAt(data, x, y, first), x, y, second) == PutAt(data, x, y, second)
  {
    hide Put0, Put1;
    var i := ByteIndex(x, y);
    PutTwice(x % 3, data[i], data[i + 1], first, second);
  }

  /** After `white` every pixel is 255, after `black` 0. */
  lemma {:induction false} FilledReads(s: Screen, x: nat, y: nat)
    requires OnScreen(x, y)
    ensures PixelOf(White(s), x, y) == Grey(255) && PixelOf(Black(s), x, y) == Grey(0)
  {
    hide Shade;
    assert Raw(White(s), x, y) == 0;
    assert Raw(Black(s), x, y) == 31;
    assert Shade(0) == 255 && Shade(31) == 0 by { ShadeEnds(); }
  }

  lemma {:induction false} ShadeEnds()
    ensures Shade(0) == 255 && Shade(31) == 0
  {
  }

  /** A marked write that changes any byte leaves the display dirty, in the chunk of its row. */
  lemma {:induction false} ChangesAreMarked(s: Screen, x: nat, y: nat, c: Color)
    requires Ok(s) && SetPixel(s, x, y, c, true).data != s.data
    ensures OnScreen(x, y)
    ensures Dirty(SetPixel(s, x, y, c, true).flags)
    ensures DirtyChunk(SetPixel(s, x, y, c, true).flags, ChunkOf(y, HEIGHT, CHUNKS))
  {
    hide Get, Put0, Put1, Level, Shade, PutAt, Raw, LevelOver;
    if PixelOf(s, x, y) == c {
      WriteBack(s, x, y, true);
    }
    assert SetDirtyChunk(s.flags, y, HEIGHT)[ChunkOf(y, HEIGHT, CHUNKS)];
  }

  // -------------------------------------------------------------------- the class

  class Display {
    const data: array<bv8>
    var flags: seq<bool>

    ghost predicate Valid()
      reads this, data
    {
      data.Length == SIZE && |flags| == CHUNKS
    }

    ghost function State(): (s: Screen)
      requires Valid()
      reads this, data
      ensures Ok(s)
    {
      Screen(data[..], flags)
    }

    constructor ()
      ensures Valid() && fresh(data) && State() == Screen(Filled(0xff), AllFlags(CHUNKS, true))
    {
      data := new bv8[SIZE](_ => 0xff);
      flags := AllFlags(CHUNKS, true);
    }

    method Fill(value: bv8)
      requires Valid()
      modifies this, data
      ensures Valid() && State() == Screen(Filled(value), AllFlags(CHUNKS, true))
    {
      forall i | 0 <= i < data.Length {
        data[i] := value;
      }
      flags := AllFlags(CHUNKS, true);
    }

    method SetWhite()
      requires Valid()
      modifies this, data
      ensures Valid() && State() == White(old(State()))
    {
      Fill(0x00);
    }

    method SetBlack()
      requires Valid()
      modifies this, data
      ensures Valid() && State() == Black(old(State()))
    {
      Fill(0xff);
    }

    method Pixel(x: nat, y: nat) returns (c: Color)
      requires Valid()
      ensures c == PixelOf(State(), x, y)
    {
      if x >= WIDTH || y >= HEIGHT {
        return Color(0, 0, 0, 0, Transparent);
      }
      var i := ByteIndex(x, y);
      return Grey(Shade(Get(x % 3, data[i], data[i + 1])));
    }

    method Set(x: nat, y: nat, c: Color, mark: bool)
      requires Valid()
      modifies this`flags, data
      ensures Valid() && State() == SetPixel(old(State()), x, y, c, mark)
    {
      hide Get, Put0, Put1, Level, Shade;
      if x >= WIDTH || y >= HEIGHT || c.IsTransparent() {
        return;
      }
      var was := Pixel(x, y);
      var level := LevelOver(was, c);
      var i := ByteIndex(x, y);
      ghost var before := data[..];
      data[i] := Put0(x % 3, data[i], level);
      data[i + 1] := Put1(x % 3, data[i + 1], level);
      assert data[..] == PutAt(before, x, y, level);
      if mark && was != c {
        flags := SetDirtyChunk(flags, y, HEIGHT);
      }
    }

    method ResetDirtyFlags()
      requires Valid()
      modifies this`flags
      ensures Valid() && State() == old(State()).(flags := AllFlags(CHUNKS, false))
    {
      flags := AllFlags(CHUNKS, false);
    }
  }
}
