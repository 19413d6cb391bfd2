/**
  The Bjorklund algorithm of the Euklid example: a Euclid-style loop fills the
  tables `count` and `remainder`, then a doubly recursive `Build` writes bits.
*/
module Bjorklund {
  import opened EuclideanWords
  import opened IntMath

  // Assigning to a local of this type makes the verifier show that nothing overflows.
  type int8 = x: int | -128 <= x < 128

  const ARRAY_SIZE: nat := 10

  /** What `Build(level)` writes, given the tables. */
  function Block(count: seq<int>, remainder: seq<int>, level: int): Word
    requires -2 <= level < |count| && |count| == |remainder|
    decreases level + 2
  {
    if level == -1 then [false]
    else if level == -2 then [true]
    else Repeat(Block(count, remainder, level - 1), count[level])
         + (if remainder[level] != 0 then Block(count, remainder, level - 2) else [])
  }

  /** `bits` after writing `w` from position `pos` on. */
  function Overwrite(bits: Word, pos: nat, w: Word): Word
    requires pos + |w| <= |bits|
  {
    bits[..pos] + w + bits[pos + |w|..]
  }

  /** What a sequence of `slots` slots gets for each number of pulses. */
  function Rhythm(slots: int, pulses: nat): Word {
    if pulses == 0 then []
    else if pulses <= slots then Pattern(slots - pulses, pulses)
    else Repeat([true], pulses) + (if slots % pulses == 0 then [] else [false])
  }

  /** Entry `level` of the remainder table, with the initial divisor before it. */
  function Rem(a: int, remainder: seq<int>, level: int): int
    requires -1 <= level < |remainder|
  {
    if level < 0 then a else remainder[level]
  }

  /** Levels below `level` of the tables hold a run of Euclid's algorithm on (a, b). */
  ghost predicate Table(a: int, b: int, count: seq<int>, remainder: seq<int>, level: int) {
    && |count| == |remainder| && 0 <= level < |count|
    && 0 <= a && 1 <= b == remainder[0]
    && (forall l :: 0 <= l < level ==> remainder[l] >= 1)
    && (forall l :: 0 <= l < level ==>
          Division(Rem(a, remainder, l - 1), remainder[l], count[l], remainder[l + 1]))
  }

  ghost predicate Division(x: int, y: int, quotient: int, rest: int)
    requires y >= 1
  {
    quotient == x / y && rest == x % y
  }

  class Generator {
    const width: nat
    var bits: Word
    var pos: nat
    const remainder: array<int8>
    const count: array<int8>

    constructor (width: nat)
      ensures this.width == width && fresh(remainder) && fresh(count) && Valid()
    {
      this.width := width;
      bits := Clear(width);
      pos := 0;
      remainder := new int8[ARRAY_SIZE];
      count := new int8[ARRAY_SIZE];
    }

    ghost predicate Valid()
      reads this, remainder, count
    {
      && |bits| == width
      && remainder != count && remainder.Length == count.Length == ARRAY_SIZE
    }

    method Build(level: int, ghost w: Word)
      requires Valid() && -2 <= level < ARRAY_SIZE
      requires w == Block(count[..], remainder[..], level)
      requires pos + |w| <= width
      modifies this`bits, this`pos
      ensures |bits| == width
      ensures pos == old(pos) + |w|
      ensures bits == Overwrite(old(bits), old(pos), w)
      decreases level + 2, 1
    {
      if level == -1 {
        OverwriteOne(bits, pos, false);
        bits := bits[pos := false];
        pos := pos + 1;
      } else if level == -2 {
        OverwriteOne(bits, pos, true);
        bits := bits[pos := true];
        pos := pos + 1;
      } else {
        ghost var blocks := Repeat(Block(count[..], remainder[..], level - 1), count[level]);
        ghost var rest := if remainder[level] != 0 then Block(count[..], remainder[..], level - 2) else [];
        assert w == blocks + rest;
        OverwriteTwice(bits, pos, blocks, rest);
        BuildBlocks(level, Block(count[..], remainder[..], level - 1));
        if remainder[level] != 0 {
          Build(level - 2, rest);
        }
      }
    }

    /** The for loop of `Build`. */
    method BuildBlocks(level: int, ghost block: Word)
      requires Valid() && 0 <= level < ARRAY_SIZE
      requires block == Block(count[..], remainder[..], level - 1)
      requires pos + |Repeat(block, count[level])| <= width
      modifies this`bits, this`pos
      ensures |bits| == width
      ensures pos == old(pos) + |Repeat(block, count[level])|
      ensures bits == Overwrite(old(bits), old(pos), Repeat(block, count[level]))
      decreases level + 2, 0
    {
      ghost var bits0, pos0 := bits, pos;
      var i := 0;
      while i < count[level]
        invariant 0 <= i && (i <= count[level] || i == 0)
        invariant |bits| == width && pos <= width
        invariant pos == pos0 + |Repeat(block, i)|
        invariant bits == Overwrite(bits0, pos0, Repeat(block, i))
      {
        RepeatGrows(block, i + 1, count[level]);
        OverwriteTwice(bits0, pos0, Repeat(block, i), block);
        Build(level - 1, block);
        i := i + 1;
      }
      assert Repeat(block, i) == Repeat(block, count[level]);
    }

    /** One iteration of the do-while loop; its lengths must fit in 8 bits. */
    method FillLevel(level: int8, divisor: int8, cycleLength: int8, remLength: int8, ghost s: Locals)
      returns (level': int8, divisor': int8, cycleLength': int8)
      requires Valid() && s == Locals(level, divisor, cycleLength, remLength, count[..], remainder[..])
      requires s.InRange() && level < ARRAY_SIZE - 1
      requires -128 <= TruncDiv(divisor, remainder[level]) <= 127 && -128 <= s.Next().cycleLength <= 127
      modifies remainder, count
      ensures s.Next() == Locals(level', divisor', cycleLength', cycleLength, count[..], remainder[..])
    {
      count[level] := TruncDiv(divisor, remainder[level]);
      remainder[level + 1] := TruncMod(divisor, remainder[level]);
      divisor' := remainder[level];
      cycleLength' := cycleLength * count[level] + remLength;
      level' := level + 1;
      assert s.Next().count == count[..] && s.Next().remainder == remainder[..];
    }

    /** The do-while loop: the tables, and the locals it leaves behind. */
    method FillTables(slots: int8, pulses: int8)
      returns (level: int8, divisor: int8, cycleLength: int8, remLength: int8, ghost s: Locals)
      requires Valid() && 1 <= pulses && -128 <= slots - pulses
      modifies remainder, count
      ensures s == Locals(level, divisor, cycleLength, remLength, count[..], remainder[..])
      ensures 1 <= level < ARRAY_SIZE && remainder[level] <= 1
      ensures if pulses <= slots then Running(slots, pulses, s) else Overfull(slots, pulses, s)
    {
      remainder[0] := pulses;
      s := Locals(0, slots - pulses, 1, 1, count[..], remainder[..]);
      FirstLevel(slots, pulses, s);
      level, divisor, cycleLength := FillLevel(0, slots - pulses, 1, 1, s);
      remLength := 1;
      s := s.Next();
      while remainder[level] > 1
        invariant 1 <= level < ARRAY_SIZE
        invariant s == Locals(level, divisor, cycleLength, remLength, count[..], remainder[..])
        invariant if pulses <= slots then Running(slots, pulses, s) else Overfull(slots, pulses, s)
        decreases remainder[level]
      {
        NextLevel(slots, pulses, s);
        ghost var s' := s.Next();
        var oldLength := cycleLength;
        level, divisor, cycleLength := FillLevel(level, divisor, cycleLength, remLength, s);
        remLength := oldLength;
        s := s';
      }
    }

    method Compute(slots: int8, pulses: int8) returns (r: Word)
      // the difference stays in its 8 bits, which it always does when there is a slot
      requires Valid() && 0 <= pulses && -128 <= slots - pulses
      // shifting past the width of the word is undefined
      requires |Rhythm(slots, pulses)| <= width
      modifies this, remainder, count
      ensures Valid()
      ensures r == Padded(Rhythm(slots, pulses), width)
    {
      hide Rhythm, Block, Running, Overfull;
      ghost var w := Rhythm(slots, pulses);
      bits := Clear(width);
      WritesPrefix(w, width);
      pos := 0;
      if pulses == 0 {
        NoPulses(slots);
        return bits;
      }
      var level, divisor, cycleLength, remLength, s := FillTables(slots, pulses);
      count[level] := divisor;
      assert count[..] == s.count[level := divisor];
      TablesDone(slots, pulses, s);
      if remainder[level] > 0 {
        cycleLength := cycleLength * count[level] + remLength;
      }
      Build(level, w);
      return bits;
    }
  }

  /** The locals and tables of `FillTables` at the top of an iteration. */
  datatype Locals = Locals(level: int, divisor: int, cycleLength: int, remLength: int,
                           count: seq<int>, remainder: seq<int>)
  {
    predicate InRange() {
      0 <= level && level + 1 < |count| && |count| == |remainder| && remainder[level] >= 1
    }

    function Next(): Locals
      requires InRange()
    {
      var c, r := TruncDiv(divisor, remainder[level]), TruncMod(divisor, remainder[level]);
      Locals(level + 1, remainder[level], cycleLength * c + remLength, cycleLength,
             count[level := c], remainder[level + 1 := r])
    }
  }

  /** The loop invariant: a run of Euclid's algorithm, whose block lengths always add up to `slots`. */
  ghost predicate Running(slots: nat, pulses: nat, s: Locals) {
    && 1 <= pulses <= slots && 0 <= s.level < |s.count|
    && Table(slots - pulses, pulses, s.count, s.remainder, s.level)
    && 0 <= s.remainder[s.level] <= slots && s.divisor <= slots
    && s.divisor == Rem(slots - pulses, s.remainder, s.level - 1) >= 0
    && s.cycleLength == |Block(s.count, s.remainder, s.level - 1)|
    && s.remLength == |Block(s.count, s.remainder, s.level - 2)|
    && s.cycleLength * s.divisor + s.remLength * s.remainder[s.level] == slots
  }

  /** One more level of the tables. */
  lemma TableStep(a: int, b: int, count: seq<int>, remainder: seq<int>, level: int, c: int, r: int)
    requires Table(a, b, count, remainder, level) && level + 1 < |count| && remainder[level] >= 1
    requires Division(Rem(a, remainder, level - 1), remainder[level], c, r)
    ensures Table(a, b, count[level := c], remainder[level + 1 := r], level + 1)
  {
  }

  lemma BlockStep(count: seq<int>, remainder: seq<int>, level: int, c: int, r: int)
    requires 0 <= level && level + 1 < |count| && |count| == |remainder|
    requires c >= 0 && remainder[level] != 0
    ensures var count', remainder' := count[level := c], remainder[level + 1 := r];
      && Block(count', remainder', level - 1) == Block(count, remainder, level - 1)
      && |Block(count', remainder', level)|
         == |Block(count, remainder, level - 1)| * c + |Block(count, remainder, level - 2)|
  {
    var count', remainder' := count[level := c], remainder[level + 1 := r];
    BlockFrame(count', remainder', count, remainder, level - 1);
    BlockFrame(count', remainder', count, remainder, level - 2);
    BlockLength(count', remainder', level);
  }

  lemma RunningStep(slots: nat, pulses: nat, s: Locals)
    requires Running(slots, pulses, s) && s.InRange()
    ensures Running(slots, pulses, s.Next())
    ensures 0 <= s.Next().cycleLength <= slots
    ensures 0 <= s.Next().remainder[s.level + 1] < s.remainder[s.level]
  {
    var d, s' := s.remainder[s.level], s.Next();
    var c, r := TruncDiv(s.divisor, d), TruncMod(s.divisor, d);
    TruncFacts(s.divisor, d);
    TableStep(slots - pulses, pulses, s.count, s.remainder, s.level, c, r);
    BlockStep(s.count, s.remainder, s.level, c, r);
    LengthStep(s.divisor, d, c, r, s.cycleLength, s.remLength);
    assert s'.cycleLength * s'.divisor + s'.remLength * s'.remainder[s'.level] == slots;
  }

  /** After one level: more pulses than slots were asked for. */
  ghost predicate Overfull(slots: int, pulses: nat, s: Locals) {
    && |s.count| == |s.remainder| >= 2 && s.level == 1 && pulses >= 1
    && s.divisor == s.remainder[0] == pulses && s.count[0] <= 0
    && s.remainder[1] <= 0 && (s.remainder[1] == 0 <==> slots % pulses == 0)
  }

  lemma FirstLevel(slots: int, pulses: nat, s: Locals)
    requires -128 <= slots - pulses && slots <= 127 && 1 <= pulses <= 127
    requires |s.count| == |s.remainder| >= 2 && s.remainder[0] == pulses
    requires s.level == 0 && s.divisor == slots - pulses && s.cycleLength == s.remLength == 1
    ensures var s' := s.Next();
      && -128 <= TruncDiv(s.divisor, pulses) <= 127
      && -127 <= s'.cycleLength <= 127 && 0 < s'.remainder[1] + pulses
      && s'.remainder[1] < pulses
      && if pulses <= slots then Running(slots, pulses, s') else Overfull(slots, pulses, s')
  {
    if pulses <= slots {
      TruncFacts(s.divisor, pulses);
      RunningStep(slots, pulses, s);
      SmallerQuotient(s.divisor, pulses);
    } else {
      NegativeTrunc(s.divisor, pulses);
      ModAsDifference(slots, pulses);
      SameRemainder(s.divisor, slots, pulses, -1);
    }
  }

  lemma SmallerQuotient(x: nat, y: nat)
    requires y >= 1
    ensures 0 <= TruncDiv(x, y) <= x
  {
    DivMod(x, y);
    AtMostProduct(y, x / y);
  }

  lemma NextLevel(slots: int, pulses: nat, s: Locals)
    requires if pulses <= slots then Running(slots, pulses, s) else Overfull(slots, pulses, s)
    requires slots <= 127 && |s.count| == ARRAY_SIZE
    requires s.level >= 1 && s.remainder[s.level] > 1
    ensures s.level < ARRAY_SIZE - 2 && s.InRange() && s.remainder[s.level] <= slots
    ensures pulses <= slots && Running(slots, pulses, s.Next())
    ensures 0 <= TruncDiv(s.divisor, s.remainder[s.level]) <= 127
    ensures 0 <= s.Next().cycleLength <= slots
    ensures 0 <= s.Next().remainder[s.level + 1] < s.remainder[s.level]
  {
    hide Block, Division;
    RunningDepth(slots, pulses, s);
    RunningStep(slots, pulses, s);
    SmallerQuotient(s.divisor, s.remainder[s.level]);
  }

  lemma RunningDepth(slots: nat, pulses: nat, s: Locals)
    requires Running(slots, pulses, s)
    requires s.level >= 1 && s.remainder[s.level] > 1 && slots <= 127
    ensures s.level < ARRAY_SIZE - 2
  {
    LameBound(slots - pulses, pulses, s.count, s.remainder, s.level);
  }

  lemma RunningLength(slots: nat, pulses: nat, s: Locals)
    requires Running(slots, pulses, s)
    ensures s.remainder[s.level] >= 0
    ensures s.remainder[s.level] == 1 ==> s.cycleLength * s.divisor + s.remLength == slots
  {
  }

  /** What the loop leaves behind describes the whole rhythm. */
  lemma TablesDone(slots: int, pulses: nat, s: Locals)
    requires if pulses <= slots then Running(slots, pulses, s) else Overfull(slots, pulses, s)
    requires s.level >= 1 && s.remainder[s.level] <= 1 && pulses >= 1
    ensures Block(s.count[s.level := s.divisor], s.remainder, s.level) == Rhythm(slots, pulses)
    ensures s.remainder[s.level] > 0 ==> s.cycleLength * s.divisor + s.remLength == slots
  {
    if pulses <= slots {
      RunningEnds(slots, pulses, s, slots - pulses);
      RunningLength(slots, pulses, s);
    } else {
      OverfullBlock(s.count[1 := pulses], s.remainder, slots, pulses);
    }
  }

  lemma NoPulses(slots: int)
    ensures Rhythm(slots, 0) == []
  {
  }

  lemma RunningEnds(slots: nat, pulses: nat, s: Locals, a: nat)
    requires Running(slots, pulses, s)
    requires s.level >= 1 && s.remainder[s.level] <= 1 && a == slots - pulses
    ensures Block(s.count[s.level := s.divisor], s.remainder, s.level) == Pattern(a, pulses)
  {
    BlockIsPattern(a, pulses, s.count[s.level := s.divisor], s.remainder, s.level);
  }

  /** A word of `n` bits that starts with `w` and is clear from there on. */
  function Padded(w: Word, n: nat): Word
    requires |w| <= n
  {
    w + Clear(n - |w|)
  }

  function Clear(n: nat): Word {
    seq(n, _ => false)
  }

  lemma WritesPrefix(w: Word, n: nat)
    requires |w| <= n
    ensures Overwrite(Clear(n), 0, w) == Padded(w, n)
    ensures w == [] ==> Clear(n) == Padded(w, n)
  {
  }

  // ------------------------------------------------------------------ helpers

  lemma {:induction false} RepeatGrows(w: Word, i: int, n: int)
    requires i <= n
    ensures |Repeat(w, i)| <= |Repeat(w, n)|
    decreases n
  {
    if i < n && n > 0 {
      RepeatGrows(w, i, n - 1);
    }
  }

  lemma OverwriteOne(bits: Word, pos: nat, b: bool)
    requires pos < |bits|
    ensures Overwrite(bits, pos, [b]) == bits[pos := b]
  {
  }

  lemma OverwriteTwice(bits: Word, pos: nat, v: Word, w: Word)
    requires pos + |v| + |w| <= |bits|
    ensures Overwrite(Overwrite(bits, pos, v), pos + |v|, w) == Overwrite(bits, pos, v + w)
    ensures w == [] ==> Overwrite(bits, pos, v + w) == Overwrite(bits, pos, v)
  {
    assert Overwrite(bits, pos, v)[..pos + |v|] == bits[..pos] + v;
    assert w == [] ==> v + w == v;
  }

  lemma TruncFacts(x: int, y: int)
    requires y >= 1 && x >= 0
    ensures TruncDiv(x, y) >= 0 && 0 <= TruncMod(x, y) < y
    ensures Division(x, y, TruncDiv(x, y), TruncMod(x, y))
    ensures x == y * TruncDiv(x, y) + TruncMod(x, y)
  {
    DivMod(x, y);
  }

  lemma NegativeTrunc(x: int, y: int)
    requires y >= 1 && -128 <= x < 0
    ensures -128 <= TruncDiv(x, y) <= 0 && -y < TruncMod(x, y) <= 0
    ensures TruncMod(x, y) == 0 <==> x % y == 0
  {
    var m := 0 - x;
    DivMod(m, y);
    SmallerQuotient(m, y);
    NegatedRemainder(x, y, m / y, m % y);
  }

  /** A block only looks at its own level of the tables and those below. */
  lemma {:induction false} BlockFrame(c: seq<int>, r: seq<int>, c': seq<int>, r': seq<int>, level: int)
    requires -2 <= level < |c| && |c| == |r| == |c'| == |r'|
    requires forall l :: 0 <= l <= level ==> c[l] == c'[l] && r[l] == r'[l]
    ensures Block(c, r, level) == Block(c', r', level)
    decreases level + 2
  {
    if level >= 0 {
      BlockFrame(c, r, c', r', level - 1);
      BlockFrame(c, r, c', r', level - 2);
    }
  }

  lemma BlockLength(count: seq<int>, remainder: seq<int>, level: int)
    requires 0 <= level < |count| && |count| == |remainder|
    requires count[level] >= 0 && remainder[level] != 0
    ensures |Block(count, remainder, level)|
      == |Block(count, remainder, level - 1)| * count[level] + |Block(count, remainder, level - 2)|
  {
    RepeatLength(Block(count, remainder, level - 1), count[level]);
  }

  lemma RepeatLength(w: Word, n: nat)
    ensures |Repeat(w, n)| == |w| * n
  {
    RepeatCounts(w, n);
  }

  /** One round of Euclid keeps the weighted sum of the two block lengths. */
  lemma LengthStep(d: int, r: int, c: int, r': int, len1: int, len2: int)
    requires d == r * c + r' && r >= 1 && len1 >= 0
    ensures (len1 * c + len2) * r + len1 * r' == len1 * d + len2 * r
    ensures r' >= 0 && len1 * c + len2 >= 0 ==> len1 * c + len2 <= len1 * d + len2 * r
  {
    var n := len1 * c + len2;
    assert n * r == len1 * (r * c) + len2 * r;
    assert len1 * d == len1 * (r * c) + len1 * r';
    if r' >= 0 && n >= 0 {
      AtMostProduct(r, n);
      AtMostProduct(r' + 1, len1);
    }
  }

  lemma AtMostProduct(r: int, n: int)
    requires r >= 1 && n >= 0
    ensures n <= r * n == n * r
    ensures n * (r - 1) >= 0
  {
  }

  // -------------------------------------------------------- depth of recursion

  function Fib(n: nat): nat {
    if n < 2 then n else Fib(n - 1) + Fib(n - 2)
  }

  lemma {:induction false} RemainderAtLeast(a: int, b: int, count: seq<int>, remainder: seq<int>, level: int, j: nat)
    requires Table(a, b, count, remainder, level) && remainder[level] >= 2
    requires j <= level
    ensures remainder[j] >= Fib(level - j + 3)
    ensures j < level ==> remainder[j] > remainder[j + 1]
    decreases level - j
  {
    assert Fib(3) == 2 && Fib(4) == 3;
    if j < level {
      RemainderAtLeast(a, b, count, remainder, level, j + 1);
      assert Division(Rem(a, remainder, j - 1), remainder[j], count[j], remainder[j + 1]);
      if j + 1 < level {
        RemainderAtLeast(a, b, count, remainder, level, j + 2);
        assert Division(remainder[j], remainder[j + 1], count[j + 1], remainder[j + 2]);
        ModDrops(remainder[j], remainder[j + 1]);
      }
    }
  }

  lemma ModDrops(x: int, y: int)
    requires x >= y >= 1
    ensures x >= y + x % y
  {
    assert x == x / y * y + x % y;
    assert x / y >= 1;
    AtMostProduct(x / y, y);
  }

  lemma ModAtMost(x: nat, y: nat)
    requires y >= 1
    ensures x % y <= x
  {
  }

  /** Lame: a run of Euclid's algorithm this deep needs this many slots. */
  lemma {:induction false} Lame(a: int, b: int, count: seq<int>, remainder: seq<int>, level: int)
    requires Table(a, b, count, remainder, level) && level >= 1 && remainder[level] >= 2
    ensures a + b >= Fib(level + 4)
  {
    RemainderAtLeast(a, b, count, remainder, level, 0);
    RemainderAtLeast(a, b, count, remainder, level, 1);
    assert Division(a, remainder[0], count[0], remainder[1]);
    ModAtMost(a, b);
    assert Fib(level + 4) == Fib(level + 3) + Fib(level + 2);
  }

  lemma {:induction false} FibGrows(n: nat)
    requires n >= 12
    ensures Fib(n) >= 144
  {
    assert Fib(6) == 8 && Fib(7) == 13;
    assert Fib(8) == 21 && Fib(9) == 34;
    assert Fib(10) == 55 && Fib(11) == 89;
    if n > 12 {
      FibGrows(n - 1);
    }
  }

  /** So with 8-bit slot counts no table access reaches index 10. */
  lemma {:induction false} LameBound(a: int, b: int, count: seq<int>, remainder: seq<int>, level: int)
    requires Table(a, b, count, remainder, level) && level >= 1 && remainder[level] >= 2
    requires a + b <= 127
    ensures level + 1 < ARRAY_SIZE - 1
  {
    Lame(a, b, count, remainder, level);
    if level >= 8 {
      FibGrows(level + 4);
    }
  }

  // ------------------------------------------ the tables describe the pattern

  /** `w` with a word put for each letter. */
  function Render(rest: Word, pulse: Word, w: Word): Word {
    if w == [] then [] else Render(rest, pulse, w[..|w| - 1]) + (if w[|w| - 1] then pulse else rest)
  }

  lemma {:induction false} RenderConcat(rest: Word, pulse: Word, v: Word, w: Word)
    ensures Render(rest, pulse, v + w) == Render(rest, pulse, v) + Render(rest, pulse, w)
    decreases |w|
  {
    if w == [] {
      assert v + w == v;
    } else {
      var u, last := w[..|w| - 1], if w[|w| - 1] then pulse else rest;
      assert (v + w)[..|v + w| - 1] == v + u;
      RenderConcat(rest, pulse, v, u);
      assert (Render(rest, pulse, v) + Render(rest, pulse, u)) + last
          == Render(rest, pulse, v) + (Render(rest, pulse, u) + last);
    }
  }

  lemma {:induction false} RenderRests(rest: Word, pulse: Word, n: nat)
    ensures Render(rest, pulse, Repeat([false], n)) == Repeat(rest, n)
  {
    if n > 0 {
      RenderRests(rest, pulse, n - 1);
      RenderConcat(rest, pulse, Repeat([false], n - 1), [false]);
    }
  }

  lemma {:induction false} RenderLetters(w: Word)
    ensures Render([false], [true], w) == w
  {
    if w != [] {
      RenderLetters(w[..|w| - 1]);
    }
  }

  /** Substituting first is rendering with longer blocks. */
  lemma {:induction false} RenderSubst(c: nat, rest: Word, pulse: Word, w: Word)
    ensures Render(rest, pulse, Subst(c, w)) == Render(Repeat(rest, c) + pulse, rest, w)
  {
    if w != [] {
      var v := w[..|w| - 1];
      RenderSubst(c, rest, pulse, v);
      RenderConcat(rest, pulse, Subst(c, v), Image(c, w[|w| - 1]));
      RenderRests(rest, pulse, c);
      RenderConcat(rest, pulse, Repeat([false], c), [true]);
    }
  }

  lemma PatternUnfold(a: nat, b: nat, quotient: int, rest: int)
    requires b >= 1 && Division(a, b, quotient, rest)
    ensures quotient >= 0 && rest >= 0 && Pattern(a, b) == Subst(quotient, Pattern(b, rest))
  {
    DivMod(a, b);
    if b == 1 {
      assert Pattern(1, 0) == Repeat([false], 0) + [false] == [false];
      assert Subst(a, [false]) == Subst(a, []) + Image(a, false);
    }
  }

  lemma RenderTop(rest: Word, pulse: Word, p: nat, q: nat)
    requires q <= 1
    ensures Render(rest, pulse, Pattern(p, q)) == Repeat(rest, p) + (if q == 1 then pulse else [])
  {
    RenderRests(rest, pulse, p);
    RenderConcat(rest, pulse, Repeat([false], p), [true]);
  }

  lemma BlockUnfold(count: seq<int>, remainder: seq<int>, l: nat)
    requires l < |count| == |remainder|
    ensures Block(count, remainder, l) == Repeat(Block(count, remainder, l - 1), count[l])
      + (if remainder[l] != 0 then Block(count, remainder, l - 2) else [])
  {
  }

  /** At every level the blocks below, arranged by the pattern of what is left, make the whole. */
  lemma {:induction false} BlocksAtLevel(a: int, b: int, count: seq<int>, remainder: seq<int>, level: int, l: nat)
    requires Table(a, b, count, remainder, level) && level >= 1
    requires 0 <= remainder[level] <= 1 && count[level] == remainder[level - 1]
    requires l <= level
    ensures var rest, pulse := Block(count, remainder, l - 1), Block(count, remainder, l - 2);
      Rem(a, remainder, l - 1) >= 0 && remainder[l] >= 0 &&
      Render(rest, pulse, Pattern(Rem(a, remainder, l - 1), remainder[l])) == Block(count, remainder, level)
    decreases level - l
  {
    hide Block, Pattern, Subst, Render, Repeat, Division;
    var rest, pulse := Block(count, remainder, l - 1), Block(count, remainder, l - 2);
    var p, q := Rem(a, remainder, l - 1), remainder[l];
    BlockUnfold(count, remainder, l);
    if l == level {
      RenderTop(rest, pulse, p, q);
    } else {
      BlocksAtLevel(a, b, count, remainder, level, l + 1);
      assert Division(p, q, count[l], remainder[l + 1]);
      PatternUnfold(p, q, count[l], remainder[l + 1]);
      RenderSubst(count[l], rest, pulse, Pattern(q, remainder[l + 1]));
    }
  }

  lemma {:induction false} BlockIsPattern(a: int, b: int, count: seq<int>, remainder: seq<int>, level: int)
    requires Table(a, b, count, remainder, level) && level >= 1
    requires 0 <= remainder[level] <= 1 && count[level] == remainder[level - 1]
    ensures Block(count, remainder, level) == Pattern(a, b)
  {
    BlocksAtLevel(a, b, count, remainder, level, 0);
    RenderLetters(Pattern(a, b));
  }

  /** More pulses than slots: one pulse per block of length one, then a rest if there is a remainder. */
  lemma OverfullBlock(count: seq<int>, remainder: seq<int>, slots: int, pulses: nat)
    requires |count| == |remainder| >= 2 && pulses >= 1
    requires count[0] <= 0 && count[1] == pulses && remainder[0] != 0
    requires remainder[1] == 0 <==> slots % pulses == 0
    ensures Block(count, remainder, 1) == Repeat([true], pulses) + (if slots % pulses == 0 then [] else [false])
  {
    assert Repeat(Block(count, remainder, -1), count[0]) == [];
    assert Block(count, remainder, 0) == [true];
  }

  // ------------------------------------------------------------ main theorems

  /**
    For every input the first `slots` bits hold as many pulses as asked for, or
    one in every slot when more are asked for than there are slots.
  */
  lemma RhythmPulses(slots: nat, pulses: nat)
    requires 1 <= slots && 1 <= pulses
    ensures |Rhythm(slots, pulses)| >= slots
    ensures Ones(Rhythm(slots, pulses)[..slots]) == if pulses <= slots then pulses else slots
    ensures pulses <= slots ==> |Rhythm(slots, pulses)| == slots
  {
    var w := Rhythm(slots, pulses);
    if pulses <= slots {
      PatternCounts(slots - pulses, pulses);
      assert w[..slots] == w;
    } else {
      RepeatCounts([true], pulses);
      PulsePrefix(pulses, slots);
      RepeatCounts([true], slots);
      assert w[..slots] == Repeat([true], pulses)[..slots];
      assert Ones([true]) == 1;
    }
  }

  lemma {:induction false} PulsePrefix(n: nat, k: nat)
    requires k <= n
    ensures |Repeat([true], n)| == n
    ensures Repeat([true], n)[..k] == Repeat([true], k)
  {
    RepeatCounts([true], n);
    if k < n {
      PulsePrefix(n - 1, k);
      assert Repeat([true], n)[..k] == Repeat([true], n - 1)[..k];
    }
  }

  /** The rhythm of at most one pulse per slot is balanced when it loops. */
  lemma RhythmBalanced(slots: nat, pulses: nat)
    requires 1 <= pulses <= slots
    ensures Balanced(Rhythm(slots, pulses))
  {
    PatternBalanced(slots - pulses, pulses);
  }

  /** Five pulses in three slots come out as five pulses and a rest, so that a loop of three has no rest. */
  lemma OverfullExample()
    ensures Rhythm(3, 5) == [true, true, true, true, true, false]
    ensures Ones(Rhythm(3, 5)[..3]) == 3
  {
    assert Repeat([true], 5) == [true, true, true, true, true] by {
      assert Repeat([true], 3) == [true, true, true];
    }
    RhythmPulses(3, 5);
  }

  /** Two rhythms known by name: the tresillo and the cinquillo, in this generator's rotation. */
  lemma {:induction false} RhythmExamples()
    ensures Rhythm(8, 3) == [false, true, false, false, true, false, false, true]
    ensures Rhythm(8, 5) == [true, false, true, true, false, true, true, false]
  {
    hide Pattern, Subst, Image, Repeat;
    var v, u := [false, true, false, true, false], [false, true, false, false, true, false, false, true];
    assert Pattern(2, 1) == [false, false, true] by { TwoRests(); }
    PatternUnfold(3, 2, 1, 1);
    SubstThree(1, false, false, true);
    assert Pattern(3, 2) == v by { Images(); }
    PatternUnfold(5, 3, 1, 2);
    assert v == [false, true, false] + [true, false];
    SubstThree(1, false, true, false);
    SubstTwo(1, true, false);
    SubstSplit(1, [false, true, false], [true, false]);
    assert Pattern(5, 3) == u by { Images(); }
    PatternUnfold(3, 5, 0, 3);
    assert u == [false, true, false] + ([false, true, false] + [false, true]);
    SubstThree(0, false, true, false);
    SubstTwo(0, false, true);
    SubstSplit(0, [false, true, false], [false, true]);
    SubstSplit(0, [false, true, false], [false, true, false] + [false, true]);
    assert Pattern(3, 5) == [true, false, true, true, false, true, true, false] by { Images(); }
  }

  lemma {:induction false} Images()
    ensures Image(1, false) == [false, true] && Image(0, false) == [true]
    ensures Image(1, true) == Image(0, true) == [false]
  {
    assert Repeat([false], 1) == [false];
  }

  lemma {:induction false} TwoRests()
    ensures Pattern(2, 1) == [false, false, true]
  {
    assert Repeat([false], 1) == [false];
    assert Repeat([false], 2) == [false, false];
  }

  lemma {:induction false} SubstSplit(c: nat, v: Word, w: Word)
    ensures Subst(c, v + w) == Subst(c, v) + Subst(c, w)
    decreases |w|
  {
    if w == [] {
      assert v + w == v;
    } else {
      var u, last := w[..|w| - 1], Image(c, w[|w| - 1]);
      assert (v + w)[..|v + w| - 1] == v + u;
      SubstSplit(c, v, u);
      assert (Subst(c, v) + Subst(c, u)) + last == Subst(c, v) + (Subst(c, u) + last);
    }
  }

  lemma {:induction false} SubstOne(c: nat, x: bool)
    ensures Subst(c, [x]) == Image(c, x)
  {
    assert Subst(c, [x]) == [] + Image(c, x);
  }

  lemma {:induction false} SubstTwo(c: nat, x: bool, y: bool)
    ensures Subst(c, [x, y]) == Image(c, x) + Image(c, y)
  {
    SubstOne(c, x);
    SubstOne(c, y);
    SubstSplit(c, [x], [y]);
    assert [x] + [y] == [x, y];
  }

  lemma {:induction false} SubstThree(c: nat, x: bool, y: bool, z: bool)
    ensures Subst(c, [x, y, z]) == Image(c, x) + Image(c, y) + Image(c, z)
  {
    SubstTwo(c, x, y);
    SubstOne(c, z);
    SubstSplit(c, [x, y], [z]);
    assert [x, y] + [z] == [x, y, z];
  }
}
