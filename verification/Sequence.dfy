/** A looping step sequence whose bits come from the Bjorklund generator. */
module Sequence {
  import opened EuclideanWords
  import opened IntMath
  import opened Bjorklund

  // Sequence<unsigned>: one bit per step in a 32-bit word.
  const WIDTH: nat := 32

  function Uint8(x: int): nat {
    x % 256
  }

  /** Where a position lands that is brought into the sequence: past the end if it is negative and no whole lap. */
  function Landing(x: int, length: nat): nat
    requires 0 < length <= WIDTH
  {
    if x >= 0 || x % length == 0 then x % length else 256 - (0 - x) % length
  }

  function RotatedPos(length: nat, pos: nat, offset: int, steps: int): nat
    requires 0 < length <= WIDTH
  {
    Landing(length + pos + steps - offset, length)
  }

  /** The position after a chain of rotations. */
  function RotateAll(length: nat, pos: nat, offset: int, steps: seq<int>): nat
    requires 0 < length <= WIDTH
  {
    if steps == [] then pos
    else
      var n := |steps| - 1;
      RotatedPos(length, RotateAll(length, pos, offset, steps[..n]), if n == 0 then offset else steps[n - 1], steps[n])
  }

  /** The bit index that a pad stands for under the current rotation. */
  function StepIndex(length: nat, offset: int, pad: nat): int {
    if pad - offset < 0 then pad - offset + length else pad - offset
  }

  function Toggled(bits: Word, length: nat, k: int): Word
    requires 0 <= k < |bits|
  {
    if k < length then bits[k := !bits[k]] else bits
  }

  /** The results of `n` calls of `next` from position `pos` on. */
  function Play(bits: Word, length: nat, pos: nat, n: nat): Word
    requires 0 < length <= |bits|
    decreases n
  {
    if n == 0 then []
    else
      var p := if pos >= length then 0 else pos;
      [bits[p]] + Play(bits, length, p + 1, n - 1)
  }

  /** The rhythm fits in the word; more fills than steps take one bit more than there are fills. */
  predicate InWord(steps: nat, fills: nat) {
    1 <= steps <= WIDTH && (fills <= steps || fills < WIDTH)
  }

  class StepSequence {
    var bits: Word
    var length: nat
    var offset: int
    var pos: nat

    ghost predicate Valid()
      reads this
    {
      |bits| == WIDTH && 1 <= length <= WIDTH && pos <= 255 && -128 <= offset < 128
    }

    // nothing gives `bits` and `offset` their first values
    constructor (bits: Word, offset: int8)
      requires |bits| == WIDTH
      ensures Valid() && length == 1 && pos == 0 && this.bits == bits && this.offset == offset
    {
      length := 1;
      pos := 0;
      this.bits := bits;
      this.offset := offset;
    }

    method Calculate(steps: nat, fills: nat)
      requires Valid() && InWord(steps, fills)
      modifies this
      ensures Valid() && length == steps && pos == old(pos) && offset == old(offset)
      ensures |Rhythm(steps, fills)| <= WIDTH
      ensures bits == Padded(Rhythm(steps, fills), WIDTH)
    {
      RhythmLength(steps, fills);
      var algo := new Generator(WIDTH);
      var newbits := algo.Compute(steps, fills);
      length := steps;
      bits := newbits;
    }

    method Reset()
      requires Valid()
      modifies this`pos
      ensures Valid() && pos == Landing(offset, length)
      ensures pos < length <==> offset >= 0 || offset % length == 0
      ensures pos < length ==> pos == offset % length
    {
      StoredRemainder(offset, length);
      pos := Uint8(TruncMod(offset, length));
    }

    method Rotate(steps: int8)
      requires Valid()
      modifies this`pos, this`offset
      ensures Valid() && offset == steps && pos == RotatedPos(length, old(pos), old(offset), steps)
      ensures var sum := old(pos) + steps - old(offset);
        pos < length <==> length + sum >= 0 || sum % length == 0
      ensures pos < length ==> (pos - offset) % length == (old(pos) - old(offset)) % length
    {
      StoredRemainder(length + pos + steps - offset, length);
      RotateKeepsPhase(length, pos, offset, steps);
      pos := Uint8(TruncMod(length + pos + steps - offset, length));
      offset := steps;
    }

    method Next() returns (step: bool)
      requires Valid()
      modifies this`pos
      ensures Valid() && [step] == Play(bits, length, old(pos), 1)
      ensures pos == (if old(pos) >= length then 0 else old(pos)) + 1
    {
      if pos >= length {
        pos := 0;
      }
      step := bits[pos];
      pos := pos + 1;
    }

    /** One pass of `next` over the whole sequence. */
    method Print() returns (line: Word)
      requires Valid()
      modifies this`pos
      ensures Valid() && line == Play(bits, length, old(pos), length)
    {
      line := [];
      ghost var start := pos;
      for i := 0 to length
        invariant Valid()
        invariant line == Play(bits, length, start, i)
        invariant pos == PosAfter(length, start, i)
      {
        PlayMore(bits, length, start, i, 1);
        var step := Next();
        line := line + [step];
      }
    }

    method SetStep(k: nat, value: bool)
      requires Valid()
      modifies this`bits
      ensures Valid() && bits == if k < length then old(bits)[k := value] else old(bits)
    {
      if k < length {
        bits := bits[k := value];
      }
    }

    method ToggleStep(pad: nat) returns (value: bool)
      requires Valid() && 0 <= StepIndex(length, offset, pad) < WIDTH
      modifies this`bits
      ensures Valid() && value == old(bits)[StepIndex(length, offset, pad)]
      ensures bits == Toggled(old(bits), length, StepIndex(length, offset, pad))
      ensures var k := StepIndex(length, offset, pad);
        (k + offset) % length == pad % length && bits == if k < length then old(bits)[k := !value] else old(bits)
    {
      StepIndexMeans(length, offset, pad);
      var k := pad - offset;
      if k < 0 {
        k := k + length;
      }
      value := bits[k];
      SetStep(k, !value);
    }
  }

  /** The step a pad stands for, moved on by the offset, is the pad, up to whole laps. */
  lemma {:induction false} StepIndexMeans(length: nat, offset: int, pad: nat)
    requires length > 0
    ensures (StepIndex(length, offset, pad) + offset) % length == pad % length
  {
    if pad - offset < 0 {
      SameRemainder(pad + length, pad, length, 1);
    }
  }

  // ------------------------------------------------------------------- playing

  function PosAfter(length: nat, pos: nat, n: nat): nat {
    if n == 0 then pos
    else
      var p := PosAfter(length, pos, n - 1);
      (if p >= length then 0 else p) + 1
  }

  lemma {:induction false} PosAfterShift(length: nat, pos: nat, n: nat)
    ensures PosAfter(length, (if pos >= length then 0 else pos) + 1, n) == PosAfter(length, pos, n + 1)
  {
    if n > 0 {
      PosAfterShift(length, pos, n - 1);
    }
  }

  lemma {:induction false} PlayMore(bits: Word, length: nat, pos: nat, n: nat, m: nat)
    requires 0 < length <= |bits|
    ensures Play(bits, length, pos, n + m)
      == Play(bits, length, pos, n) + Play(bits, length, PosAfter(length, pos, n), m)
    decreases n
  {
    if n > 0 {
      var p := if pos >= length then 0 else pos;
      PlayMore(bits, length, p + 1, n - 1, m);
      PosAfterShift(length, pos, n - 1);
    }
  }

  /** Up to one lap of playing is a cyclic window of the sequence. */
  lemma {:induction false} PlayIsWindow(bits: Word, length: nat, pos: nat, n: nat)
    requires 0 < length <= |bits| && n <= length
    ensures var w, p := bits[..length], if pos >= length then 0 else pos;
      Play(bits, length, pos, n) == (w + w)[p..p + n]
    decreases n
  {
    var w, p := bits[..length], if pos >= length then 0 else pos;
    if n > 0 {
      PlayIsWindow(bits, length, p + 1, n - 1);
      WindowStep(w, p, n);
      assert w[p] == bits[p];
    }
  }

  lemma WindowStep(w: Word, p: nat, n: nat)
    requires p < |w| && 0 < n <= |w|
    ensures var q := if p + 1 >= |w| then 0 else p + 1;
      (w + w)[p..p + n] == [w[p]] + (w + w)[q..q + n - 1]
  {
    var q := if p + 1 >= |w| then 0 else p + 1;
    assert (w + w)[p..p + n] == [(w + w)[p]] + (w + w)[p + 1..p + n];
    assert (w + w)[p + 1..p + n] == (w + w)[q..q + n - 1];
  }

  lemma RhythmLength(steps: nat, fills: nat)
    requires InWord(steps, fills)
    ensures |Rhythm(steps, fills)| <= WIDTH
    ensures fills == 0 || |Rhythm(steps, fills)| >= steps
  {
    if fills > 0 {
      RhythmPulses(steps, fills);
      RepeatCounts([true], fills);
    }
  }

  lemma PaddedPrefix(steps: nat, fills: nat)
    requires InWord(steps, fills)
    ensures |Rhythm(steps, fills)| <= WIDTH
    ensures fills > 0 ==> |Rhythm(steps, fills)| >= steps
    ensures Padded(Rhythm(steps, fills), WIDTH)[..steps]
      == if fills > 0 then Rhythm(steps, fills)[..steps] else Clear(steps)
  {
    RhythmLength(steps, fills);
  }

  /**
    Main theorem: once calculated, one lap of `next` calls from any position
    plays as many pulses as were asked for, or every step if that is more.
  */
  lemma LapPulses(steps: nat, fills: nat, pos: nat)
    requires InWord(steps, fills) && |Rhythm(steps, fills)| <= WIDTH
    ensures Ones(Play(Padded(Rhythm(steps, fills), WIDTH), steps, pos, steps)) == if fills <= steps then fills else steps
  {
    hide Play, Ones, Rhythm;
    var bits := Padded(Rhythm(steps, fills), WIDTH);
    var w, p := bits[..steps], if pos >= steps then 0 else pos;
    PlayIsWindow(bits, steps, pos, steps);
    LapOnes(w, p);
    StepPulses(steps, fills);
  }

  lemma {:induction false} LapOnes(w: Word, p: nat)
    requires p <= |w|
    ensures Ones((w + w)[p..p + |w|]) == Ones(w)
  {
    var u, v := w[..p], w[p..];
    assert (w + w)[p..p + |w|] == v + u;
    assert w == u + v;
    OnesConcat(v, u);
    OnesConcat(u, v);
  }

  lemma StepPulses(steps: nat, fills: nat)
    requires InWord(steps, fills) && |Rhythm(steps, fills)| <= WIDTH
    ensures Ones(Padded(Rhythm(steps, fills), WIDTH)[..steps]) == if fills <= steps then fills else steps
  {
    PaddedPrefix(steps, fills);
    if fills == 0 {
      AllRests(Clear(steps));
    } else {
      RhythmPulses(steps, fills);
    }
  }

  lemma StepsBalanced(steps: nat, fills: nat)
    requires InWord(steps, fills) && |Rhythm(steps, fills)| <= WIDTH
    ensures Balanced(Padded(Rhythm(steps, fills), WIDTH)[..steps])
  {
    PaddedPrefix(steps, fills);
    if fills == 0 {
      RestsAreRests(steps);
      assert Pattern(steps, 0) == Clear(steps);
      PatternBalanced(steps, 0);
    } else if fills <= steps {
      RhythmPulses(steps, fills);
      assert Rhythm(steps, fills)[..steps] == Rhythm(steps, fills);
      RhythmBalanced(steps, fills);
    } else {
      PulsePrefix(fills, steps);
      RepeatedPulses(steps);
      assert Rhythm(steps, fills)[..steps] == Repeat([true], fills)[..steps];
      PulsesBalanced(Repeat([true], steps));
    }
  }

  lemma {:induction false} RepeatedPulses(n: nat)
    ensures |Repeat([true], n)| == n && forall i :: 0 <= i < n ==> Repeat([true], n)[i]
  {
    if n > 0 {
      RepeatedPulses(n - 1);
    }
  }

  /** One lap plays every step of the loop once, from any position. */
  lemma LapPlays(bits: Word, length: nat, pos: nat)
    requires 0 < length <= |bits|
    ensures Ones(Play(bits, length, pos, length)) == Ones(bits[..length])
  {
    PlayIsWindow(bits, length, pos, length);
    LapOnes(bits[..length], if pos >= length then 0 else pos);
  }

  /** Wherever two runs of `k` calls start, and however long they are, their pulse counts differ by at most one. */
  lemma {:induction false} PlayBalanced(steps: nat, fills: nat, pos: nat, pos': nat, k: nat)
    requires InWord(steps, fills) && |Rhythm(steps, fills)| <= WIDTH
    ensures var bits := Padded(Rhythm(steps, fills), WIDTH);
      -1 <= Ones(Play(bits, steps, pos, k)) - Ones(Play(bits, steps, pos', k)) <= 1
    decreases k
  {
    hide Play, Ones, Rhythm;
    var bits := Padded(Rhythm(steps, fills), WIDTH);
    var w := bits[..steps];
    if k <= steps {
      PlayIsWindow(bits, steps, pos, k);
      PlayIsWindow(bits, steps, pos', k);
      StepsBalanced(steps, fills);
      var p, p' := if pos >= steps then 0 else pos, if pos' >= steps then 0 else pos';
      assert -1 <= Window(w, p, k) - Window(w, p', k) <= 1;
    } else {
      var q, q', m := PosAfter(steps, pos, steps), PosAfter(steps, pos', steps), k - steps;
      PlayBalanced(steps, fills, q, q', m);
      LapPlays(bits, steps, pos);
      LapPlays(bits, steps, pos');
      PlayMore(bits, steps, pos, steps, m);
      PlayMore(bits, steps, pos', steps, m);
      OnesConcat(Play(bits, steps, pos, steps), Play(bits, steps, q, m));
      OnesConcat(Play(bits, steps, pos', steps), Play(bits, steps, q', m));
    }
  }

  // ------------------------------------------------------------------ rotating

  /** C's remainder stored in 8 bits is where the number lands. */
  lemma {:induction false} StoredRemainder(x: int, n: nat)
    requires 0 < n <= WIDTH
    ensures Uint8(TruncMod(x, n)) == Landing(x, n)
    ensures Landing(x, n) < n <==> x >= 0 || x % n == 0
  {
    if x >= 0 {
      TruncFacts(x, n);
      SmallMod(x % n);
    } else {
      var m := 0 - x;
      DivMod(m, n);
      NegatedRemainder(x, n, m / n, m % n);
      NegativeByte(m % n, n);
    }
  }

  lemma {:induction false} SmallMod(x: nat)
    requires x < 256
    ensures Uint8(x) == x
  {
  }

  lemma {:induction false} NegativeByte(m: int, n: int)
    requires 0 <= m < n <= WIDTH
    ensures Uint8(-m) == if m == 0 then 0 else 256 - m
  {
  }

  /**
    Rotating lands on a step of the sequence just when the sum it divides is not
    negative or a multiple of the length; then it keeps the distance from the
    offset to the playing position.  Otherwise the position stored is past the end.
  */
  lemma {:induction false} RotateKeepsPhase(length: nat, pos: nat, offset: int, steps: int)
    requires 0 < length <= WIDTH
    ensures var p, sum := RotatedPos(length, pos, offset, steps), pos + steps - offset;
      && (p < length <==> length + sum >= 0 || sum % length == 0)
      && (p < length ==> (p - steps) % length == (pos - offset) % length)
  {
    var sum := length + pos + steps - offset;
    StoredRemainder(sum, length);
    SameRemainder(sum, sum - length, length, 1);
    ModAsDifference(sum, length);
    SameRemainder(sum % length - steps, pos - offset, length, 1 - sum / length) by {
      assert length * (1 - sum / length) == length + length * -(sum / length);
    }
  }

  /** Offsets within 0..length, as the Euklid example keeps while the length stays, never miss. */
  lemma {:induction false} RotateInRange(length: nat, pos: nat, offset: int, steps: int)
    requires 0 < length <= WIDTH && 0 <= offset <= length && 0 <= steps
    ensures RotatedPos(length, pos, offset, steps) < length
  {
    RotateKeepsPhase(length, pos, offset, steps);
  }

  /** After the length shrank below the old offset a rotation can miss: length 5, offset 16, rotate to 5. */
  lemma RotateCanMiss()
    ensures RotatedPos(5, 0, 16, 5) == 255
  {
  }

  /** Of two rotations the second alone counts. */
  lemma {:induction false} RotateTwice(length: nat, pos: nat, offset: int, first: int, second: int)
    requires 0 < length <= WIDTH && 0 <= first <= length && 0 <= second && 0 <= offset <= length
    ensures RotatedPos(length, RotatedPos(length, pos, offset, first), first, second)
      == RotatedPos(length, pos, offset, second)
  {
    var mid := RotatedPos(length, pos, offset, first);
    RotateInRange(length, pos, offset, first);
    RotateKeepsPhase(length, pos, offset, first);
    RotateKeepsPhase(length, pos, offset, second);
    RotateKeepsPhase(length, mid, first, second);
    RotateInRange(length, pos, offset, second);
    RotateInRange(length, mid, first, second);
    var p, q := RotatedPos(length, mid, first, second), RotatedPos(length, pos, offset, second);
    SamePhase(length, p, q, second, pos - offset);
  }

  /** So is a chain of any length. */
  lemma {:induction false} RotateChain(length: nat, pos: nat, offset: int, steps: seq<int>)
    requires 0 < length <= WIDTH && 0 <= offset <= length
    requires steps != [] && forall i :: 0 <= i < |steps| ==> 0 <= steps[i] <= length
    ensures RotateAll(length, pos, offset, steps) == RotatedPos(length, pos, offset, steps[|steps| - 1])
  {
    hide RotatedPos;
    var n := |steps| - 1;
    if n > 0 {
      RotateChain(length, pos, offset, steps[..n]);
      RotateTwice(length, pos, offset, steps[n - 1], steps[n]);
    }
  }

  /** Two positions below the length at the same distance from the same offset are the same. */
  lemma {:induction false} SamePhase(n: nat, p: nat, q: nat, s: int, x: int)
    requires 0 < n && p < n && q < n && (p - s) % n == x % n && (q - s) % n == x % n
    ensures p == q
  {
    ModAsDifference(p - s, n);
    ModAsDifference(q - s, n);
    var k, l := (p - s) / n, (q - s) / n;
    assert n * (k - l) == n * -l - n * -k;
    NoGap(n, k - l, p - q);
  }

  /** Toggling a pad twice restores the sequence, whatever the rotation. */
  lemma ToggleTwice(bits: Word, length: nat, k: int)
    requires 0 <= k < |bits|
    ensures Toggled(Toggled(bits, length, k), length, k) == bits
  {
  }
}
