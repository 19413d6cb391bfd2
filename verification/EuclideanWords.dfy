/**
  The pure theory behind the Bjorklund rhythm generator: words over
  rest (`false`) and pulse (`true`), the Euclid-style recursion that spreads
  pulses over slots, and why the result is balanced.

  The key device is the height walk of a word with `a` rests and `b` pulses: a
  rest climbs by `b`, a pulse falls by `a`.  The walk over the whole word returns
  to 0, and a word whose walk stays within a band narrower than `a + b` is
  balanced when read cyclically.
*/
module EuclideanWords {
  import opened IntMath

  type Word = seq<bool>

  function Ones(w: Word): (n: nat)
    ensures n <= |w|
  {
    if w == [] then 0 else Ones(w[..|w| - 1]) + (if w[|w| - 1] then 1 else 0)
  }

  function Zeros(w: Word): nat {
    |w| - Ones(w)
  }

  function Repeat(w: Word, n: int): Word {
    if n <= 0 then [] else Repeat(w, n - 1) + w
  }

  /** What one letter of a pattern becomes one level further down. */
  function Image(c: nat, letter: bool): Word {
    if letter then [false] else Repeat([false], c) + [true]
  }

  function Subst(c: nat, w: Word): Word {
    if w == [] then [] else Subst(c, w[..|w| - 1]) + Image(c, w[|w| - 1])
  }

  /** The pattern that spreads `b` pulses among `a` rests: Euclid's algorithm on (a, b). */
  function Pattern(a: nat, b: nat): Word
    decreases b
  {
    if b == 0 then Repeat([false], a)
    else if b == 1 then Repeat([false], a) + [true]
    else Subst(a / b, Pattern(b, a % b))
  }

  function Height(a: int, b: int, w: Word): int {
    b * Zeros(w) - a * Ones(w)
  }

  /** The walk of `w` stays within a band narrower than the word is long. */
  ghost predicate Narrow(w: Word) {
    forall i, j :: 0 <= i <= |w| && 0 <= j <= |w| ==>
      Height(Zeros(w), Ones(w), w[..i]) - Height(Zeros(w), Ones(w), w[..j]) < |w|
  }

  /** Pulses in the window of `k` slots that starts at slot `i`, the word read cyclically. */
  function Window(w: Word, i: nat, k: nat): nat
    requires i <= |w| && k <= |w|
  {
    Ones((w + w)[i..i + k])
  }

  ghost predicate Balanced(w: Word) {
    forall i, j, k :: 0 <= i <= |w| && 0 <= j <= |w| && 0 <= k <= |w| ==>
      -1 <= Window(w, i, k) - Window(w, j, k) <= 1
  }

  // ---------------------------------------------------------------- counting

  lemma {:induction false} OnesConcat(v: Word, w: Word)
    ensures Ones(v + w) == Ones(v) + Ones(w)
    ensures Zeros(v + w) == Zeros(v) + Zeros(w)
    decreases |w|
  {
    if w == [] {
      assert v + w == v;
    } else {
      var u := w[..|w| - 1];
      assert (v + w)[..|v + w| - 1] == v + u;
      OnesConcat(v, u);
    }
  }

  lemma {:induction false} RepeatCounts(w: Word, n: nat)
    ensures |Repeat(w, n)| == n * |w|
    ensures Ones(Repeat(w, n)) == n * Ones(w)
  {
    if n > 0 {
      RepeatCounts(w, n - 1);
      OnesConcat(Repeat(w, n - 1), w);
      assert n * |w| == (n - 1) * |w| + |w|;
      assert n * Ones(w) == (n - 1) * Ones(w) + Ones(w);
    }
  }

  lemma {:induction false} RestsAreRests(n: nat)
    ensures |Repeat([false], n)| == n
    ensures forall i :: 0 <= i < n ==> !Repeat([false], n)[i]
    ensures Ones(Repeat([false], n)) == 0
  {
    if n > 0 {
      RestsAreRests(n - 1);
      assert Repeat([false], n)[..n - 1] == Repeat([false], n - 1);
    }
  }

  lemma {:induction false} RestsPrefix(n: nat, k: nat)
    requires k <= n
    ensures |Repeat([false], n)| == n
    ensures Repeat([false], n)[..k] == Repeat([false], k)
  {
    RestsAreRests(n);
    RestsAreRests(k);
  }

  lemma {:induction false} ImageCounts(c: nat, letter: bool)
    ensures Ones(Image(c, letter)) == if letter then 0 else 1
    ensures Zeros(Image(c, letter)) == if letter then 1 else c
  {
    RestsAreRests(c);
    OnesConcat(Repeat([false], c), [true]);
    assert Ones([true]) == 1 && Ones([false]) == 0;
  }

  lemma {:induction false} OnesSplit(w: Word)
    requires w != []
    ensures var v, last := w[..|w| - 1], w[|w| - 1];
      Ones(w) == Ones(v) + (if last then 1 else 0) && Zeros(w) == Zeros(v) + (if last then 0 else 1)
  {
  }

  lemma {:induction false} SubstCounts(c: nat, w: Word)
    ensures Ones(Subst(c, w)) == Zeros(w)
    ensures Zeros(Subst(c, w)) == c * Zeros(w) + Ones(w)
  {
    if w != [] {
      var v, last := w[..|w| - 1], w[|w| - 1];
      SubstCounts(c, v);
      ImageCounts(c, last);
      OnesConcat(Subst(c, v), Image(c, last));
      MulSucc(c, Zeros(v));
      OnesSplit(w);
      hide Ones, Zeros, Image;
      assert Ones(Subst(c, w)) == Zeros(v) + (if last then 0 else 1);
      assert Zeros(Subst(c, w)) == c * Zeros(v) + Ones(v) + (if last then 1 else c);
    }
  }

  /** The pattern has one letter per slot and exactly `b` pulses. */
  lemma {:induction false} PatternCounts(a: nat, b: nat)
    ensures Zeros(Pattern(a, b)) == a
    ensures Ones(Pattern(a, b)) == b
    decreases b
  {
    if b <= 1 {
      RestsAreRests(a);
      OnesConcat(Repeat([false], a), [true]);
      assert Ones([true]) == 1;
    } else {
      DivMod(a, b);
      var q, r := a / b, a % b;
      PatternCounts(b, r);
      SubstPatternCounts(q, r, a, b, Pattern(b, r));
    }
  }

  lemma {:induction false} SubstPatternCounts(q: nat, r: nat, a: nat, b: nat, w: Word)
    requires Zeros(w) == b && Ones(w) == r && a == q * b + r
    ensures Zeros(Subst(q, w)) == a && Ones(Subst(q, w)) == b
  {
    SubstCounts(q, w);
  }

  // ----------------------------------------------------------------- balance

  /** A prefix of a substituted word is some substituted prefix plus a run of rests. */
  lemma {:induction false} SubstPrefix(c: nat, w: Word, m: nat) returns (i: nat, k: nat)
    requires m <= |Subst(c, w)|
    ensures i <= |w| && k <= c
    ensures Subst(c, w)[..m] == Subst(c, w[..i]) + Repeat([false], k)
  {
    var t := Subst(c, w);
    if m == |t| {
      i, k := |w|, 0;
      assert w[..i] == w && t[..m] == t + [];
    } else {
      var v, letter := w[..|w| - 1], w[|w| - 1];
      var u, img := Subst(c, v), Image(c, letter);
      assert t == u + img;
      if m < |u| {
        i, k := SubstPrefix(c, v, m);
        assert v[..i] == w[..i];
        assert t[..m] == u[..m];
      } else {
        i, k := |v|, m - |u|;
        assert w[..i] == v && t[..m] == u + img[..k];
        ImagePrefix(c, letter, k);
      }
    }
  }

  lemma {:induction false} ImagePrefix(c: nat, letter: bool, k: nat)
    requires k < |Image(c, letter)|
    ensures k <= c && Image(c, letter)[..k] == Repeat([false], k)
  {
    RestsAreRests(c);
    RestsPrefix(if letter then 0 else c, k);
  }

  /** One substitution flips the walk: at block boundaries the new height is minus the old. */
  lemma {:induction false} SubstHeight(c: nat, w: Word, i: nat, k: nat, a: nat, b: nat)
    requires i <= |w|
    ensures Height(c * a + b, a, Subst(c, w[..i]) + Repeat([false], k)) == a * k - Height(a, b, w[..i])
  {
    var v := w[..i];
    var t := Subst(c, v) + Repeat([false], k);
    SubstCounts(c, v);
    RestsAreRests(k);
    OnesConcat(Subst(c, v), Repeat([false], k));
    SubstHeightArith(c, a, b, k, Zeros(v), Ones(v), Zeros(t), Ones(t));
  }

  lemma {:induction false} SubstHeightArith(c: int, a: int, b: int, k: int, z: int, o: int, z': int, o': int)
    requires z' == c * z + o + k && o' == z
    ensures a * z' - (c * a + b) * o' == a * k - (b * z - a * o)
  {
    assert a * z' == a * (c * z) + a * o + a * k;
    assert (c * a + b) * z == c * a * z + b * z;
    assert a * (c * z) == c * a * z;
  }

  lemma {:induction false} NarrowSubst(c: nat, w: Word)
    requires Narrow(w)
    ensures Narrow(Subst(c, w))
  {
    var t := Subst(c, w);
    SubstCounts(c, w);
    forall p, q | 0 <= p <= |t| && 0 <= q <= |t|
      ensures Height(Zeros(t), Ones(t), t[..p]) - Height(Zeros(t), Ones(t), t[..q]) < |t|
    {
      SubstBand(c, w, p, q, Zeros(w), Ones(w));
    }
  }

  lemma {:induction false} SubstBand(c: nat, w: Word, p: nat, q: nat, a: nat, b: nat)
    requires Narrow(w) && a == Zeros(w) && b == Ones(w)
    requires p <= |Subst(c, w)| && q <= |Subst(c, w)|
    ensures Height(c * a + b, a, Subst(c, w)[..p]) - Height(c * a + b, a, Subst(c, w)[..q]) < c * a + b + a
  {
    var i, k := SubstPrefix(c, w, p);
    var j, l := SubstPrefix(c, w, q);
    SubstHeight(c, w, i, k, a, b);
    SubstHeight(c, w, j, l, a, b);
    assert Height(a, b, w[..j]) - Height(a, b, w[..i]) < |w|;
    Monotone(a, k, c);
    Monotone(a, 0, l);
  }

  lemma {:induction false} NarrowRests(a: nat)
    requires a > 0
    ensures Narrow(Repeat([false], a))
  {
    var v := Repeat([false], a);
    RestsAreRests(a);
    forall i | 0 <= i <= |v|
      ensures Height(Zeros(v), Ones(v), v[..i]) == 0
    {
      AllRests(v[..i]);
    }
  }

  lemma {:induction false} AllPulses(w: Word)
    requires forall j :: 0 <= j < |w| ==> w[j]
    ensures Ones(w) == |w|
  {
    if w != [] {
      AllPulses(w[..|w| - 1]);
    }
  }

  /** A loop without rests is balanced. */
  lemma {:induction false} PulsesBalanced(w: Word)
    requires forall j :: 0 <= j < |w| ==> w[j]
    ensures Balanced(w)
  {
    if w == [] {
      assert forall i, k :: 0 <= i <= 0 && 0 <= k <= 0 ==> Window(w, i, k) == 0;
    } else {
      AllPulses(w);
      forall i | 0 <= i <= |w|
        ensures Height(0, |w|, w[..i]) == 0
      {
        AllPulses(w[..i]);
      }
      NarrowBalanced(w);
    }
  }

  lemma {:induction false} NarrowOnePulse(a: nat)
    ensures Narrow(Repeat([false], a) + [true])
  {
    hide Height;
    var v := Repeat([false], a);
    var w := v + [true];
    RestsAreRests(a);
    OnesConcat(v, [true]);
    assert Ones([true]) == 1;
    forall i | 0 <= i <= |w|
      ensures 0 <= Height(Zeros(w), Ones(w), w[..i]) <= a
    {
      OnePulseHeight(a, v, i);
    }
  }

  lemma {:induction false} OnePulseHeight(a: nat, v: Word, i: nat)
    requires |v| == a && i <= a + 1 && forall j :: 0 <= j < a ==> !v[j]
    ensures 0 <= Height(a, 1, (v + [true])[..i]) <= a
  {
    var u := (v + [true])[..i];
    if i > a {
      assert u == v + [true];
      AllRests(v);
      OnesConcat(v, [true]);
      assert Ones([true]) == 1;
      assert Height(a, 1, u) == a - a * 1;
    } else {
      AllRests(u);
      assert Height(a, 1, u) == i - a * 0;
    }
  }

  lemma {:induction false} NarrowPattern(a: nat, b: nat)
    requires a + b > 0
    ensures Narrow(Pattern(a, b))
    decreases b
  {
    if b == 0 {
      NarrowRests(a);
    } else if b == 1 {
      NarrowOnePulse(a);
    } else {
      DivMod(a, b);
      var q, r := a / b, a % b;
      NarrowPattern(b, r);
      NarrowSubst(q, Pattern(b, r));
    }
  }

  /** Counting the pulses of a cyclic prefix that runs at most one lap over the end. */
  lemma {:induction false} CyclicPrefix(w: Word, m: nat)
    requires m <= 2 * |w|
    ensures m <= |w| ==> Ones((w + w)[..m]) == Ones(w[..m])
    ensures m > |w| ==> Ones((w + w)[..m]) == Ones(w) + Ones(w[..m - |w|])
  {
    var ww := w + w;
    if m <= |w| {
      assert ww[..m] == w[..m];
    } else {
      var v := w[..m - |w|];
      assert ww[..m] == w + v;
      OnesConcat(w, v);
    }
  }

  /** A window is what two prefixes of the word differ by, up to one whole lap. */
  lemma {:induction false} WindowCounts(w: Word, i: nat, k: nat) returns (p: nat, q: nat, over: bool)
    requires i <= |w| && k <= |w|
    ensures p <= |w| && q <= |w|
    ensures Ones(w[..p]) == Ones(w[..q]) + Window(w, i, k) - (if over then Ones(w) else 0)
    ensures Zeros(w[..p]) == Zeros(w[..q]) + (k - Window(w, i, k)) - (if over then Zeros(w) else 0)
  {
    hide Ones;
    over := i + k > |w|;
    p, q := if over then i + k - |w| else i + k, i;
    CyclicPrefix(w, i);
    CyclicPrefix(w, i + k);
    assert (w + w)[..i + k] == (w + w)[..i] + (w + w)[i..i + k];
    OnesConcat((w + w)[..i], (w + w)[i..i + k]);
  }

  /** The walk of a window is a difference of two prefix walks of the word itself. */
  lemma {:induction false} WindowHeight(w: Word, i: nat, k: nat, a: int, b: int) returns (p: nat, q: nat)
    requires i <= |w| && k <= |w| && a == Zeros(w) && b == Ones(w)
    ensures p <= |w| && q <= |w|
    ensures b * k - (a + b) * Window(w, i, k) == Height(a, b, w[..p]) - Height(a, b, w[..q])
  {
    var over;
    p, q, over := WindowCounts(w, i, k);
    WindowArith(a, b, k, Window(w, i, k), Zeros(w[..q]), Ones(w[..q]), over, Zeros(w[..p]), Ones(w[..p]));
  }

  lemma {:induction false} WindowArith(a: int, b: int, k: int, x: int, z: int, o: int, over: bool, z': int, o': int)
    requires z' == z + (k - x) - (if over then a else 0)
    requires o' == o + x - (if over then b else 0)
    ensures b * z' - a * o' - (b * z - a * o) == b * k - (a + b) * x
  {
    assert b * z' == b * z + b * k - b * x - (if over then b * a else 0);
    assert a * o' == a * o + a * x - (if over then a * b else 0);
    assert (a + b) * x == a * x + b * x;
  }

  /** Any cyclic window of `k` slots holds `k * pulses / slots` pulses, rounded either way. */
  lemma {:induction false} NarrowWindow(w: Word, i: nat, k: nat)
    requires Narrow(w) && w != [] && i <= |w| && k <= |w|
    ensures -|w| < Ones(w) * k - |w| * Window(w, i, k) < |w|
  {
    var p, q := WindowHeight(w, i, k, Zeros(w), Ones(w));
  }

  lemma {:induction false} NarrowBalanced(w: Word)
    requires Narrow(w)
    ensures Balanced(w)
  {
    forall i, j, k | 0 <= i <= |w| && 0 <= j <= |w| && 0 <= k <= |w|
      ensures -1 <= Window(w, i, k) - Window(w, j, k) <= 1
    {
      if w != [] {
        NarrowWindow(w, i, k);
        NarrowWindow(w, j, k);
        CloseMultiples(|w|, Ones(w) * k, Window(w, i, k), Window(w, j, k));
      }
    }
  }

  lemma {:induction false} CloseMultiples(n: int, m: int, x: int, y: int)
    requires 0 <= n && -n < m - n * x < n && -n < m - n * y < n
    ensures -1 <= x - y <= 1
  {
    if x - y >= 2 {
      Monotone(n, y + 2, x);
    } else if y - x >= 2 {
      Monotone(n, x + 2, y);
    }
  }

  /** Main theorem: every pattern is balanced. */
  lemma {:induction false} PatternBalanced(a: nat, b: nat)
    ensures Balanced(Pattern(a, b))
  {
    PatternCounts(a, b);
    if a + b > 0 {
      NarrowPattern(a, b);
      NarrowBalanced(Pattern(a, b));
    } else {
      assert Pattern(a, b) == [];
    }
  }

  /**
    Consecutive pulses, the pattern read cyclically, are `slots / pulses` apart
    rounded down or up.  A pulse at slot `i`, the next one `d` slots later.
  */
  lemma {:induction false} PatternGap(a: nat, b: nat, i: nat, d: nat)
    requires b >= 1 && i < a + b && 1 <= d <= a + b
    requires |Pattern(a, b)| == a + b
    requires var w := Pattern(a, b); (w + w)[i] && (w + w)[i + d] && forall j :: i < j < i + d ==> !(w + w)[j]
    ensures (a + b) / b <= d <= (a + b + b - 1) / b
  {
    var w := Pattern(a, b);
    var n := a + b;
    PatternCounts(a, b);
    NarrowPattern(a, b);
    GapBelow(w, i, d);
    GapAbove(w, i, d);
    DivideBounds(n, b, d);
  }

  /** The `d - 1` slots strictly between two consecutive pulses hold none. */
  lemma {:induction false} GapBelow(w: Word, i: nat, d: nat)
    requires Narrow(w) && i < |w| && 1 <= d <= |w|
    requires forall j :: i < j < i + d ==> !(w + w)[j]
    ensures Ones(w) * d < |w| + Ones(w)
  {
    if i + 1 <= |w| {
      NarrowWindow(w, i + 1, d - 1);
      AllRests((w + w)[i + 1..i + d]);
    }
    MulSucc(Ones(w), d - 1);
  }

  /** The `d + 1` slots from one pulse up to and including the next hold two. */
  lemma {:induction false} GapAbove(w: Word, i: nat, d: nat)
    requires Narrow(w) && i < |w| && 1 <= d <= |w|
    requires (w + w)[i] && (w + w)[i + d] && forall j :: i < j < i + d ==> !(w + w)[j]
    ensures |w| - Ones(w) < Ones(w) * d
  {
    var b := Ones(w);
    if d + 1 <= |w| {
      NarrowWindow(w, i, d + 1);
      TwoPulses((w + w)[i..i + d + 1]);
      TwoInWindow(|w|, b, d, Window(w, i, d + 1));
    } else {
      assert (w + w)[i] == w[i];
      HasPulse(w, i);
      Monotone(d, 1, b);
    }
  }

  lemma {:induction false} TwoInWindow(n: int, b: int, d: int, x: int)
    requires x == 2 && b * (d + 1) - n * x < n && -n < b * (d + 1) - n * x
    ensures n - b < b * d
  {
    MulSucc(b, d);
  }

  lemma {:induction false} TwoPulses(w: Word)
    requires |w| >= 2 && w[0] && w[|w| - 1] && forall j :: 0 < j < |w| - 1 ==> !w[j]
    ensures Ones(w) == 2
  {
    var v := w[1..|w| - 1];
    assert w == [true] + v + [true];
    AllRests(v);
    OnesConcat([true] + v, [true]);
    OnesConcat([true], v);
    assert Ones([true]) == 1;
  }

  lemma {:induction false} HasPulse(w: Word, i: nat)
    requires i < |w| && w[i]
    ensures Ones(w) >= 1
  {
    assert w == w[..i] + w[i..] && w[i..] == [true] + w[i + 1..];
    OnesConcat(w[..i], w[i..]);
    OnesConcat([true], w[i + 1..]);
    assert Ones([true]) == 1;
  }

  lemma {:induction false} AllRests(w: Word)
    requires forall j :: 0 <= j < |w| ==> !w[j]
    ensures Ones(w) == 0
  {
    if w != [] {
      AllRests(w[..|w| - 1]);
    }
  }

  lemma {:induction false} DivideBounds(n: nat, b: nat, d: nat)
    requires b >= 1 && n - b < b * d < n + b
    ensures n / b <= d <= (n + b - 1) / b
  {
    var lo, hi := n / b, (n + b - 1) / b;
    assert b * lo <= n && n - 1 < b * hi;
    if d < lo {
      Monotone(b, d, lo - 1);
    } else if d > hi {
      Monotone(b, hi + 1, d);
    }
  }

  // ------------------------------------------------------- how many longer gaps

  /** How far the next pulse at or after slot `i` is, or the end. */
  function Ahead(u: Word, i: nat): nat
    decreases |u| - i
  {
    if i >= |u| || u[i] then 0 else 1 + Ahead(u, i + 1)
  }

  /** The gap from a pulse at slot `i` of the looping word to the next pulse. */
  function Gap(w: Word, i: nat): nat {
    Ahead(w + w, i + 1) + 1
  }

  /** The pulses among the first `n` slots whose gap is longer than `q`. */
  function LongGaps(w: Word, q: nat, n: nat): nat
    requires n <= |w|
  {
    if n == 0 then 0 else LongGaps(w, q, n - 1) + (if w[n - 1] && Gap(w, n - 1) > q then 1 else 0)
  }

  lemma {:induction false} AheadFinds(u: Word, i: nat, k: nat)
    requires i <= k < |u| && u[k]
    ensures i + Ahead(u, i) <= k && u[i + Ahead(u, i)]
    ensures forall j :: i <= j < i + Ahead(u, i) ==> !u[j]
    decreases k - i
  {
    if !u[i] {
      AheadFinds(u, i + 1, k);
    }
  }

  /** A lap later the next pulse is just as far. */
  lemma {:induction false} AheadLap(w: Word)
    requires true in w
    ensures Ahead(w + w, |w|) == Ahead(w + w, 0)
  {
    var u, n := w + w, |w|;
    var k :| 0 <= k < n && w[k];
    AheadFinds(u, 0, k);
    AheadFinds(u, n, n + k);
    var a, b := Ahead(u, 0), Ahead(u, n);
    assert u[n + a] == u[a] && u[n + b] == u[b];
    AheadFinds(u, 0, b);
    AheadFinds(u, n, n + a);
  }

  /** Each gap of the pattern is its share of the slots, rounded either way. */
  lemma {:induction false} PatternGaps(a: nat, b: nat, i: nat)
    requires b >= 1 && |Pattern(a, b)| == a + b && i < a + b && Pattern(a, b)[i]
    ensures (a + b) / b <= Gap(Pattern(a, b), i) <= (a + b) / b + 1
  {
    var w := Pattern(a, b);
    AheadFinds(w + w, i + 1, i + |w|);
    PatternGap(a, b, i, Gap(w, i));
    CeilAtMost(a + b, b);
  }

  lemma {:induction false} CeilAtMost(n: nat, b: nat)
    requires b >= 1
    ensures (n + b - 1) / b <= n / b + 1
  {
    var q := (n + b - 1) / b;
    DivMod(n, b);
    DivMod(n + b - 1, b);
    if q > n / b + 1 {
      Monotone(b, n / b + 2, q);
    }
  }

  /** Gaps of `q` and `q + 1` over the first `n` slots fill them, up to where the next pulse is. */
  lemma {:induction false} GapsAddUp(w: Word, q: nat, n: nat)
    requires n <= |w|
    requires forall i :: 0 <= i < |w| && w[i] ==> q <= Gap(w, i) <= q + 1
    ensures q * Ones(w[..n]) + LongGaps(w, q, n) == n + Ahead(w + w, n) - Ahead(w + w, 0)
  {
    if n == 0 {
      assert q * Ones(w[..n]) == 0;
    } else {
      GapsAddUp(w, q, n - 1);
      assert w[..n][..n - 1] == w[..n - 1];
      assert (w + w)[n - 1] == w[n - 1];
      MulSucc(q, Ones(w[..n - 1]));
    }
  }

  /**
    Of the gaps between consecutive pulses, exactly `slots % pulses` are one longer
    than `slots / pulses`; the others are that long.
  */
  lemma {:induction false} LongerGaps(a: nat, b: nat)
    requires b >= 1
    ensures |Pattern(a, b)| == a + b
    ensures forall i :: 0 <= i < a + b && Pattern(a, b)[i] ==> (a + b) / b <= Gap(Pattern(a, b), i) <= (a + b) / b + 1
    ensures LongGaps(Pattern(a, b), (a + b) / b, a + b) == (a + b) % b
  {
    hide Pattern;
    var w, n := Pattern(a, b), a + b;
    var q := n / b;
    PatternCounts(a, b);
    forall i | 0 <= i < n && w[i]
      ensures q <= Gap(w, i) <= q + 1
    {
      PatternGaps(a, b, i);
    }
    if true !in w {
      AllRests(w);
    }
    AheadLap(w);
    GapsAddUp(w, q, n);
    assert w[..n] == w;
    DivMod(n, b);
  }

  // ------------------------------------------------------------ where it begins

  lemma {:induction false} SubstHead(c: nat, w: Word)
    requires w != []
    ensures Image(c, w[0]) <= Subst(c, w)
    decreases |w|
  {
    hide Image;
    var n := |w| - 1;
    if n == 0 {
      assert Subst(c, w) == [] + Image(c, w[0]);
    } else {
      SubstHead(c, w[..n]);
      assert w[..n][0] == w[0];
    }
  }

  /** With at least as many rests as pulses, the pattern begins with a rest. */
  lemma {:induction false} RestFirst(a: nat, b: nat)
    requires 1 <= a && b <= a
    ensures Pattern(a, b) != [] && !Pattern(a, b)[0]
    decreases b
  {
    RestsAreRests(a);
    if b >= 2 {
      DivMod(a, b);
      RestFirst(b, a % b);
      SubstHead(a / b, Pattern(b, a % b));
      RestsAreRests(a / b);
      QuotientPositive(a, b);
    }
  }

  lemma {:induction false} QuotientPositive(a: nat, b: nat)
    requires 1 <= b <= a
    ensures a / b >= 1
  {
  }

  /** The pattern begins with the rests that come to each pulse, rounded down, and then a pulse. */
  lemma {:induction false} PatternStarts(a: nat, b: nat)
    requires b >= 1
    ensures Repeat([false], a / b) + [true] <= Pattern(a, b)
  {
    if b >= 2 {
      DivMod(a, b);
      RestFirst(b, a % b);
      SubstHead(a / b, Pattern(b, a % b));
    }
  }
}
