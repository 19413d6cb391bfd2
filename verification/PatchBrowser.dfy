/** The patch browser of the ProgramChange example: stepping through the named slots of banks A to E. */
module PatchBrowser {
  import opened IntMath

  const BANKS: nat := 8               // in the patch database, A to H
  const MAX_BANK: nat := 4            // the browser stops at E
  const PROGRAMS_PER_BANK: nat := 128
  const TOTAL_SLOTS: nat := 640

  type Patches = p: seq<seq<string>> | |p| == BANKS && forall b :: 0 <= b < BANKS ==> |p[b]| == PROGRAMS_PER_BANK
    witness seq(BANKS, _ => seq(PROGRAMS_PER_BANK, _ => ""))

  function Name(p: Patches, bank: nat, program: nat): string {
    if bank >= BANKS || program >= PROGRAMS_PER_BANK then "" else p[bank][program]
  }

  /** Slots wrap around in both directions. */
  function SlotOf(t: int): nat {
    t % TOTAL_SLOTS
  }

  predicate Named(p: Patches, t: int) {
    var slot := SlotOf(t);
    Name(p, slot / PROGRAMS_PER_BANK, slot % PROGRAMS_PER_BANK) != ""
  }

  ghost predicate AnyNamed(p: Patches) {
    exists t {:trigger Named(p, t)} :: 0 <= t < TOTAL_SLOTS && Named(p, t)
  }

  /** A slot the browser may stop at: a named one, or any if the five banks hold no name. */
  ghost predicate Stops(p: Patches, t: int) {
    AnyNamed(p) ==> Named(p, t)
  }

  /** `next` is the nearest stop from `current` in the given direction, at most once around. */
  ghost predicate Nearest(p: Patches, current: int, up: bool, next: int) {
    if up then current < next <= current + TOTAL_SLOTS && Stops(p, next) && forall t :: current < t < next ==> !Stops(p, t)
    else current - TOTAL_SLOTS <= next < current && Stops(p, next) && forall t :: next < t < current ==> !Stops(p, t)
  }

  class Browser {
    var bank: nat
    var program: nat
    const patches: Patches

    ghost predicate Valid()
      reads this
    {
      bank <= MAX_BANK && program < PROGRAMS_PER_BANK
    }

    function Current(): (t: nat)
      requires Valid()
      reads this
      ensures t < TOTAL_SLOTS
    {
      bank * PROGRAMS_PER_BANK + program
    }

    constructor (patches: Patches)
      ensures Valid() && Current() == 0 && this.patches == patches
    {
      this.patches := patches;
      bank, program := 0, 0;
    }

    /** The two nested loops that look for any name at all. */
    method HasAnyNames() returns (any: bool)
      ensures any == AnyNamed(patches)
    {
      any := false;
      var b := 0;
      while b < MAX_BANK + 1 && !any
        invariant 0 <= b <= MAX_BANK + 1
        invariant any ==> AnyNamed(patches)
        invariant !any ==> forall t :: 0 <= t < b * PROGRAMS_PER_BANK ==> !Named(patches, t)
      {
        var k := 0;
        while k < PROGRAMS_PER_BANK
          invariant 0 <= k <= PROGRAMS_PER_BANK && !any
          invariant forall t :: 0 <= t < b * PROGRAMS_PER_BANK + k ==> !Named(patches, t)
        {
          var slot := b * PROGRAMS_PER_BANK + k;
          assert SlotOf(slot) == slot && slot / PROGRAMS_PER_BANK == b && slot % PROGRAMS_PER_BANK == k;
          if Name(patches, b, k) != "" {
            assert Named(patches, slot);
            any := true;
            break;
          }
          k := k + 1;
        }
        b := b + 1;
      }
    }

    /** Always lands on the nearest stop, so the clamped fallback after the loop is never reached. */
    method Advance(up: bool) returns (ghost next: int)
      requires Valid()
      modifies this`bank, this`program
      ensures Valid() && Current() == SlotOf(next)
      ensures Nearest(patches, old(Current()), up, next)
    {
      ghost var start := Current();
      var current := Current();
      var step := if up then 1 else -1;
      var hasAnyNames := HasAnyNames();
      var i := 1;
      while i <= TOTAL_SLOTS
        invariant 1 <= i <= TOTAL_SLOTS + 1
        invariant bank == old(bank) && program == old(program)
        invariant forall t :: (if up then current < t < current + i else current - i < t < current) ==> !Stops(patches, t)
      {
        next := if up then current + i else current - i;
        var candidate := TruncMod640(current + step * i);
        if candidate < 0 {
          candidate := candidate + TOTAL_SLOTS;
        }
        assert candidate == SlotOf(next);
        var b, k := candidate / PROGRAMS_PER_BANK, candidate % PROGRAMS_PER_BANK;
        if !hasAnyNames || Name(patches, b, k) != "" {
          bank, program := b, k;
          return;
        }
        i := i + 1;
      }
      StopWithinOneLap(patches, current, up);
      assert false;
      next := 0;
    }

    /** A run of clicks of the browse encoder or the browse buttons, each advancing once. */
    method Browse(ups: seq<bool>) returns (ghost trail: seq<nat>)
      requires Valid()
      modifies this`bank, this`program
      ensures Valid() && Trail(patches, ups, trail)
      ensures trail[0] == old(Current()) && trail[|ups|] == Current()
    {
      trail := [Current()];
      for i := 0 to |ups|
        invariant Valid() && Trail(patches, ups[..i], trail)
        invariant trail[0] == old(Current()) && trail[i] == Current()
      {
        var next := Advance(ups[i]);
        assert Click(patches, trail[i], ups[i], Current());
        TrailMore(patches, ups[..i], trail, ups[i], Current());
        assert ups[..i + 1] == ups[..i] + [ups[i]];
        trail := trail + [Current()];
      }
      assert ups[..|ups|] == ups;
    }
  }

  /** C's remainder keeps the sign of the dividend. */
  function TruncMod640(x: int): int {
    if x >= 0 then x % TOTAL_SLOTS else -(-x % TOTAL_SLOTS)
  }

  /** Slots are banks A to E one after the other, 128 programs each, and then A again. */
  lemma {:induction false} NamedMeans(p: Patches, bank: nat, program: nat, lap: int)
    requires bank <= 4 && program < 128
    ensures Named(p, bank * 128 + program + 640 * lap) <==> p[bank][program] != ""
    ensures Stops(p, bank * 128 + program + 640 * lap) <==>
      p[bank][program] != "" || forall b, k :: 0 <= b <= 4 && 0 <= k < 128 ==> p[b][k] == ""
  {
    hide Named;
    SlotNamed(p, bank, program, lap);
    if p[bank][program] == "" && forall b, k :: 0 <= b <= 4 && 0 <= k < 128 ==> p[b][k] == "" {
      forall t | 0 <= t < TOTAL_SLOTS
        ensures !Named(p, t)
      {
        SlotNamed(p, t / 128, t % 128, 0);
      }
    } else if p[bank][program] == "" {
      var b, k :| 0 <= b <= 4 && 0 <= k < 128 && p[b][k] != "";
      SlotNamed(p, b, k, 0);
      assert Named(p, b * 128 + k);
    }
  }

  lemma {:induction false} SlotNamed(p: Patches, bank: nat, program: nat, lap: int)
    requires bank <= 4 && program < 128
    ensures Named(p, bank * 128 + program + 640 * lap) <==> p[bank][program] != ""
  {
    var slot := 128 * bank + program;
    UniqueRemainder(640 * lap + slot, TOTAL_SLOTS, lap, slot);
    UniqueRemainder(slot, PROGRAMS_PER_BANK, bank, program);
    assert SlotOf(bank * 128 + program + 640 * lap) == slot;
  }

  /** The occurrence of `slot` in the lap that ends at `t`. */
  function InLap(t: int, slot: nat): (u: int)
    requires slot < TOTAL_SLOTS
    ensures t - TOTAL_SLOTS < u <= t && SlotOf(u) == slot
  {
    t - (t - slot) % TOTAL_SLOTS
  }

  /** Whether a slot is a stop does not depend on the lap. */
  lemma {:induction false} SameStop(p: Patches, t: int, u: int)
    requires SlotOf(t) == SlotOf(u)
    ensures Named(p, t) == Named(p, u) && Stops(p, t) == Stops(p, u)
  {
  }

  lemma {:induction false} OtherLap(t: int, m: int)
    ensures SlotOf(t + TOTAL_SLOTS * m) == SlotOf(t)
    ensures 0 <= t < TOTAL_SLOTS ==> SlotOf(t) == t
  {
  }

  lemma {:induction false} StopInLap(p: Patches, t: int) returns (u: int)
    ensures t - TOTAL_SLOTS < u <= t && Stops(p, u)
  {
    u := t;
    if AnyNamed(p) {
      var s :| 0 <= s < TOTAL_SLOTS && Named(p, s);
      u := InLap(t, s);
      OtherLap(s, 0);
      SameStop(p, s, u);
    }
  }

  lemma {:induction false} StopWithinOneLap(p: Patches, current: int, up: bool)
    ensures exists t ::
      (Stops(p, t) && if up then current < t <= current + TOTAL_SLOTS else current - TOTAL_SLOTS <= t < current)
  {
    hide Stops;
    var t := StopInLap(p, if up then current + TOTAL_SLOTS else current - 1);
  }

  // ------------------------------------------------------------------- one click

  /** In terms of names: the nearest named slot, or the slot next to it when there is no name at all. */
  lemma {:induction false} NearestMeans(p: Patches, current: int, up: bool, next: int)
    ensures Nearest(p, current, up, next) <==>
      if !AnyNamed(p) then next == (if up then current + 1 else current - 1)
      else if up then
        current < next <= current + TOTAL_SLOTS && Named(p, next) && forall t :: current < t < next ==> !Named(p, t)
      else
        current - TOTAL_SLOTS <= next < current && Named(p, next) && forall t :: next < t < current ==> !Named(p, t)
  {
    hide Named, AnyNamed;
    if AnyNamed(p) {
      assert forall t :: Stops(p, t) <==> Named(p, t);
    } else if up {
      assert Stops(p, current + 1);
    } else {
      assert Stops(p, current - 1);
    }
  }

  lemma {:induction false} NearestIsUnique(p: Patches, current: int, up: bool, a: int, b: int)
    requires Nearest(p, current, up, a) && Nearest(p, current, up, b)
    ensures a == b
  {
    hide Stops;
  }

  /** A search that starts laps away finds the same slot, as many laps away. */
  lemma {:induction false} NearestLap(p: Patches, current: int, up: bool, next: int, m: int)
    requires Nearest(p, current, up, next)
    ensures Nearest(p, current + TOTAL_SLOTS * m, up, next + TOTAL_SLOTS * m)
  {
    hide Stops, SlotOf;
    var shift := TOTAL_SLOTS * m;
    OtherLap(next, m);
    SameStop(p, next, next + shift);
    forall t | if up then current + shift < t < next + shift else next + shift < t < current + shift
      ensures !Stops(p, t)
    {
      OtherLap(t - shift, m);
      SameStop(p, t - shift, t);
      assert !Stops(p, t - shift);
    }
  }

  /** One call of `Advance`, by the positions before and after. */
  ghost predicate Click(p: Patches, current: nat, up: bool, after: nat) {
    exists next :: Nearest(p, current, up, next) && after == SlotOf(next)
  }

  /** From a stop, one click up and one click down again is where it started, and the other way round. */
  lemma {:induction false} UpDown(p: Patches, start: nat, up: bool, there: nat, back: nat)
    requires start < TOTAL_SLOTS && Stops(p, start)
    requires Click(p, start, up, there) && Click(p, there, !up, back)
    ensures back == start
  {
    hide Stops, SlotOf;
    var next :| Nearest(p, start, up, next) && there == SlotOf(next);
    var prior :| Nearest(p, there, !up, prior) && back == SlotOf(prior);
    var m := LapOf(next);
    NearestLap(p, there, !up, prior, m);
    assert Nearest(p, next, !up, start);
    NearestIsUnique(p, next, !up, start, prior + TOTAL_SLOTS * m);
    OtherLap(prior, m);
    OtherLap(start, 0);
  }

  lemma {:induction false} LapOf(t: int) returns (m: int)
    ensures t == SlotOf(t) + TOTAL_SLOTS * m
  {
    m := t / TOTAL_SLOTS;
  }

  // -------------------------------------------------------------- counting stops

  /** Stops t with a <= t < b. */
  ghost function Count(p: Patches, a: int, b: int): nat
    decreases b - a
  {
    if b <= a then 0 else Count(p, a, b - 1) + (if Stops(p, b - 1) then 1 else 0)
  }

  /** How many stops there are on the five banks. */
  ghost function StopCount(p: Patches): nat {
    Count(p, 0, TOTAL_SLOTS)
  }

  /** The stops from slot 0 up to `t`, counted negatively below 0. */
  ghost function Rank(p: Patches, t: int): int {
    if t >= 0 then Count(p, 0, t) else 0 - Count(p, t, 0)
  }

  lemma {:induction false} CountSplit(p: Patches, a: int, b: int, c: int)
    requires a <= b <= c
    ensures Count(p, a, c) == Count(p, a, b) + Count(p, b, c)
    decreases c - b
  {
    hide Stops;
    if b < c {
      CountSplit(p, a, b, c - 1);
    }
  }

  lemma {:induction false} CountNone(p: Patches, a: int, b: int)
    requires forall t :: a <= t < b ==> !Stops(p, t)
    ensures Count(p, a, b) == 0
    decreases b - a
  {
    hide Stops;
    if a < b {
      CountNone(p, a, b - 1);
    }
  }

  lemma {:induction false} CountOne(p: Patches, a: int)
    ensures Count(p, a, a + 1) == if Stops(p, a) then 1 else 0
  {
    hide Stops;
    assert Count(p, a, a) == 0;
  }

  lemma {:induction false} RankStep(p: Patches, a: int, b: int)
    requires a <= b
    ensures Rank(p, b) - Rank(p, a) == Count(p, a, b)
  {
    hide Count;
    if a >= 0 {
      CountSplit(p, 0, a, b);
    } else if b < 0 {
      CountSplit(p, a, b, 0);
    } else {
      CountSplit(p, a, 0, b);
    }
  }

  /** Any 640 slots in a row hold the same number of stops. */
  lemma {:induction false} CountLap(p: Patches, a: int, b: int)
    requires a <= b
    ensures Count(p, b, b + TOTAL_SLOTS) == Count(p, a, a + TOTAL_SLOTS)
    decreases b - a
  {
    hide Stops, Count, SlotOf;
    if a < b {
      CountLap(p, a, b - 1);
      var z := b - 1 + TOTAL_SLOTS;
      OtherLap(b - 1, 1);
      SameStop(p, b - 1, z);
      CountSplit(p, b - 1, b, z);
      CountSplit(p, b, z, z + 1);
      CountOne(p, b - 1);
      CountOne(p, z);
    }
  }

  lemma {:induction false} RankLap(p: Patches, t: int)
    ensures Rank(p, t + TOTAL_SLOTS) == Rank(p, t) + StopCount(p)
  {
    hide Count, Rank;
    RankStep(p, t, t + TOTAL_SLOTS);
    CountLap(p, if t < 0 then t else 0, if t < 0 then 0 else t);
  }

  /** Ranks of the same slot in different laps differ by a multiple of the number of stops. */
  lemma {:induction false} RankLaps(p: Patches, t: int, m: int)
    ensures Rank(p, t + TOTAL_SLOTS * m) == Rank(p, t) + StopCount(p) * m
    decreases if m < 0 then -m else m
  {
    hide Rank, StopCount;
    var n := StopCount(p);
    if m > 0 {
      RankLaps(p, t, m - 1);
      RankLap(p, t + TOTAL_SLOTS * (m - 1));
      MulSucc(n, m - 1);
    } else if m < 0 {
      RankLaps(p, t, m + 1);
      RankLap(p, t + TOTAL_SLOTS * m);
      MulSucc(n, m);
    } else {
      assert n * 0 == 0;
    }
  }

  lemma {:induction false} RankRange(p: Patches, t: int)
    requires 0 <= t < TOTAL_SLOTS && Stops(p, t)
    ensures 0 <= Rank(p, t) < StopCount(p)
  {
    hide Count, Stops;
    RankStep(p, t, TOTAL_SLOTS);
    CountSplit(p, t, t + 1, TOTAL_SLOTS);
    CountOne(p, t);
  }

  lemma {:induction false} RankInjective(p: Patches, s: int, t: int)
    requires Stops(p, s) && Stops(p, t) && Rank(p, s) == Rank(p, t)
    ensures s == t
  {
    hide Count, Stops, Rank;
    var a, b := if s < t then s else t, if s < t then t else s;
    if a < b {
      RankStep(p, a, b);
      CountSplit(p, a, a + 1, b);
      CountOne(p, a);
    }
  }

  /** Two stops on the five banks are the same when their ranks agree up to whole laps. */
  lemma {:induction false} SameRank(p: Patches, s: nat, t: nat, m: int)
    requires s < TOTAL_SLOTS && t < TOTAL_SLOTS && Stops(p, s) && Stops(p, t)
    requires Rank(p, s) - Rank(p, t) == StopCount(p) * m
    ensures s == t
  {
    hide Stops, Rank, StopCount;
    RankRange(p, s);
    RankRange(p, t);
    NoGap(StopCount(p), m, Rank(p, s) - Rank(p, t));
    RankInjective(p, s, t);
  }

  // ------------------------------------------------------------- runs of clicks

  /** The positions before, between and after a run of clicks. */
  ghost predicate Trail(p: Patches, ups: seq<bool>, trail: seq<nat>) {
    && |trail| == |ups| + 1 && trail[0] < TOTAL_SLOTS
    && forall i :: 0 <= i < |ups| ==> Click(p, trail[i], ups[i], trail[i + 1])
  }

  /** Clicks up less clicks down. */
  function Net(ups: seq<bool>): int {
    if ups == [] then 0 else Net(ups[..|ups| - 1]) + (if ups[|ups| - 1] then 1 else -1)
  }

  lemma {:induction false} TrailMore(p: Patches, ups: seq<bool>, trail: seq<nat>, up: bool, after: nat)
    requires Trail(p, ups, trail) && Click(p, trail[|ups|], up, after)
    ensures Trail(p, ups + [up], trail + [after])
  {
    hide Click;
  }

  lemma {:induction false} NearestRank(p: Patches, current: int, up: bool, next: int)
    requires Nearest(p, current, up, next) && Stops(p, current)
    ensures Stops(p, next) && Rank(p, next) == Rank(p, current) + (if up then 1 else -1)
  {
    hide Stops, Count, Rank;
    var a, b := if up then current else next, if up then next else current;
    RankStep(p, a, b);
    CountSplit(p, a, a + 1, b);
    CountOne(p, a);
    CountNone(p, a + 1, b);
  }

  /** A click moves the rank by one, up to a lap. */
  lemma {:induction false} ClickRank(p: Patches, current: nat, up: bool, after: nat) returns (m: int)
    requires Stops(p, current) && Click(p, current, up, after)
    ensures after < TOTAL_SLOTS && Stops(p, after)
    ensures Rank(p, after) + StopCount(p) * m == Rank(p, current) + (if up then 1 else -1)
  {
    hide Stops, Rank, StopCount, Nearest;
    var next :| Nearest(p, current, up, next) && after == SlotOf(next);
    NearestRank(p, current, up, next);
    m := LapOf(next);
    RankLaps(p, after, m);
    SameStop(p, after, next);
  }

  /** So after any run of clicks from a stop the rank has moved by their net count, up to whole laps. */
  lemma {:induction false} TrailRank(p: Patches, ups: seq<bool>, trail: seq<nat>, k: nat) returns (m: int)
    requires Trail(p, ups, trail) && Stops(p, trail[0]) && k <= |ups|
    ensures trail[k] < TOTAL_SLOTS && Stops(p, trail[k])
    ensures Rank(p, trail[k]) + StopCount(p) * m == Rank(p, trail[0]) + Net(ups[..k])
    decreases k
  {
    hide Stops, Rank, StopCount, Click;
    m := 0;
    assert StopCount(p) * 0 == 0;
    if k > 0 {
      var l := TrailRank(p, ups, trail, k - 1);
      var d := ClickRank(p, trail[k - 1], ups[k - 1], trail[k]);
      assert ups[..k][..k - 1] == ups[..k - 1];
      m := l + d;
      assert StopCount(p) * (l + d) == StopCount(p) * l + StopCount(p) * d;
    }
  }

  lemma {:induction false} TrailPart(p: Patches, ups: seq<bool>, trail: seq<nat>, i: nat)
    requires Trail(p, ups, trail) && Stops(p, trail[0]) && i <= |ups|
    ensures Trail(p, ups[i..], trail[i..]) && Stops(p, trail[i])
  {
    hide Click, Stops;
    var m := TrailRank(p, ups, trail, i);
  }

  /** Whole turns of a ring of `n`, between positions within the ring. */
  lemma {:induction false} WholeTurns(n: nat, a: int, b: int, m: int, net: int)
    requires 0 <= a < n && 0 <= b < n && a + n * m == b + net
    ensures a == b <==> net % n == 0
  {
    if a == b {
      MultipleMod(n, m);
    } else if net % n == 0 {
      ModAsDifference(net, n);
      var q := net / n;
      assert n * (q - m) == n * q - n * m;
      assert n * -q == -(n * q);
      NoGap(n, q - m, a - b);
    }
  }

  /**
    Main theorem: two moments of any run of clicks up and down show the same slot
    if and only if the net count of the clicks between them is a multiple of the
    number of stops.
  */
  lemma {:induction false} ClicksReturn(p: Patches, ups: seq<bool>, trail: seq<nat>, i: nat, j: nat)
    requires Trail(p, ups, trail) && Stops(p, trail[0]) && i <= j <= |ups|
    ensures StopCount(p) > 0
    ensures trail[i] == trail[j] <==> Net(ups[i..j]) % StopCount(p) == 0
  {
    hide Stops, Rank, StopCount, Click;
    TrailPart(p, ups, trail, i);
    var m := TrailRank(p, ups[i..], trail[i..], j - i);
    assert ups[i..][..j - i] == ups[i..j];
    RankRange(p, trail[i]);
    RankRange(p, trail[j]);
    WholeTurns(StopCount(p), Rank(p, trail[j]), Rank(p, trail[i]), m, Net(ups[i..j]));
    if Rank(p, trail[i]) == Rank(p, trail[j]) {
      RankInjective(p, trail[i], trail[j]);
    }
  }

  lemma {:induction false} NetOneWay(ups: seq<bool>, up: bool)
    requires forall i :: 0 <= i < |ups| ==> ups[i] == up
    ensures Net(ups) == if up then |ups| else 0 - |ups|
  {
    if ups != [] {
      NetOneWay(ups[..|ups| - 1], up);
    }
  }

  /** Clicking up visits every stop in turn: the one with k - 1 stops in between at click k, over any number of laps. */
  lemma {:induction false} VisitsEach(p: Patches, ups: seq<bool>, trail: seq<nat>, u: int)
    requires Trail(p, ups, trail) && Stops(p, trail[0]) && forall i :: 0 <= i < |ups| ==> ups[i]
    requires trail[0] < u && Stops(p, u) && Count(p, trail[0] + 1, u) < |ups|
    ensures trail[Count(p, trail[0] + 1, u) + 1] == SlotOf(u)
  {
    hide Stops, Rank, Count, StopCount, Click, SlotOf;
    var start, k := trail[0], Count(p, trail[0] + 1, u) + 1;
    var n, slot := StopCount(p), SlotOf(u);
    RankStep(p, start, u);
    CountSplit(p, start, start + 1, u);
    CountOne(p, start);
    NetOneWay(ups[..k], true);
    var m := TrailRank(p, ups, trail, k);
    var l := LapOf(u);
    SlotInRange(u);
    RankLaps(p, slot, l);
    OtherLap(slot, l);
    SameStop(p, slot, u);
    assert n * (l - m) == n * l - n * m;
    SameRank(p, trail[k], slot, l - m);
  }

  lemma {:induction false} SlotInRange(t: int)
    ensures 0 <= SlotOf(t) < TOTAL_SLOTS
  {
  }

  /**
    Main theorem: with n stops, n clicks in one direction from a stop come back to
    it, having stopped at each stop exactly once on the way.
  */
  lemma {:induction false} FullTour(p: Patches, up: bool, ups: seq<bool>, trail: seq<nat>)
    requires Trail(p, ups, trail) && Stops(p, trail[0])
    requires |ups| == StopCount(p) && forall i :: 0 <= i < |ups| ==> ups[i] == up
    ensures trail[|ups|] == trail[0]
    ensures forall i, j :: 0 < i < j <= |ups| ==> trail[i] != trail[j]
    ensures forall slot :: 0 <= slot < TOTAL_SLOTS && Stops(p, slot) ==> slot in trail[1..]
  {
    hide Trail, Stops, StopCount, Click;
    TourReturns(p, up, ups, trail);
    forall i, j | 0 < i < j <= |ups|
      ensures trail[i] != trail[j]
    {
      ClicksReturn(p, ups, trail, i, j);
      NetOneWay(ups[i..j], up);
      NoTurn(|ups|, j - i);
    }
    forall slot | 0 <= slot < TOTAL_SLOTS && Stops(p, slot)
      ensures slot in trail[1..]
    {
      var k := TourVisits(p, up, ups, trail, slot);
      assert trail[1..][k - 1] == slot;
    }
  }

  lemma {:induction false} NoTurn(n: nat, d: nat)
    requires 0 < d < n
    ensures d % n != 0 && (0 - d) % n != 0
  {
    UniqueRemainder(d, n, 0, d);
    UniqueRemainder(0 - d, n, -1, n - d);
  }

  lemma {:induction false} TourReturns(p: Patches, up: bool, ups: seq<bool>, trail: seq<nat>)
    requires Trail(p, ups, trail) && Stops(p, trail[0])
    requires |ups| == StopCount(p) && forall i :: 0 <= i < |ups| ==> ups[i] == up
    ensures |trail| == |ups| + 1 && trail[|ups|] == trail[0]
  {
    hide Stops, StopCount, Click;
    var n := |ups|;
    assert ups[0..n] == ups;
    NetOneWay(ups, up);
    ClicksReturn(p, ups, trail, 0, n);
    MultipleMod(n, 1);
    MultipleMod(n, -1);
  }

  lemma {:induction false} TourVisits(p: Patches, up: bool, ups: seq<bool>, trail: seq<nat>, slot: nat) returns (k: nat)
    requires Trail(p, ups, trail) && Stops(p, trail[0])
    requires |ups| == StopCount(p) && forall i :: 0 <= i < |ups| ==> ups[i] == up
    requires slot < TOTAL_SLOTS && Stops(p, slot)
    ensures 1 <= k <= |ups| && trail[k] == slot
  {
    hide Stops, Rank, StopCount, Click;
    var n: int := StopCount(p);
    RankRange(p, slot);
    RankRange(p, trail[0]);
    var d := if up then Rank(p, slot) - Rank(p, trail[0]) else Rank(p, trail[0]) - Rank(p, slot);
    k := if d > 0 then d else d + n;
    NetOneWay(ups[..k], up);
    var m := TrailRank(p, ups, trail, k);
    var l := (if d > 0 then 0 else if up then 1 else -1) - m;
    assert n * 0 == 0 && n * 1 == n && n * -1 == 0 - n;
    assert n * l == n * (l + m) - n * m;
    SameRank(p, trail[k], slot, l);
  }
}
