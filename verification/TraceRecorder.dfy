/** The per-thread ring buffers of the trace recorder, and the gathering of their rows. */
module TraceRecorder {
  import opened IntMath
  import StdSort

  const EVENTS_PER_THREAD: nat := 65536

  datatype TracePhase = Instant | Begin | End | Counter

  datatype TraceEvent = TraceEvent(name: string, category: string, phase: TracePhase,
                                   counterValue: int, timestampUs: int)

  datatype Row = Row(event: TraceEvent, tid: nat)

  /** What a ring of that size still has of everything recorded. */
  function Kept(recorded: seq<TraceEvent>): seq<TraceEvent> {
    recorded[|recorded| - Min(|recorded|, EVENTS_PER_THREAD)..]
  }

  function Rows(events: seq<TraceEvent>, tid: nat): seq<Row> {
    seq(|events|, i requires 0 <= i < |events| => Row(events[i], tid))
  }

  /** The rows of the first `n` threads, by what each recorded. */
  function AllRows(histories: seq<seq<TraceEvent>>, n: nat): seq<Row>
    requires n <= |histories|
  {
    if n == 0 then [] else AllRows(histories, n - 1) + Rows(Kept(histories[n - 1]), n - 1)
  }

  /** The rows are the newest 65536 events of each thread, or all if there are fewer, under the thread's number. */
  lemma {:induction false} AllRowsMean(histories: seq<seq<TraceEvent>>, n: nat, row: Row)
    requires n <= |histories|
    ensures multiset(AllRows(histories, n))[row] ==
      if row.tid >= n then 0
      else
        var h := histories[row.tid];
        multiset(if |h| < 65536 then h else h[|h| - 65536..])[row.event]
  {
    hide Rows, Kept;
    if n > 0 {
      AllRowsMean(histories, n - 1, row);
      RowsMean(Kept(histories[n - 1]), n - 1, row);
      KeptMeans(histories[n - 1]);
    }
  }

  lemma {:induction false} KeptMeans(h: seq<TraceEvent>)
    ensures Kept(h) == if |h| < 65536 then h else h[|h| - 65536..]
  {
  }

  lemma {:induction false} RowsMean(events: seq<TraceEvent>, tid: nat, row: Row)
    ensures multiset(Rows(events, tid))[row] == if row.tid == tid then multiset(events)[row.event] else 0
  {
    if events == [] {
      RowsOfNone(tid);
    } else {
      var n := |events| - 1;
      RowsMean(events[..n], tid, row);
      RowsMore(events[..n], events[n], tid);
      assert events == events[..n] + [events[n]];
    }
  }

  class ThreadBuffer {
    const events: array<TraceEvent>
    var writeIndex: nat
    ghost var recorded: seq<TraceEvent>

    /** Slot i holds the latest event whose number is i modulo the size of the ring. */
    ghost predicate Valid()
      reads this, events
    {
      && events.Length == EVENTS_PER_THREAD && writeIndex == |recorded|
      && Holds(events[..], recorded)
    }

    constructor ()
      ensures Valid() && fresh(events) && recorded == []
    {
      events := new TraceEvent[EVENTS_PER_THREAD](_ => TraceEvent("", "", Instant, 0, 0));
      writeIndex := 0;
      recorded := [];
    }

    method Record(name: string, category: string, phase: TracePhase, value: int, timestampUs: int)
      requires Valid()
      modifies this, events
      ensures Valid() && recorded == old(recorded) + [TraceEvent(name, category, phase, value, timestampUs)]
    {
      ghost var before := events[..];
      var idx := writeIndex % EVENTS_PER_THREAD;
      writeIndex := writeIndex + 1;
      events[idx] := TraceEvent(name, category, phase, value, timestampUs);
      HoldsMore(before, recorded, events[idx]);
      assert events[..] == before[idx := events[idx]];
      recorded := recorded + [events[idx]];
    }
  }

  /** The ring `slots` after recording all of `recorded`. */
  ghost predicate Holds(slots: seq<TraceEvent>, recorded: seq<TraceEvent>) {
    |slots| == EVENTS_PER_THREAD && HoldsAt(slots, recorded, |recorded| % EVENTS_PER_THREAD)
  }

  /** The next event goes to slot `p`: the slots below are the newest, those from it on the oldest. */
  ghost predicate HoldsAt(slots: seq<TraceEvent>, recorded: seq<TraceEvent>, p: nat) {
    var n := |recorded|;
    && p <= |slots| && p <= n
    && slots[..p] == recorded[n - p..]
    && (n >= |slots| ==> slots[p..] == recorded[n - |slots|..n - p])
  }

  lemma {:induction false} HoldsMore(slots: seq<TraceEvent>, recorded: seq<TraceEvent>, e: TraceEvent)
    requires Holds(slots, recorded)
    ensures Holds(slots[|recorded| % EVENTS_PER_THREAD := e], recorded + [e])
  {
    hide HoldsAt;
    var n := |recorded|;
    var p := n % EVENTS_PER_THREAD;
    HoldsStep(slots, recorded, e, p);
    if p + 1 == EVENTS_PER_THREAD {
      assert (n + 1) % EVENTS_PER_THREAD == 0;
      HoldsWrap(slots[p := e], recorded + [e]);
    } else {
      assert (n + 1) % EVENTS_PER_THREAD == p + 1;
    }
  }

  lemma {:induction false} HoldsStep(slots: seq<TraceEvent>, recorded: seq<TraceEvent>, e: TraceEvent, p: nat)
    requires HoldsAt(slots, recorded, p) && p < |slots| && (|recorded| < |slots| ==> p == |recorded|)
    ensures HoldsAt(slots[p := e], recorded + [e], p + 1)
  {
    var n, slots', recorded' := |recorded|, slots[p := e], recorded + [e];
    HeadMore(slots, recorded, e, p);
    if n + 1 >= |slots| {
      if n >= |slots| {
        TailMore(slots, recorded, e, p);
      } else {
        assert slots'[p + 1..] == [] == recorded'[0..0];
      }
      assert slots'[p + 1..] == recorded'[n + 1 - |slots|..n - p];
    }
  }

  lemma {:induction false} HoldsWrap(slots: seq<TraceEvent>, recorded: seq<TraceEvent>)
    requires HoldsAt(slots, recorded, |slots|)
    ensures HoldsAt(slots, recorded, 0)
  {
    var n := |recorded|;
    assert slots[..|slots|] == slots == slots[0..];
    assert recorded[n - |slots|..] == recorded[n - |slots|..n];
  }

  lemma {:induction false} HeadMore(slots: seq<TraceEvent>, recorded: seq<TraceEvent>, e: TraceEvent, p: nat)
    requires p < |slots| && p <= |recorded| && slots[..p] == recorded[|recorded| - p..]
    ensures slots[p := e][..p + 1] == (recorded + [e])[|recorded| - p..]
  {
    assert slots[p := e][..p + 1] == slots[..p] + [e];
  }

  lemma {:induction false} TailMore(slots: seq<TraceEvent>, recorded: seq<TraceEvent>, e: TraceEvent, p: nat)
    requires p < |slots| <= |recorded|
    requires slots[p..] == recorded[|recorded| - |slots|..|recorded| - p]
    ensures slots[p := e][p + 1..] == (recorded + [e])[|recorded| + 1 - |slots|..|recorded| - p]
  {
    var tail := slots[p..];
    assert slots[p := e][p + 1..] == tail[1..];
    assert (recorded + [e])[|recorded| + 1 - |slots|..|recorded| - p] == tail[1..];
  }

  /** The filled slots are what is kept, rotated. */
  lemma {:induction false} SlotsAreKept(slots: seq<TraceEvent>, recorded: seq<TraceEvent>) returns (p: nat)
    requires Holds(slots, recorded)
    ensures var kept := Kept(recorded);
      p <= |kept| && slots[..|kept|] == kept[|kept| - p..] + kept[..|kept| - p]
  {
    var n := |recorded|;
    p := n % EVENTS_PER_THREAD;
    var kept := Kept(recorded);
    if n < EVENTS_PER_THREAD {
      assert kept == recorded;
    } else {
      assert kept[|kept| - p..] == recorded[n - p..];
      assert kept[..|kept| - p] == recorded[n - EVENTS_PER_THREAD..n - p];
      assert slots[..|kept|] == slots[..p] + slots[p..];
    }
  }

  lemma {:induction false} RowsRotated(kept: seq<TraceEvent>, p: nat, tid: nat)
    requires p <= |kept|
    ensures multiset(Rows(kept[|kept| - p..] + kept[..|kept| - p], tid)) == multiset(Rows(kept, tid))
  {
    var a, b := Rows(kept[..|kept| - p], tid), Rows(kept[|kept| - p..], tid);
    assert Rows(kept[|kept| - p..] + kept[..|kept| - p], tid) == b + a;
    assert Rows(kept, tid) == a + b;
  }

  ghost function Histories(buffers: seq<ThreadBuffer>): (h: seq<seq<TraceEvent>>)
    reads set b | b in buffers
    ensures |h| == |buffers|
  {
    seq(|buffers|, i requires 0 <= i < |buffers| reads set b | b in buffers => buffers[i].recorded)
  }

  /**
    `gatherSortedRows`: sorted by timestamp, and exactly the latest events of each
    thread, as many as its ring holds, however often it has wrapped around.
  */
  method GatherSortedRows(buffers: seq<ThreadBuffer>) returns (rows: seq<Row>)
    requires forall b :: b in buffers ==> b.Valid()
    ensures StdSort.Sorted(rows, (r: Row) => r.event.timestampUs)
    ensures multiset(rows) == multiset(AllRows(Histories(buffers), |buffers|))
  {
    rows := GatherRows(buffers);
    var key := (r: Row) => r.event.timestampUs;
    StdSort.SortSorts(rows, key);
    rows := StdSort.Sort(rows, key);
  }

  /** The rows of all threads, in slot order. */
  method GatherRows(buffers: seq<ThreadBuffer>) returns (rows: seq<Row>)
    requires forall b :: b in buffers ==> b.Valid()
    ensures multiset(rows) == multiset(AllRows(Histories(buffers), |buffers|))
  {
    hide AllRows, Holds;
    ghost var h := Histories(buffers);
    rows := [];
    NoRows(h);
    var tid := 0;
    while tid < |buffers|
      invariant 0 <= tid <= |buffers|
      invariant multiset(rows) == multiset(AllRows(h, tid))
    {
      var more := ThreadRows(buffers[tid], tid);
      MoreRows(h, tid, rows, more);
      rows := rows + more;
      tid := tid + 1;
    }
  }

  lemma {:induction false} NoRows(h: seq<seq<TraceEvent>>)
    ensures AllRows(h, 0) == []
  {
  }

  lemma {:induction false} MoreRows(h: seq<seq<TraceEvent>>, n: nat, rows: seq<Row>, more: seq<Row>)
    requires n < |h|
    requires multiset(rows) == multiset(AllRows(h, n)) && multiset(more) == multiset(Rows(Kept(h[n]), n))
    ensures multiset(rows + more) == multiset(AllRows(h, n + 1))
  {
  }

  /** The inner loop: one row for each slot in use. */
  method ThreadRows(buf: ThreadBuffer, tid: nat) returns (rows: seq<Row>)
    requires buf.Valid()
    ensures multiset(rows) == multiset(Rows(Kept(buf.recorded), tid))
  {
    hide Rows, Holds;
    ghost var slots := buf.events[..];
    var written := buf.writeIndex;
    var count := if written < EVENTS_PER_THREAD then written else EVENTS_PER_THREAD;
    rows := [];
    RowsOfNone(tid);
    var i := 0;
    while i < count
      invariant 0 <= i <= count && rows == Rows(slots[..i], tid)
    {
      RowsMore(slots[..i], buf.events[i], tid);
      assert slots[..i + 1] == slots[..i] + [buf.events[i]];
      rows := rows + [Row(buf.events[i], tid)];
      i := i + 1;
    }
    ghost var p := SlotsAreKept(slots, buf.recorded);
    RowsRotated(Kept(buf.recorded), p, tid);
  }

  lemma {:induction false} RowsOfNone(tid: nat)
    ensures Rows([], tid) == []
  {
  }

  lemma {:induction false} RowsMore(events: seq<TraceEvent>, e: TraceEvent, tid: nat)
    ensures Rows(events + [e], tid) == Rows(events, tid) + [Row(e, tid)]
  {
  }
}
