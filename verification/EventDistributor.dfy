/** Stands for `std::sort`: sorted, and a permutation; which of two ties comes first is not promised. */
module StdSort {
  ghost predicate Sorted<T>(s: seq<T>, key: T -> int) {
    forall i, j :: 0 <= i < j < |s| ==> key(s[i]) <= key(s[j])
  }

  function Insert<T>(s: seq<T>, x: T, key: T -> int): seq<T> {
    if s == [] || key(s[|s| - 1]) <= key(x) then s + [x]
    else Insert(s[..|s| - 1], x, key) + [s[|s| - 1]]
  }

  function Sort<T>(s: seq<T>, key: T -> int): seq<T> {
    if s == [] then [] else Insert(Sort(s[..|s| - 1], key), s[|s| - 1], key)
  }

  lemma {:induction false} InsertPermutes<T>(s: seq<T>, x: T, key: T -> int)
    ensures multiset(Insert(s, x, key)) == multiset(s) + multiset{x}
  {
    if s != [] && key(s[|s| - 1]) > key(x) {
      var n := |s| - 1;
      assert s == s[..n] + [s[n]];
      InsertPermutes(s[..n], x, key);
    }
  }

  lemma {:induction false} InsertSorts<T>(s: seq<T>, x: T, key: T -> int)
    requires Sorted(s, key)
    ensures Sorted(Insert(s, x, key), key)
    ensures forall b {:trigger Below(Insert(s, x, key), key, b)} ::
      Below(s, key, b) && key(x) <= b ==> Below(Insert(s, x, key), key, b)
  {
    if s != [] && key(s[|s| - 1]) > key(x) {
      var n := |s| - 1;
      InsertSorts(s[..n], x, key);
      assert Below(s[..n], key, key(s[n]));
      assert Below(Insert(s[..n], x, key), key, key(s[n]));
    }
  }

  ghost predicate Below<T>(s: seq<T>, key: T -> int, bound: int) {
    forall i :: 0 <= i < |s| ==> key(s[i]) <= bound
  }

  lemma {:induction false} SortSorts<T>(s: seq<T>, key: T -> int)
    ensures Sorted(Sort(s, key), key)
    ensures multiset(Sort(s, key)) == multiset(s)
  {
    if s != [] {
      var n := |s| - 1;
      assert s == s[..n] + [s[n]];
      SortSorts(s[..n], key);
      InsertSorts(Sort(s[..n], key), s[n], key);
      InsertPermutes(Sort(s[..n], key), s[n], key);
    }
  }
}

/** RTSafeEventDistributor as one thread runs it, and the load harness that drains it. */
module EventDistributor {
  import opened IntMath
  import opened Options
  import opened Events
  import opened LockFreeQueue
  import StdSort

  const QUEUE_SIZE: nat := 1024

  /** An observer: who it is, and what its `getPriority` answers. */
  datatype Observer = Observer(id: nat, priority: int)

  /** One call of an observer's handler. */
  datatype Call = Call(observer: Observer, event: RTEvent)

  /** Everything a distributor holds and has told its observers. */
  datatype Model = Model(
    initialized: bool,
    rtObservers: seq<Observer>,
    uiObservers: seq<Observer>,
    toUi: seq<RTEvent>,
    toRt: seq<RTEvent>,
    rtProcessed: nat,
    uiProcessed: nat,
    rtDropped: nat,
    rtCalls: seq<Call>,
    uiCalls: seq<Call>)

  const CAPACITY: nat := QUEUE_SIZE - 1

  /** The calls that tell every observer about one event. */
  function Tell(observers: seq<Observer>, e: RTEvent): seq<Call> {
    seq(|observers|, i requires 0 <= i < |observers| => Call(observers[i], e))
  }

  function TellAll(observers: seq<Observer>, events: seq<RTEvent>): seq<Call> {
    if events == [] then []
    else TellAll(observers, events[..|events| - 1]) + Tell(observers, events[|events| - 1])
  }

  /** `notifyRTObservers`. */
  function Notify(m: Model, e: RTEvent): Model {
    if !m.initialized then m
    else
      var full := |m.toUi| >= CAPACITY;
      m.(rtCalls := m.rtCalls + Tell(m.rtObservers, e),
         toUi := if full then m.toUi else m.toUi + [e],
         rtDropped := m.rtDropped + (if full then 1 else 0),
         rtProcessed := m.rtProcessed + 1)
  }

  function NotifyAll(m: Model, events: seq<RTEvent>): Model {
    if events == [] then m else Notify(NotifyAll(m, events[..|events| - 1]), events[|events| - 1])
  }

  /** The UI thread takes the oldest event. */
  function OneUI(m: Model): Model
    requires m.toUi != []
  {
    m.(toUi := m.toUi[1..], uiProcessed := m.uiProcessed + 1, uiCalls := m.uiCalls + Tell(m.uiObservers, m.toUi[0]))
  }

  /** The RT thread takes the oldest event the UI thread sent, and dispatches it. */
  function OneRT(m: Model): Model
    requires m.toRt != []
  {
    Notify(m.(toRt := m.toRt[1..]), m.toRt[0])
  }

  /** The UI thread takes the `n` oldest events. */
  function TakeUI(m: Model, n: nat): Model
    requires n <= |m.toUi|
  {
    m.(toUi := m.toUi[n..], uiProcessed := m.uiProcessed + n,
       uiCalls := m.uiCalls + TellAll(m.uiObservers, m.toUi[..n]))
  }

  /** The RT thread takes the `n` oldest events the UI thread sent, and dispatches each. */
  function TakeRT(m: Model, n: nat): Model
    requires n <= |m.toRt|
  {
    NotifyAll(m, m.toRt[..n]).(toRt := m.toRt[n..])
  }

  /** `processUIEvents`: at most 32 events a call. */
  function DrainUI(m: Model): Model {
    if m.initialized then TakeUI(m, Min(MAX_UI_EVENTS_PER_CALL, |m.toUi|)) else m
  }

  /** `processRTEvents`: at most 16 events a call. */
  function DrainRT(m: Model): Model {
    if m.initialized then TakeRT(m, Min(MAX_RT_EVENTS_PER_CALL, |m.toRt|)) else m
  }

  class Distributor {
    var rtObservers: seq<Observer>
    var uiObservers: seq<Observer>
    const rtToUi: Queue<RTEvent>
    const uiToRt: Queue<RTEvent>
    var rtProcessed: nat
    var uiProcessed: nat
    var rtDropped: nat
    var initialized: bool
    // what the observers were told, oldest first
    var rtCalls: seq<Call>
    var uiCalls: seq<Call>

    ghost const Repr: set<object>

    ghost predicate Valid()
      reads this, Repr
    {
      && Repr == {this, rtToUi, rtToUi.buffer, uiToRt, uiToRt.buffer}
      && rtToUi != uiToRt && rtToUi.buffer != uiToRt.buffer
      && rtToUi.Valid() && rtToUi.capacity == QUEUE_SIZE
      && uiToRt.Valid() && uiToRt.capacity == QUEUE_SIZE
    }

    ghost function State(): Model
      requires Valid()
      reads this, Repr
    {
      Model(initialized, rtObservers, uiObservers, rtToUi.Contents(), uiToRt.Contents(),
            rtProcessed, uiProcessed, rtDropped, rtCalls, uiCalls)
    }

    constructor ()
      ensures Valid() && fresh(Repr)
      ensures State() == Model(false, [], [], [], [], 0, 0, 0, [], [])
    {
      rtObservers, uiObservers := [], [];
      rtProcessed, uiProcessed, rtDropped := 0, 0, 0;
      initialized := false;
      rtCalls, uiCalls := [], [];
      var q := new Queue<RTEvent>(QUEUE_SIZE - 1);
      var p := new Queue<RTEvent>(QUEUE_SIZE - 1);
      rtToUi, uiToRt := q, p;
      Repr := {this, q, q.buffer, p, p.buffer};
    }

    /** Does not touch the queues. */
    method Initialize()
      requires Valid()
      modifies this
      ensures Valid()
      ensures State() == old(State()).(initialized := true, rtObservers := [], uiObservers := [],
                                       rtProcessed := 0, uiProcessed := 0, rtDropped := 0)
    {
      rtObservers, uiObservers := [], [];
      rtProcessed, uiProcessed, rtDropped := 0, 0, 0;
      initialized := true;
    }

    method Shutdown()
      requires Valid()
      modifies this
      ensures Valid()
      ensures State() == old(State()).(initialized := false, rtObservers := [], uiObservers := [])
    {
      initialized := false;
      rtObservers, uiObservers := [], [];
    }

    method AddRTObserver(observer: Option<Observer>) returns (added: bool)
      requires Valid()
      modifies this`rtObservers
      ensures Valid() && added == observer.Some?
      ensures State() == old(State()).(rtObservers := rtObservers)
      ensures !added ==> rtObservers == old(rtObservers)
      ensures added ==> multiset(rtObservers) == multiset(old(rtObservers)) + multiset{observer.value}
      ensures added ==> forall i, j :: 0 <= i < j < |rtObservers| ==> rtObservers[i].priority >= rtObservers[j].priority
    {
      if observer == None {
        return false;
      }
      rtObservers := rtObservers + [observer.value];
      ghost var pushed := rtObservers;
      var key := (o: Observer) => -o.priority;
      StdSort.SortSorts(pushed, key);
      rtObservers := StdSort.Sort(rtObservers, key);
      assert forall i :: 0 <= i < |rtObservers| ==> key(rtObservers[i]) == -rtObservers[i].priority;
      return true;
    }

    method AddUIObserver(observer: Option<Observer>) returns (added: bool)
      requires Valid()
      modifies this`uiObservers
      ensures Valid() && added == observer.Some?
      ensures State() == old(State()).(uiObservers := old(uiObservers) + if added then [observer.value] else [])
    {
      if observer == None {
        return false;
      }
      uiObservers := uiObservers + [observer.value];
      return true;
    }

    method NotifyRTObservers(e: RTEvent)
      requires Valid()
      modifies Repr
      ensures Valid() && State() == Notify(old(State()), e)
      ensures !old(initialized) ==> State() == old(State())
      ensures old(initialized) ==>
        && Hears(old(rtCalls), rtCalls, rtObservers, [e]) && rtProcessed == old(rtProcessed) + 1
        && (if |old(State().toUi)| < 1023 then State().toUi == old(State().toUi) + [e] && rtDropped == old(rtDropped)
            else State().toUi == old(State().toUi) && rtDropped == old(rtDropped) + 1)
    {
      NotifyMeans(State(), e);
      if !initialized {
        return;
      }
      TellRTObservers(e);
      var queued := rtToUi.Enqueue(e);
      if !queued {
        rtDropped := rtDropped + 1;
      }
      rtProcessed := rtProcessed + 1;
    }

    method TellRTObservers(e: RTEvent)
      requires Valid()
      modifies this`rtCalls
      ensures Valid() && State() == old(State()).(rtCalls := old(rtCalls) + Tell(rtObservers, e))
    {
      ghost var before := rtCalls;
      for i := 0 to |rtObservers|
        invariant Valid() && rtCalls == before + Tell(rtObservers, e)[..i]
      {
        assert Tell(rtObservers, e)[..i + 1] == Tell(rtObservers, e)[..i] + [Call(rtObservers[i], e)];
        rtCalls := rtCalls + [Call(rtObservers[i], e)];
      }
      assert rtCalls == before + Tell(rtObservers, e);
    }

    method ProcessUIEvents()
      requires Valid()
      modifies Repr
      ensures Valid() && State() == DrainUI(old(State()))
      ensures !old(initialized) ==> State() == old(State())
      ensures old(initialized) ==>
        var held := old(State().toUi);
        var n := if |held| < 32 then |held| else 32;
        && State().toUi == held[n..] && uiProcessed == old(uiProcessed) + n
        && Hears(old(uiCalls), uiCalls, uiObservers, held[..n])
    {
      hide Tell, TellAll, Hears;
      DrainUIMeans(State());
      if !initialized {
        return;
      }
      ghost var m := State();
      var count := 0;
      TakeNone(m);
      while count < MAX_UI_EVENTS_PER_CALL
        invariant Valid() && count <= MAX_UI_EVENTS_PER_CALL && count <= |m.toUi|
        invariant State() == TakeUI(m, count)
      {
        assert |State().toUi| == |m.toUi| - count;
        var took := ProcessUIEvent();
        if !took {
          break;
        }
        TakeOneUI(m, count);
        count := count + 1;
      }
    }

    /** One round of the loop of `ProcessUIEvents`. */
    method ProcessUIEvent() returns (took: bool)
      requires Valid()
      modifies Repr
      ensures Valid() && took == (old(State()).toUi != [])
      ensures State() == if took then OneUI(old(State())) else old(State())
    {
      var item := rtToUi.Dequeue();
      if item == None {
        return false;
      }
      TellUIObservers(item.value);
      uiProcessed := uiProcessed + 1;
      return true;
    }

    method TellUIObservers(e: RTEvent)
      requires Valid()
      modifies this`uiCalls
      ensures Valid() && State() == old(State()).(uiCalls := old(uiCalls) + Tell(uiObservers, e))
    {
      ghost var before := uiCalls;
      for i := 0 to |uiObservers|
        invariant Valid() && uiCalls == before + Tell(uiObservers, e)[..i]
      {
        assert Tell(uiObservers, e)[..i + 1] == Tell(uiObservers, e)[..i] + [Call(uiObservers[i], e)];
        uiCalls := uiCalls + [Call(uiObservers[i], e)];
      }
      assert uiCalls == before + Tell(uiObservers, e);
    }

    method SendToRTThread(e: RTEvent) returns (sent: bool)
      requires Valid()
      modifies Repr
      ensures Valid()
      ensures sent == (old(State()).initialized && |old(State()).toRt| < CAPACITY)
      ensures State() == old(State()).(toRt := old(State()).toRt + if sent then [e] else [])
    {
      if !initialized {
        return false;
      }
      sent := uiToRt.Enqueue(e);
    }

    method ProcessRTEvents()
      requires Valid()
      modifies Repr
      ensures Valid() && State() == DrainRT(old(State()))
      ensures !old(initialized) ==> State() == old(State())
      ensures old(initialized) ==>
        var sent, held := old(State().toRt), old(State().toUi);
        var n := if |sent| < 16 then |sent| else 16;
        var kept := if n < 1023 - |held| then n else 1023 - |held|;
        && State().toRt == sent[n..] && rtProcessed == old(rtProcessed) + n
        && State().toUi == held + sent[..kept] && rtDropped == old(rtDropped) + (n - kept)
        && Hears(old(rtCalls), rtCalls, rtObservers, sent[..n])
    {
      hide Notify, DrainRT, Hears;
      DrainRTMeans(State());
      if !initialized {
        return;
      }
      TakeSentEvents();
    }

    /** The loop of `ProcessRTEvents`. */
    method TakeSentEvents()
      requires Valid() && initialized
      modifies Repr
      ensures Valid() && State() == DrainRT(old(State()))
    {
      hide Tell, TellAll, Notify;
      ghost var m := State();
      var count := 0;
      TakeNone(m);
      while count < MAX_RT_EVENTS_PER_CALL
        invariant Valid() && count <= MAX_RT_EVENTS_PER_CALL && count <= |m.toRt|
        invariant State() == TakeRT(m, count)
      {
        NotifyAllKeeps(m, m.toRt[..count]);
        var took := ProcessRTEvent();
        if !took {
          break;
        }
        TakeOneRT(m, count);
        count := count + 1;
      }
    }

    /** One round of the loop of `ProcessRTEvents`. */
    method ProcessRTEvent() returns (took: bool)
      requires Valid()
      modifies Repr
      ensures Valid() && took == (old(State()).toRt != [])
      ensures State() == if took then OneRT(old(State())) else old(State())
    {
      var item := uiToRt.Dequeue();
      if item == None {
        return false;
      }
      NotifyRTObservers(item.value);
      return true;
    }
  }

  // ------------------------------------------------------ what the observers hear

  /** Every observer in turn has been called with the first event, then every one with the next, and so on. */
  ghost predicate Hears(before: seq<Call>, after: seq<Call>, observers: seq<Observer>, events: seq<RTEvent>) {
    && before <= after && |after| == |before| + |events| * |observers|
    && forall k, i :: 0 <= k < |events| && 0 <= i < |observers| ==>
         CallAt(after, |before| + k * |observers| + i, observers[i], events[k])
  }

  ghost predicate CallAt(calls: seq<Call>, at: int, observer: Observer, e: RTEvent) {
    0 <= at < |calls| && calls[at] == Call(observer, e)
  }

  lemma {:induction false} HearsMore(before: seq<Call>, after: seq<Call>, observers: seq<Observer>,
                                     events: seq<RTEvent>, e: RTEvent)
    requires Hears(before, after, observers, events)
    ensures Hears(before, after + Tell(observers, e), observers, events + [e])
  {
    var all, now := events + [e], after + Tell(observers, e);
    MulSucc(|observers|, |events|);
    assert |observers| * |events| == |events| * |observers|;
    assert |all| * |observers| == |events| * |observers| + |observers|;
    forall k, i | 0 <= k < |all| && 0 <= i < |observers|
      ensures CallAt(now, |before| + k * |observers| + i, observers[i], all[k])
    {
      if k < |events| {
        assert CallAt(after, |before| + k * |observers| + i, observers[i], events[k]);
      } else {
        assert k * |observers| == |events| * |observers|;
      }
    }
  }

  lemma {:induction false} TellAllHears(before: seq<Call>, observers: seq<Observer>, events: seq<RTEvent>)
    ensures Hears(before, before + TellAll(observers, events), observers, events)
    decreases |events|
  {
    hide Hears, Tell;
    if events == [] {
      HearsNothing(before, observers);
      assert before + [] == before;
    } else {
      var n := |events| - 1;
      TellAllHears(before, observers, events[..n]);
      HearsMore(before, before + TellAll(observers, events[..n]), observers, events[..n], events[n]);
      assert events == events[..n] + [events[n]];
      assert before + TellAll(observers, events)
          == before + TellAll(observers, events[..n]) + Tell(observers, events[n]);
    }
  }

  lemma {:induction false} HearsNothing(before: seq<Call>, observers: seq<Observer>)
    ensures Hears(before, before, observers, [])
  {
    assert 0 * |observers| == 0;
  }

  lemma {:induction false} NotifyMeans(m: Model, e: RTEvent)
    ensures !m.initialized ==> Notify(m, e) == m
    ensures m.initialized ==>
      var k := Notify(m, e);
      && Hears(m.rtCalls, k.rtCalls, m.rtObservers, [e]) && k.rtProcessed == m.rtProcessed + 1
      && (if |m.toUi| < 1023 then k.toUi == m.toUi + [e] && k.rtDropped == m.rtDropped
          else k.toUi == m.toUi && k.rtDropped == m.rtDropped + 1)
  {
    hide Hears, Tell;
    HearsNothing(m.rtCalls, m.rtObservers);
    HearsMore(m.rtCalls, m.rtCalls, m.rtObservers, [], e);
    assert [] + [e] == [e];
  }

  lemma {:induction false} DrainUIMeans(m: Model)
    ensures !m.initialized ==> DrainUI(m) == m
    ensures m.initialized ==>
      var k, n := DrainUI(m), if |m.toUi| < 32 then |m.toUi| else 32;
      && k.toUi == m.toUi[n..] && k.uiProcessed == m.uiProcessed + n
      && Hears(m.uiCalls, k.uiCalls, m.uiObservers, m.toUi[..n])
  {
    hide Hears, TellAll;
    TellAllHears(m.uiCalls, m.uiObservers, m.toUi[..if |m.toUi| < 32 then |m.toUi| else 32]);
  }

  lemma {:induction false} DrainRTMeans(m: Model)
    requires |m.toUi| <= 1023
    ensures !m.initialized ==> DrainRT(m) == m
    ensures m.initialized ==>
      var k, n := DrainRT(m), if |m.toRt| < 16 then |m.toRt| else 16;
      var kept := if n < 1023 - |m.toUi| then n else 1023 - |m.toUi|;
      && k.toRt == m.toRt[n..] && k.rtProcessed == m.rtProcessed + n
      && k.toUi == m.toUi + m.toRt[..kept] && k.rtDropped == m.rtDropped + (n - kept)
      && Hears(m.rtCalls, k.rtCalls, m.rtObservers, m.toRt[..n]) && k.rtObservers == m.rtObservers
  {
    hide Hears, TellAll;
    if m.initialized {
      var n := if |m.toRt| < 16 then |m.toRt| else 16;
      EchoComesBack(m, n);
      NotifyAllKeeps(m, m.toRt[..n]);
      BurstDropsNewest(m, m.toRt[..n]);
      TellAllHears(m.rtCalls, m.rtObservers, m.toRt[..n]);
    }
  }

  // -------------------------------------------------------------------- lemmas

  lemma TakeNone(m: Model)
    ensures TakeUI(m, 0) == m && TakeRT(m, 0) == m
  {
    assert m.toUi[..0] == [] && m.toRt[..0] == [];
  }

  lemma {:induction false} TakeOneUI(m: Model, n: nat)
    requires n < |m.toUi|
    ensures TakeUI(m, n).toUi != [] && TakeUI(m, n + 1) == OneUI(TakeUI(m, n))
  {
    assert m.toUi[..n + 1][..n] == m.toUi[..n];
  }

  lemma {:induction false} TakeOneRT(m: Model, n: nat)
    requires n < |m.toRt|
    ensures TakeRT(m, n).toRt != [] && TakeRT(m, n + 1) == OneRT(TakeRT(m, n))
  {
    var e := m.toRt[n];
    assert m.toRt[..n + 1][..n] == m.toRt[..n];
    assert NotifyAll(m, m.toRt[..n + 1]) == Notify(NotifyAll(m, m.toRt[..n]), e);
  }

  /** Dispatching leaves everything but the RT-to-UI queue, its counters and the RT calls alone. */
  lemma {:induction false} NotifyAllKeeps(m: Model, events: seq<RTEvent>)
    ensures var k := NotifyAll(m, events);
      && k.initialized == m.initialized && k.rtObservers == m.rtObservers && k.uiObservers == m.uiObservers
      && k.toRt == m.toRt && k.uiProcessed == m.uiProcessed && k.uiCalls == m.uiCalls
  {
    if events != [] {
      NotifyAllKeeps(m, events[..|events| - 1]);
    }
  }

  // ------------------------------------------------------- conservation and drops

  /** Counters and queue of a distributor that lost track of nothing since `initialize`. */
  predicate Balanced(m: Model) {
    m.rtProcessed == m.uiProcessed + m.rtDropped + |m.toUi|
  }

  /** Every operation keeps the books balanced. */
  lemma {:induction false} OperationsKeepBalance(m: Model, n: nat)
    requires Balanced(m)
    ensures forall e :: Balanced(Notify(m, e))
    ensures n <= |m.toUi| ==> Balanced(TakeUI(m, n))
    ensures n <= |m.toRt| ==> Balanced(TakeRT(m, n))
  {
    if n <= |m.toRt| {
      NotifyAllBalanced(m, m.toRt[..n]);
    }
  }

  lemma {:induction false} NotifyAllBalanced(m: Model, events: seq<RTEvent>)
    requires Balanced(m)
    ensures Balanced(NotifyAll(m, events))
  {
    if events != [] {
      NotifyAllBalanced(m, events[..|events| - 1]);
    }
  }

  /** A burst with no draining in between: the oldest that fit are queued, the rest are dropped and counted. */
  lemma {:induction false} BurstDropsNewest(m: Model, events: seq<RTEvent>)
    requires m.initialized && |m.toUi| <= CAPACITY
    ensures var kept, k := Min(CAPACITY - |m.toUi|, |events|), NotifyAll(m, events);
      && k.toUi == m.toUi + events[..kept]
      && k.rtDropped == m.rtDropped + (|events| - kept)
      && k.rtProcessed == m.rtProcessed + |events|
      && k.rtCalls == m.rtCalls + TellAll(m.rtObservers, events)
  {
    if events == [] {
      assert m.rtCalls + [] == m.rtCalls && m.toUi + [] == m.toUi;
    } else {
      hide Tell;
      var n := |events| - 1;
      var first := events[..n];
      BurstDropsNewest(m, first);
      NotifyAllKeeps(m, first);
      assert events == first + [events[n]];
      BurstStep(m, first, events[n], NotifyAll(m, first));
    }
  }

  lemma {:induction false} BurstStep(m: Model, events: seq<RTEvent>, e: RTEvent, k: Model)
    requires k.initialized && |m.toUi| <= CAPACITY && k.rtObservers == m.rtObservers
    requires var kept := Min(CAPACITY - |m.toUi|, |events|);
      k.toUi == m.toUi + events[..kept] && k.rtDropped == m.rtDropped + (|events| - kept)
    requires k.rtCalls == m.rtCalls + TellAll(m.rtObservers, events)
    ensures var all, k' := events + [e], Notify(k, e);
      var kept := Min(CAPACITY - |m.toUi|, |all|);
      && k'.toUi == m.toUi + all[..kept] && k'.rtDropped == m.rtDropped + (|all| - kept)
      && k'.rtProcessed == k.rtProcessed + 1
      && k'.rtCalls == m.rtCalls + TellAll(m.rtObservers, all)
  {
    hide Tell, TellAll;
    TellAllMore(m.rtObservers, events, e);
    KeptMore(m.toUi, events, e, CAPACITY - |m.toUi|);
    var told, last := TellAll(m.rtObservers, events), Tell(m.rtObservers, e);
    assert m.rtCalls + (told + last) == (m.rtCalls + told) + last;
  }

  lemma {:induction false} TellAllMore(observers: seq<Observer>, events: seq<RTEvent>, e: RTEvent)
    ensures TellAll(observers, events + [e]) == TellAll(observers, events) + Tell(observers, e)
  {
    assert (events + [e])[..|events|] == events;
  }

  /** Of one event more, the first `room` of all are either one more or the same. */
  lemma {:induction false} KeptMore(q: seq<RTEvent>, events: seq<RTEvent>, e: RTEvent, room: nat)
    ensures q + (events + [e])[..Min(room, |events| + 1)]
      == if |events| < room then q + events[..Min(room, |events|)] + [e] else q + events[..Min(room, |events|)]
  {
    if |events| < room {
      assert (events + [e])[..|events| + 1] == events[..|events|] + [e];
    } else {
      assert (events + [e])[..room] == events[..room];
    }
  }

  /**
    What the UI thread sent comes back to it: the RT thread takes any number of the
    events sent, the RT observers hear them all in order, and once the UI thread has
    drained its queue the UI observers have heard, after what was queued before,
    those that fitted; the others are counted as dropped.
  */
  lemma {:induction false} EchoComesBack(m: Model, n: nat)
    requires m.initialized && n <= |m.toRt| && |m.toUi| <= CAPACITY
    ensures var kept, k := Min(CAPACITY - |m.toUi|, n), TakeRT(m, n);
      && k.toRt == m.toRt[n..] && k.toUi == m.toUi + m.toRt[..kept]
      && k.rtDropped == m.rtDropped + (n - kept)
      && k.rtCalls == m.rtCalls + TellAll(m.rtObservers, m.toRt[..n])
      && TakeUI(k, |k.toUi|).uiCalls == m.uiCalls + TellAll(m.uiObservers, m.toUi + m.toRt[..kept])
  {
    hide TellAll;
    var kept, k := Min(CAPACITY - |m.toUi|, n), TakeRT(m, n);
    BurstDropsNewest(m, m.toRt[..n]);
    NotifyAllKeeps(m, m.toRt[..n]);
    assert m.toRt[..n][..kept] == m.toRt[..kept];
    assert k.toUi[..|k.toUi|] == k.toUi;
  }

  // --------------------------------------------------------------- load harness

  class EventLoadHarness {
    const distributor: Distributor
    var eventsSent: nat

    ghost predicate Valid()
      reads this, distributor, distributor.Repr
    {
      && distributor.Valid() && this !in distributor.Repr
      && distributor.initialized
      && eventsSent == distributor.State().rtProcessed && Balanced(distributor.State())
    }

    constructor ()
      ensures Valid() && fresh(distributor) && fresh(distributor.Repr)
      ensures eventsSent == 0
    {
      eventsSent := 0;
      distributor := new Distributor();
      new;
      distributor.Initialize();
    }

    /** One round of the producer loop; `value` is the 8-bit payload it counts up. */
    method Produce(value: bv8) returns (next: bv8)
      requires Valid()
      modifies this`eventsSent, distributor.Repr
      ensures Valid() && eventsSent == old(eventsSent) + 1 && next == value + 1
      ensures exists stamp: bv32 ::
        distributor.State() == Notify(old(distributor.State()), RTEvent(ParameterChange, 0, 0, value, stamp, 0))
    {
      var stamp: bv32 := *;
      OperationsKeepBalance(distributor.State(), 0);
      distributor.NotifyRTObservers(RTEvent(ParameterChange, 0, 0, value, stamp, 0));
      eventsSent := eventsSent + 1;
      next := value + 1;
    }

    /** The drain in the loop of `run`, while the producer is between two events. */
    method Poll()
      requires Valid()
      modifies distributor.Repr
      ensures Valid() && eventsSent == old(eventsSent)
      ensures distributor.State() == DrainUI(old(distributor.State()))
    {
      ghost var m := distributor.State();
      OperationsKeepBalance(m, Min(MAX_UI_EVENTS_PER_CALL, |m.toUi|));
      distributor.ProcessUIEvents();
    }

    /**
      The final loop of `run`, once the producer has stopped: it ends, with the
      queue empty and every event sent either delivered or dropped.
    */
    method Flush()
      requires Valid()
      modifies distributor.Repr
      ensures Valid() && distributor.State().toUi == []
      ensures eventsSent == old(eventsSent) == distributor.State().uiProcessed + distributor.State().rtDropped
      ensures distributor.State().uiCalls
        == old(distributor.State().uiCalls) + TellAll(distributor.uiObservers, old(distributor.State().toUi))
    {
      ghost var m := distributor.State();
      OperationsKeepBalance(m, |m.toUi|);
      DrainAll(distributor);
      assert m.toUi[..|m.toUi|] == m.toUi;
    }
  }

  /** The loop of `Flush`. */
  method DrainAll(d: Distributor)
    requires d.Valid() && d.initialized
    modifies d.Repr
    ensures d.Valid() && d.State() == TakeUI(old(d.State()), |old(d.State()).toUi|)
  {
    hide TellAll, Tell;
    ghost var m := d.State();
    TakeNone(m);
    var size := d.rtToUi.Size();
    ghost var taken: nat := 0;
    while size > 0
      invariant d.Valid() && taken + size == |m.toUi|
      invariant d.State() == TakeUI(m, taken)
      decreases size
    {
      ghost var n := Min(MAX_UI_EVENTS_PER_CALL, size);
      TakeMoreUI(m, taken, n);
      d.ProcessUIEvents();
      taken := taken + n;
      size := d.rtToUi.Size();
    }
  }

  lemma {:induction false} TakeMoreUI(m: Model, n: nat, k: nat)
    requires n + k <= |m.toUi|
    ensures TakeUI(TakeUI(m, n), k) == TakeUI(m, n + k)
  {
    TellAllConcat(m.uiObservers, m.toUi[..n], m.toUi[n..][..k]);
    assert m.toUi[..n + k] == m.toUi[..n] + m.toUi[n..][..k];
  }

  lemma {:induction false} TellAllConcat(observers: seq<Observer>, a: seq<RTEvent>, b: seq<RTEvent>)
    ensures TellAll(observers, a + b) == TellAll(observers, a) + TellAll(observers, b)
    decreases |b|
  {
    if b == [] {
      assert a + b == a;
    } else {
      var n := |b| - 1;
      assert (a + b)[..|a + b| - 1] == a + b[..n];
      TellAllConcat(observers, a, b[..n]);
    }
  }
}
