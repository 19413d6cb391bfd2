/**
  The ring buffer shared by one producer thread and one consumer thread, as a
  state machine whose steps are single atomic loads, atomic stores and slot
  accesses.

  Each atomic index keeps every value it ever held, newest last.  A thread reads
  its own index exactly.  An acquire load of the other thread's index may return
  any value from the one this thread last saw up to the newest (`view`), so the
  model covers release/acquire executions with stale reads; `view` naming the
  newest value gives the sequentially consistent ones.
*/
module QueueProtocol {
  import opened Options
  import opened Ring

  datatype Producer<T> =
    | PIdle
    | PCalled(item: T)
    | PLoadedTail(item: T, tail: nat)
    | PLoadedHead(item: T, tail: nat, head: nat)
    | PChecked(item: T, tail: nat)
    | PWritten(item: T, tail: nat)
    | PReturned(ok: bool)

  datatype Consumer<T> =
    | CIdle
    | CCalled
    | CLoadedHead(head: nat)
    | CLoadedTail(head: nat, tail: nat)
    | CChecked(head: nat)
    | CRead(head: nat, item: T)
    | CReturned(answer: Option<T>)

  /** What a call answers, logged at the instant that decides it; `missed` counts unseen updates. */
  datatype Event<T> =
    | Accepted(item: T)
    | Refused(item: T, missed: nat)
    | Delivered(item: T)
    | FoundEmpty(missed: nat)

  datatype State<T> = State(
    cap: nat,
    buf: seq<T>,
    heads: seq<nat>,       // values of m_head, newest last
    tails: seq<nat>,       // values of m_tail, newest last
    headSeen: nat,         // which head the producer saw last
    tailSeen: nat,         // which tail the consumer saw last
    producer: Producer<T>,
    consumer: Consumer<T>,
    log: seq<Event<T>>,
    accepted: seq<T>,
    delivered: seq<T>,
    slotWrites: seq<nat>,  // per slot, which tail store publishes the last write
    slotReads: seq<nat>)   // per slot, which head store follows the last read

  datatype Label<T> =
    | BeginEnqueue(item: T)
    | ProducerStep(view: nat)
    | EndEnqueue
    | BeginDequeue
    | ConsumerStep(view: nat)
    | EndDequeue

  ghost predicate Init<T>(s: State<T>) {
    && s.cap >= 1 && |s.buf| == |s.slotWrites| == |s.slotReads| == s.cap
    && s.heads == [0] && s.tails == [0] && s.headSeen == 0 && s.tailSeen == 0
    && s.producer == PIdle && s.consumer == CIdle
    && s.log == [] && s.accepted == [] && s.delivered == []
    && (forall i :: 0 <= i < s.cap ==> s.slotWrites[i] == 0 && s.slotReads[i] == 0)
  }

  /** Everything that keeps indexing in range. */
  predicate Shaped<T>(s: State<T>) {
    && s.cap >= 1 && |s.buf| == |s.slotWrites| == |s.slotReads| == s.cap
    && s.heads != [] && s.tails != []
    && (s.producer.PLoadedHead? || s.producer.PChecked? ==> s.producer.tail < s.cap)
    && (s.consumer.CLoadedTail? || s.consumer.CChecked? ==> s.consumer.head < s.cap)
  }

  predicate Enabled<T>(s: State<T>, l: Label<T>)
    requires Shaped(s)
  {
    match l
    case BeginEnqueue(_) => s.producer.PIdle?
    case ProducerStep(view) =>
      !s.producer.PIdle? && !s.producer.PReturned?
      && (s.producer.PLoadedTail? ==> s.headSeen <= view < |s.heads|)
    case EndEnqueue => s.producer.PReturned?
    case BeginDequeue => s.consumer.CIdle?
    case ConsumerStep(view) =>
      !s.consumer.CIdle? && !s.consumer.CReturned?
      && (s.consumer.CLoadedHead? ==> s.tailSeen <= view < |s.tails|)
    case EndDequeue => s.consumer.CReturned?
  }

  function Last<A>(s: seq<A>): A
    requires s != []
  {
    s[|s| - 1]
  }

  // The atomic steps of `enqueue`.

  function LoadOwnTail<T>(s: State<T>): State<T>
    requires s.producer.PCalled? && s.tails != []
  {
    s.(producer := PLoadedTail(s.producer.item, Last(s.tails)))
  }

  /** The acquire load of head, which decides a refusal. */
  function LoadHead<T>(s: State<T>, view: nat): State<T>
    requires s.producer.PLoadedTail? && view < |s.heads|
  {
    var item, tail, head := s.producer.item, s.producer.tail, s.heads[view];
    s.(producer := PLoadedHead(item, tail, head), headSeen := view,
       log := if Wrap(tail, s.cap) == head then s.log + [Refused(item, |s.heads| - 1 - view)] else s.log)
  }

  function TestHead<T>(s: State<T>): State<T>
    requires s.producer.PLoadedHead?
  {
    var item, tail := s.producer.item, s.producer.tail;
    s.(producer := if Wrap(tail, s.cap) == s.producer.head then PReturned(false) else PChecked(item, tail))
  }

  function WriteSlot<T>(s: State<T>): State<T>
    requires s.producer.PChecked? && s.producer.tail < |s.buf| == |s.slotWrites|
  {
    var item, tail := s.producer.item, s.producer.tail;
    s.(producer := PWritten(item, tail), buf := s.buf[tail := item], slotWrites := s.slotWrites[tail := |s.tails|])
  }

  function StoreTail<T>(s: State<T>): State<T>
    requires s.producer.PWritten?
  {
    var item, tail := s.producer.item, s.producer.tail;
    s.(producer := PReturned(true), tails := s.tails + [Wrap(tail, s.cap)],
       accepted := s.accepted + [item], log := s.log + [Accepted(item)])
  }

  // The atomic steps of `dequeue`.

  function LoadOwnHead<T>(s: State<T>): State<T>
    requires s.consumer.CCalled? && s.heads != []
  {
    s.(consumer := CLoadedHead(Last(s.heads)))
  }

  /** The acquire load of tail, which decides emptiness. */
  function LoadTail<T>(s: State<T>, view: nat): State<T>
    requires s.consumer.CLoadedHead? && view < |s.tails|
  {
    var head, tail := s.consumer.head, s.tails[view];
    s.(consumer := CLoadedTail(head, tail), tailSeen := view,
       log := if head == tail then s.log + [FoundEmpty(|s.tails| - 1 - view)] else s.log)
  }

  function TestTail<T>(s: State<T>): State<T>
    requires s.consumer.CLoadedTail?
  {
    var head := s.consumer.head;
    s.(consumer := if head == s.consumer.tail then CReturned(None) else CChecked(head))
  }

  function ReadSlot<T>(s: State<T>): State<T>
    requires s.consumer.CChecked? && s.consumer.head < |s.buf| == |s.slotReads|
  {
    var head := s.consumer.head;
    s.(consumer := CRead(head, s.buf[head]), slotReads := s.slotReads[head := |s.heads|])
  }

  function StoreHead<T>(s: State<T>): State<T>
    requires s.consumer.CRead?
  {
    var head, item := s.consumer.head, s.consumer.item;
    s.(consumer := CReturned(Some(item)), heads := s.heads + [Wrap(head, s.cap)],
       delivered := s.delivered + [item], log := s.log + [Delivered(item)])
  }

  function ProducerNext<T>(s: State<T>, view: nat): State<T>
    requires Shaped(s) && Enabled(s, ProducerStep(view))
  {
    match s.producer
    case PCalled(_) => LoadOwnTail(s)
    case PLoadedTail(_, _) => LoadHead(s, view)
    case PLoadedHead(_, _, _) => TestHead(s)
    case PChecked(_, _) => WriteSlot(s)
    case PWritten(_, _) => StoreTail(s)
  }

  function ConsumerNext<T>(s: State<T>, view: nat): State<T>
    requires Shaped(s) && Enabled(s, ConsumerStep(view))
  {
    match s.consumer
    case CCalled => LoadOwnHead(s)
    case CLoadedHead(_) => LoadTail(s, view)
    case CLoadedTail(_, _) => TestTail(s)
    case CChecked(_) => ReadSlot(s)
    case CRead(_, _) => StoreHead(s)
  }

  function Next<T>(s: State<T>, l: Label<T>): State<T>
    requires Shaped(s) && Enabled(s, l)
  {
    match l
    case BeginEnqueue(item) => s.(producer := PCalled(item))
    case ProducerStep(view) => ProducerNext(s, view)
    case EndEnqueue => s.(producer := PIdle)
    case BeginDequeue => s.(consumer := CCalled)
    case ConsumerStep(view) => ConsumerNext(s, view)
    case EndDequeue => s.(consumer := CIdle)
  }

  // ---------------------------------------------------------------- ring slots

  /** The slot of the k-th item. */
  function Slot(k: nat, cap: nat): (i: nat)
    requires cap > 0
    ensures i < cap
  {
    if k == 0 then 0 else Wrap(Slot(k - 1, cap), cap)
  }

  lemma {:induction false} SlotPlus(a: nat, j: nat, cap: nat)
    requires j <= cap && cap > 0
    ensures Slot(a + j, cap) == if Slot(a, cap) + j < cap then Slot(a, cap) + j else Slot(a, cap) + j - cap
    decreases j
  {
    if j > 0 {
      SlotPlus(a, j - 1, cap);
      assert Slot(a + j, cap) == Wrap(Slot(a + j - 1, cap), cap);
    }
  }

  /** Within one lap of the ring, equal slots mean equal items; one lap on, the slot is the same. */
  lemma {:induction false} SlotEqual(a: nat, b: nat, cap: nat)
    requires cap > 0 && a <= b <= a + cap
    ensures Slot(a, cap) == Slot(b, cap) <==> a == b || b == a + cap
  {
    SlotPlus(a, b - a, cap);
  }

  // ----------------------------------------------------------------- invariant

  function Published<T>(s: State<T>): int {
    |s.tails| - 1
  }

  function Freed<T>(s: State<T>): int {
    |s.heads| - 1
  }

  /** What an observer of both indices would call the queue. */
  ghost function Contents<T>(s: State<T>): seq<T> {
    if 0 <= Freed(s) <= |s.accepted| then s.accepted[Freed(s)..] else []
  }

  ghost predicate Indices<T>(s: State<T>) {
    && 1 <= s.cap == |s.buf|
    && |s.accepted| == Published(s) && |s.delivered| == Freed(s)
    && (forall k :: 0 <= k < |s.heads| ==> s.heads[k] == Slot(k, s.cap))
    && (forall k :: 0 <= k < |s.tails| ==> s.tails[k] == Slot(k, s.cap))
    && s.headSeen <= Freed(s) <= s.tailSeen <= Published(s) < s.headSeen + s.cap
  }

  ghost predicate Items<T>(s: State<T>) {
    && Indices(s)
    && s.delivered == s.accepted[..Freed(s)]
    && (forall k :: Freed(s) <= k < Published(s) ==> s.buf[Slot(k, s.cap)] == s.accepted[k])
  }

  ghost predicate ProducerOk<T>(s: State<T>) {
    Indices(s) &&
    var t := Slot(Published(s), s.cap);
    match s.producer
    case PLoadedTail(_, tail) => tail == t
    case PLoadedHead(_, tail, head) => tail == t && head == Slot(s.headSeen, s.cap)
    case PChecked(_, tail) => tail == t && Published(s) + 1 < s.headSeen + s.cap
    case PWritten(item, tail) => tail == t && Published(s) + 1 < s.headSeen + s.cap && s.buf[t] == item
    case _ => true
  }

  ghost predicate ConsumerOk<T>(s: State<T>) {
    Indices(s) &&
    var h := Slot(Freed(s), s.cap);
    match s.consumer
    case CLoadedHead(head) => head == h
    case CLoadedTail(head, tail) => head == h && tail == Slot(s.tailSeen, s.cap)
    case CChecked(head) => head == h && Freed(s) < s.tailSeen
    case CRead(head, item) => head == h && Freed(s) < s.tailSeen && item == s.accepted[Freed(s)]
    case _ => true
  }

  /** Who touched each slot last. */
  ghost predicate Accesses<T>(s: State<T>) {
    && Indices(s)
    && |s.slotWrites| == |s.slotReads| == s.cap
    && (forall i {:trigger s.slotWrites[i]} :: 0 <= i < s.cap && s.slotWrites[i] > 0 ==>
          var k := s.slotWrites[i] - 1;
          Slot(k, s.cap) == i && k + 1 < s.headSeen + s.cap && k <= Published(s)
          && (k == Published(s) ==> s.producer.PWritten?))
    && (forall i {:trigger s.slotReads[i]} :: 0 <= i < s.cap && s.slotReads[i] > 0 ==>
          var k := s.slotReads[i] - 1;
          Slot(k, s.cap) == i && k < s.tailSeen && k <= Freed(s))
  }

  /** The log replayed on a FIFO that holds at most `n` items: its contents, if every answer is right. */
  ghost function Replay<T>(n: nat, log: seq<Event<T>>): Option<seq<T>> {
    if log == [] then Some([])
    else
      match Replay(n, log[..|log| - 1])
      case None => None
      case Some(q) =>
        match Last(log)
        case Accepted(item) => if |q| < n then Some(q + [item]) else None
        case Refused(_, missed) => if |q| + missed == n then Some(q) else None
        case Delivered(item) => if q != [] && q[0] == item then Some(q[1..]) else None
        case FoundEmpty(missed) => if |q| == missed then Some(q) else None
  }

  ghost predicate Core<T>(s: State<T>) {
    Items(s) && ProducerOk(s) && ConsumerOk(s)
  }

  ghost predicate Answers<T>(s: State<T>) {
    s.cap >= 1 && Replay(s.cap - 1, s.log) == Some(Contents(s))
  }

  ghost predicate Inv<T>(s: State<T>) {
    Core(s) && Accesses(s) && Answers(s)
  }

  // -------------------------------------------------------------------- proofs

  lemma {:induction false} InvShaped<T>(s: State<T>)
    requires Inv(s)
    ensures Shaped(s)
  {
  }

  lemma {:induction false} InitInv<T>(s: State<T>)
    requires Init(s)
    ensures Inv(s)
  {
  }

  lemma {:induction false} ReplayAccepted<T>(n: nat, log: seq<Event<T>>, q: seq<T>, item: T)
    requires Replay(n, log) == Some(q) && |q| < n
    ensures Replay(n, log + [Accepted(item)]) == Some(q + [item])
  {
    assert (log + [Accepted(item)])[..|log|] == log;
  }

  lemma {:induction false} ReplayRefused<T>(n: nat, log: seq<Event<T>>, q: seq<T>, item: T, missed: nat)
    requires Replay(n, log) == Some(q) && |q| + missed == n
    ensures Replay(n, log + [Refused(item, missed)]) == Some(q)
  {
    assert (log + [Refused(item, missed)])[..|log|] == log;
  }

  lemma {:induction false} ReplayDelivered<T>(n: nat, log: seq<Event<T>>, q: seq<T>, item: T)
    requires Replay(n, log) == Some(q) && q != [] && q[0] == item
    ensures Replay(n, log + [Delivered(item)]) == Some(q[1..])
  {
    assert (log + [Delivered(item)])[..|log|] == log;
  }

  lemma {:induction false} ReplayFoundEmpty<T>(n: nat, log: seq<Event<T>>, q: seq<T>, missed: nat)
    requires Replay(n, log) == Some(q) && |q| == missed
    ensures Replay(n, log + [FoundEmpty(missed)]) == Some(q)
  {
    assert (log + [FoundEmpty(missed)])[..|log|] == log;
  }

  /** The full test in terms of item counts. */
  lemma {:induction false} FullTest(published: nat, seen: nat, cap: nat)
    requires cap > 0 && seen <= published < seen + cap
    ensures Wrap(Slot(published, cap), cap) == Slot(seen, cap) <==> published + 1 == seen + cap
  {
    SlotEqual(seen, published + 1, cap);
  }

  lemma {:induction false} EmptyTest(freed: nat, seen: nat, cap: nat)
    requires cap > 0 && freed <= seen < freed + cap
    ensures Slot(freed, cap) == Slot(seen, cap) <==> freed == seen
  {
    SlotEqual(freed, seen, cap);
  }

  // Each part of the invariant, step by step.

  /** A step that only moves the producer's program counter. */
  lemma {:induction false} ProducerMoves<T>(s: State<T>, p: Producer<T>)
    requires Inv(s) && !s.producer.PWritten? && ProducerOk(s.(producer := p))
    ensures Inv(s.(producer := p))
  {
    hide ProducerOk, Slot, Replay;
  }

  lemma {:induction false} ConsumerMoves<T>(s: State<T>, c: Consumer<T>)
    requires Inv(s) && ConsumerOk(s.(consumer := c))
    ensures Inv(s.(consumer := c))
  {
    hide ConsumerOk, Slot, Replay;
  }

  lemma {:induction false} LoadOwnTailKeeps<T>(s: State<T>)
    requires Inv(s) && s.producer.PCalled?
    ensures Inv(LoadOwnTail(s))
  {
    hide Accesses, Replay;
    ProducerMoves(s, LoadOwnTail(s).producer);
  }

  lemma {:induction false} LoadHeadCore<T>(s: State<T>, view: nat)
    requires Core(s) && Accesses(s) && s.producer.PLoadedTail? && s.headSeen <= view < |s.heads|
    ensures Core(LoadHead(s, view)) && Accesses(LoadHead(s, view))
  {
  }

  lemma {:induction false} LoadHeadAnswers<T>(s: State<T>, view: nat)
    requires ProducerOk(s) && Answers(s) && s.producer.PLoadedTail? && s.headSeen <= view < |s.heads|
    ensures Answers(LoadHead(s, view))
  {
    hide Slot, Wrap, Replay;
    var q, missed, item := Contents(s), |s.heads| - 1 - view, s.producer.item;
    var s' := LoadHead(s, view);
    assert Contents(s') == q && s'.cap == s.cap;
    FullTest(Published(s), view, s.cap);
    if Wrap(s.producer.tail, s.cap) == s.heads[view] {
      assert |q| + missed == s.cap - 1;
      ReplayRefused(s.cap - 1, s.log, q, item, missed);
      assert s'.log == s.log + [Refused(item, missed)];
    } else {
      assert s'.log == s.log;
    }
  }

  lemma {:induction false} LoadHeadKeeps<T>(s: State<T>, view: nat)
    requires Inv(s) && s.producer.PLoadedTail? && s.headSeen <= view < |s.heads|
    ensures Inv(LoadHead(s, view))
  {
    LoadHeadCore(s, view);
    LoadHeadAnswers(s, view);
  }

  lemma {:induction false} TestHeadKeeps<T>(s: State<T>)
    requires Inv(s) && s.producer.PLoadedHead?
    ensures Inv(TestHead(s))
  {
    hide Accesses, Replay, Slot, Wrap;
    FullTest(Published(s), s.headSeen, s.cap);
    ProducerMoves(s, TestHead(s).producer);
  }

  lemma {:induction false} WriteSlotCore<T>(s: State<T>)
    requires Core(s) && s.producer.PChecked? && |s.slotWrites| == s.cap
    ensures Core(WriteSlot(s))
  {
    var s' := WriteSlot(s);
    forall k | Freed(s) <= k < Published(s)
      ensures s'.buf[Slot(k, s.cap)] == s.accepted[k]
    {
      SlotEqual(k, Published(s), s.cap);
    }
  }

  lemma {:induction false} WriteSlotAccesses<T>(s: State<T>)
    requires ProducerOk(s) && Accesses(s) && s.producer.PChecked?
    ensures Accesses(WriteSlot(s))
  {
    hide Slot;
  }

  lemma {:induction false} WriteSlotKeeps<T>(s: State<T>)
    requires Inv(s) && s.producer.PChecked?
    ensures Inv(WriteSlot(s))
  {
    WriteSlotCore(s);
    WriteSlotAccesses(s);
    hide Accesses, Core, Replay;
  }

  lemma {:induction false} NextSlot(k: nat, cap: nat)
    requires cap > 0
    ensures Slot(k + 1, cap) == Wrap(Slot(k, cap), cap)
  {
  }

  lemma {:induction false} StoreTailItems<T>(s: State<T>)
    requires Items(s) && ProducerOk(s) && s.producer.PWritten?
    ensures Items(StoreTail(s)) && Contents(StoreTail(s)) == Contents(s) + [s.producer.item]
  {
    hide Wrap, Slot;
    var s' := StoreTail(s);
    NextSlot(Published(s), s.cap);
    assert s'.tails == s.tails + [Slot(Published(s'), s.cap)];
    assert s'.accepted[..Freed(s)] == s.accepted[..Freed(s)];
  }

  lemma {:induction false} StoreTailCore<T>(s: State<T>)
    requires Core(s) && s.producer.PWritten?
    ensures Core(StoreTail(s)) && Contents(StoreTail(s)) == Contents(s) + [s.producer.item]
  {
    hide Wrap, Slot;
    StoreTailItems(s);
  }

  lemma {:induction false} StoreTailAccesses<T>(s: State<T>)
    requires Core(s) && Accesses(s) && s.producer.PWritten? && Indices(StoreTail(s))
    ensures Accesses(StoreTail(s))
  {
  }

  lemma {:induction false} StoreTailKeeps<T>(s: State<T>)
    requires Inv(s) && s.producer.PWritten?
    ensures Inv(StoreTail(s))
  {
    hide Accesses, Replay;
    StoreTailCore(s);
    StoreTailAccesses(s);
    ReplayAccepted(s.cap - 1, s.log, Contents(s), s.producer.item);
  }

  lemma {:induction false} LoadOwnHeadKeeps<T>(s: State<T>)
    requires Inv(s) && s.consumer.CCalled?
    ensures Inv(LoadOwnHead(s))
  {
    hide Accesses, Replay;
    ConsumerMoves(s, LoadOwnHead(s).consumer);
  }

  lemma {:induction false} LoadTailCore<T>(s: State<T>, view: nat)
    requires Core(s) && Accesses(s) && s.consumer.CLoadedHead? && s.tailSeen <= view < |s.tails|
    ensures Core(LoadTail(s, view)) && Accesses(LoadTail(s, view))
  {
  }

  lemma {:induction false} LoadTailAnswers<T>(s: State<T>, view: nat)
    requires ConsumerOk(s) && Answers(s) && s.consumer.CLoadedHead? && s.tailSeen <= view < |s.tails|
    ensures Answers(LoadTail(s, view))
  {
    hide Slot, Wrap, Replay;
    var q, missed := Contents(s), |s.tails| - 1 - view;
    var s' := LoadTail(s, view);
    assert Contents(s') == q && s'.cap == s.cap;
    EmptyTest(Freed(s), view, s.cap);
    if s.consumer.head == s.tails[view] {
      assert |q| == missed;
      ReplayFoundEmpty(s.cap - 1, s.log, q, missed);
      assert s'.log == s.log + [FoundEmpty(missed)];
    } else {
      assert s'.log == s.log;
    }
  }

  lemma {:induction false} LoadTailKeeps<T>(s: State<T>, view: nat)
    requires Inv(s) && s.consumer.CLoadedHead? && s.tailSeen <= view < |s.tails|
    ensures Inv(LoadTail(s, view))
  {
    LoadTailCore(s, view);
    LoadTailAnswers(s, view);
  }

  lemma {:induction false} TestTailKeeps<T>(s: State<T>)
    requires Inv(s) && s.consumer.CLoadedTail?
    ensures Inv(TestTail(s))
  {
    hide Accesses, Replay, Slot, Wrap;
    EmptyTest(Freed(s), s.tailSeen, s.cap);
    ConsumerMoves(s, TestTail(s).consumer);
  }

  lemma {:induction false} ReadSlotKeeps<T>(s: State<T>)
    requires Inv(s) && s.consumer.CChecked?
    ensures Inv(ReadSlot(s))
  {
    hide Replay;
  }

  lemma {:induction false} StoreHeadCore<T>(s: State<T>)
    requires Core(s) && s.consumer.CRead?
    ensures Core(StoreHead(s))
    ensures Contents(s) != [] && Contents(s)[0] == s.consumer.item && Contents(StoreHead(s)) == Contents(s)[1..]
  {
    var s' := StoreHead(s);
    assert s'.heads[Freed(s')] == Slot(Freed(s'), s.cap);
    assert s'.delivered == s.accepted[..Freed(s')];
  }

  lemma {:induction false} StoreHeadAccesses<T>(s: State<T>)
    requires Core(s) && Accesses(s) && s.consumer.CRead? && Indices(StoreHead(s))
    ensures Accesses(StoreHead(s))
  {
  }

  lemma {:induction false} StoreHeadKeeps<T>(s: State<T>)
    requires Inv(s) && s.consumer.CRead?
    ensures Inv(StoreHead(s))
  {
    hide Accesses, Replay;
    StoreHeadCore(s);
    StoreHeadAccesses(s);
    ReplayDelivered(s.cap - 1, s.log, Contents(s), s.consumer.item);
  }

  /** Every atomic step of either thread, whatever its loads return, keeps the invariant. */
  lemma {:induction false} StepKeeps<T>(s: State<T>, l: Label<T>)
    requires Inv(s) && Shaped(s) && Enabled(s, l)
    ensures Inv(Next(s, l))
  {
    match l
    case ProducerStep(view) => ProducerKeeps(s, view);
    case ConsumerStep(view) => ConsumerKeeps(s, view);
    case BeginEnqueue(item) => ProducerEdge(s, PCalled(item));
    case EndEnqueue => ProducerEdge(s, PIdle);
    case BeginDequeue => ConsumerEdge(s, CCalled);
    case EndDequeue => ConsumerEdge(s, CIdle);
  }

  lemma {:induction false} ProducerEdge<T>(s: State<T>, p: Producer<T>)
    requires Inv(s) && !s.producer.PWritten? && (p.PCalled? || p.PIdle?)
    ensures Inv(s.(producer := p))
  {
    hide Accesses, Replay;
    ProducerMoves(s, p);
  }

  lemma {:induction false} ConsumerEdge<T>(s: State<T>, c: Consumer<T>)
    requires Inv(s) && (c.CCalled? || c.CIdle?)
    ensures Inv(s.(consumer := c))
  {
    hide Accesses, Replay;
    ConsumerMoves(s, c);
  }

  lemma {:induction false} ProducerKeeps<T>(s: State<T>, view: nat)
    requires Inv(s) && Shaped(s) && Enabled(s, ProducerStep(view))
    ensures Inv(ProducerNext(s, view))
  {
    match s.producer
    case PCalled(_) => LoadOwnTailKeeps(s);
    case PLoadedTail(_, _) => LoadHeadKeeps(s, view);
    case PLoadedHead(_, _, _) => TestHeadKeeps(s);
    case PChecked(_, _) => WriteSlotKeeps(s);
    case PWritten(_, _) => StoreTailKeeps(s);
  }

  lemma {:induction false} ConsumerKeeps<T>(s: State<T>, view: nat)
    requires Inv(s) && Shaped(s) && Enabled(s, ConsumerStep(view))
    ensures Inv(ConsumerNext(s, view))
  {
    match s.consumer
    case CCalled => LoadOwnHeadKeeps(s);
    case CLoadedHead(_) => LoadTailKeeps(s, view);
    case CLoadedTail(_, _) => TestTailKeeps(s);
    case CChecked(_) => ReadSlotKeeps(s);
    case CRead(_, _) => StoreHeadKeeps(s);
  }

  // ------------------------------------------------------------- main theorems

  /** A run: each state comes from the one before by an enabled step. */
  ghost predicate IsRun<T>(states: seq<State<T>>, labels: seq<Label<T>>) {
    && |states| == |labels| + 1 && Init(states[0])
    && (forall i :: 0 <= i < |labels| ==>
          Shaped(states[i]) && Enabled(states[i], labels[i]) && states[i + 1] == Next(states[i], labels[i]))
  }

  /** No step ever leaves the shape that `IsRun` mentions, so runs are only limited by the protocol. */
  lemma {:induction false} RunInv<T>(states: seq<State<T>>, labels: seq<Label<T>>)
    requires IsRun(states, labels)
    ensures forall i :: 0 <= i < |states| ==> Inv(states[i]) && Shaped(states[i])
    decreases |labels|
  {
    if labels == [] {
      InitInv(states[0]);
    } else {
      var n := |labels| - 1;
      RunInv(states[..n + 1], labels[..n]);
      assert states[n] == states[..n + 1][n];
      StepKeeps(states[n], labels[n]);
      InvShaped(states[n + 1]);
      forall i | 0 <= i < |states|
        ensures Inv(states[i]) && Shaped(states[i])
      {
        if i <= n {
          assert states[i] == states[..n + 1][i];
        }
      }
    }
  }

  /**
    Every reachable state of every interleaving: the answers given so far are
    those of a bounded FIFO fed one call at a time, what was dequeued is a prefix
    of what was accepted, and the rest is in the queue, never more than fits.
  */
  lemma {:induction false} RunRefinesFifo<T>(states: seq<State<T>>, labels: seq<Label<T>>, i: nat)
    requires IsRun(states, labels) && i < |states|
    ensures var s := states[i];
      && s.cap >= 1 && Replay(s.cap - 1, s.log) == Some(Contents(s))
      && s.accepted == s.delivered + Contents(s)
      && |Contents(s)| <= s.cap - 1
  {
    RunInv(states, labels);
  }

  /** In no reachable state does a slot access conflict with the other thread. */
  lemma {:induction false} RunDoesNotRace<T>(states: seq<State<T>>, labels: seq<Label<T>>, i: nat)
    requires IsRun(states, labels) && i < |states|
    ensures var s := states[i];
      && Shaped(s)
      && (s.producer.PChecked? ==> s.slotReads[s.producer.tail] <= s.headSeen)
      && (s.consumer.CChecked? ==> s.slotWrites[s.consumer.head] <= s.tailSeen)
      && (s.producer.PChecked? && s.consumer.CChecked? ==> s.producer.tail != s.consumer.head)
  {
    RunInv(states, labels);
    var s := states[i];
    if s.producer.PChecked? {
      WriteDoesNotRace(s);
    }
    if s.consumer.CChecked? {
      ReadDoesNotRace(s);
    }
    if s.producer.PChecked? && s.consumer.CChecked? {
      SlotsExclusive(s);
    }
  }

  /** The buffer and the newest indices, read as one thread would, hold what the calls so far left in the queue. */
  lemma {:induction false} ContentsAreRing<T>(s: State<T>)
    requires Inv(s)
    ensures Last(s.heads) < s.cap && Last(s.tails) < s.cap
    ensures Ring.Items(s.buf, Last(s.heads), Last(s.tails)) == Contents(s)
  {
    hide Replay, ProducerOk, ConsumerOk, Accesses, Slot, Ring.Items;
    var d, q := Freed(s), Contents(s);
    forall k | 0 <= k < |q|
      ensures s.buf[Slot(d + k, s.cap)] == q[k]
    {
      assert q[k] == s.accepted[d + k];
    }
    RingHolds(s.buf, d, q);
  }

  /** Items in the slots from that of the d-th on are what the ring holds between the two indices. */
  lemma {:induction false} RingHolds<T>(buf: seq<T>, d: nat, q: seq<T>)
    requires |q| < |buf|
    requires forall k :: 0 <= k < |q| ==> buf[Slot(d + k, |buf|)] == q[k]
    ensures Ring.Items(buf, Slot(d, |buf|), Slot(d + |q|, |buf|)) == q
  {
    SlotPlus(d, |q|, |buf|);
    var items := Ring.Items(buf, Slot(d, |buf|), Slot(d + |q|, |buf|));
    forall k | 0 <= k < |q|
      ensures items[k] == q[k]
    {
      SlotPlus(d, k, |buf|);
      assert buf[Slot(d + k, |buf|)] == q[k];
    }
  }

  /** The producer's slot write happens after every earlier read of that slot. */
  lemma {:induction false} WriteDoesNotRace<T>(s: State<T>)
    requires Inv(s) && s.producer.PChecked?
    ensures s.slotReads[s.producer.tail] <= s.headSeen
  {
    var i := s.producer.tail;
    if s.slotReads[i] > 0 {
      var k := s.slotReads[i] - 1;
      if k >= s.headSeen {
        SlotEqual(k, Published(s), s.cap);
      }
    }
  }

  /** The consumer's slot read happens after the write of the item it takes. */
  lemma {:induction false} ReadDoesNotRace<T>(s: State<T>)
    requires Inv(s) && s.consumer.CChecked?
    ensures s.slotWrites[s.consumer.head] <= s.tailSeen
  {
    var i := s.consumer.head;
    if s.slotWrites[i] > 0 {
      var k := s.slotWrites[i] - 1;
      if k >= Freed(s) {
        SlotEqual(Freed(s), k, s.cap);
      }
    }
  }

  /** The two threads are never about to touch the same slot. */
  lemma {:induction false} SlotsExclusive<T>(s: State<T>)
    requires Inv(s) && s.producer.PChecked? && s.consumer.CChecked?
    ensures s.producer.tail != s.consumer.head
  {
    SlotEqual(Freed(s), Published(s), s.cap);
  }

  /**
    `enqueue` refuses exactly when the queue, counting the dequeues its load did
    not see, was full at that load; with an up-to-date load, exactly when full.
  */
  lemma {:induction false} RefusalMeansFull<T>(s: State<T>, view: nat)
    requires Inv(s) && s.producer.PLoadedTail? && s.headSeen <= view < |s.heads|
    ensures TestHead(LoadHead(s, view)).producer == PReturned(false)
      <==> |Contents(s)| + (|s.heads| - 1 - view) == s.cap - 1
  {
    FullTest(Published(s), view, s.cap);
  }

  lemma {:induction false} NoneMeansEmpty<T>(s: State<T>, view: nat)
    requires Inv(s) && s.consumer.CLoadedHead? && s.tailSeen <= view < |s.tails|
    ensures TestTail(LoadTail(s, view)).consumer == CReturned(None)
      <==> |Contents(s)| == |s.tails| - 1 - view
  {
    EmptyTest(Freed(s), view, s.cap);
  }

  // ---------------------------------------------------------------------- size

  /** `size()` from the two loaded indices. */
  function SizeOf(cap: nat, tail: nat, head: nat): int {
    if tail >= head then tail - head else cap - head + tail
  }

  /** From any thread, however stale the two loads. */
  lemma {:induction false} SizeBounded(cap: nat, tail: nat, head: nat)
    requires tail < cap && head < cap
    ensures 0 <= SizeOf(cap, tail, head) <= cap - 1
  {
  }

  lemma {:induction false} SizeCounts(cap: nat, published: nat, freed: nat)
    requires cap > 0 && freed <= published < freed + cap
    ensures SizeOf(cap, Slot(published, cap), Slot(freed, cap)) == published - freed
  {
    SlotPlus(freed, published - freed, cap);
  }

  /** On the producer's thread: exact for the head it loads, and so exact at the load when that is the newest. */
  lemma {:induction false} SizeForProducer<T>(s: State<T>, view: nat)
    requires Inv(s) && s.headSeen <= view < |s.heads|
    ensures SizeOf(s.cap, Last(s.tails), s.heads[view]) == |Contents(s)| + (|s.heads| - 1 - view) <= s.cap - 1
  {
    SizeCounts(s.cap, Published(s), view);
  }

  /** On the consumer's thread, which loads the tail first and whose own head stands still meanwhile. */
  lemma {:induction false} SizeForConsumer<T>(s: State<T>, view: nat)
    requires Inv(s) && s.tailSeen <= view < |s.tails|
    ensures SizeOf(s.cap, s.tails[view], Last(s.heads)) == |Contents(s)| - (|s.tails| - 1 - view)
  {
    SizeCounts(s.cap, view, Freed(s));
  }

  // -------------------------------------------------------------- wait freedom

  function ProducerRank<T>(p: Producer<T>): nat {
    match p
    case PIdle => 0
    case PCalled(_) => 5
    case PLoadedTail(_, _) => 4
    case PLoadedHead(_, _, _) => 3
    case PChecked(_, _) => 2
    case PWritten(_, _) => 1
    case PReturned(_) => 0
  }

  function ConsumerRank<T>(c: Consumer<T>): nat {
    match c
    case CIdle => 0
    case CCalled => 5
    case CLoadedHead(_) => 4
    case CLoadedTail(_, _) => 3
    case CChecked(_) => 2
    case CRead(_, _) => 1
    case CReturned(_) => 0
  }

  /**
    Neither call ever waits for the other thread: a step is always enabled, and
    every enabled one, whatever its load returns, brings the call nearer its end,
    at most five steps away.
  */
  lemma {:induction false} WaitFree<T>(s: State<T>, view: nat)
    requires Inv(s)
    ensures Shaped(s) && ProducerRank(s.producer) <= 5 && ConsumerRank(s.consumer) <= 5
    ensures !s.producer.PIdle? && !s.producer.PReturned? ==> Enabled(s, ProducerStep(|s.heads| - 1))
    ensures !s.consumer.CIdle? && !s.consumer.CReturned? ==> Enabled(s, ConsumerStep(|s.tails| - 1))
    ensures Enabled(s, ProducerStep(view)) ==>
      ProducerRank(ProducerNext(s, view).producer) < ProducerRank(s.producer)
    ensures Enabled(s, ConsumerStep(view)) ==>
      ConsumerRank(ConsumerNext(s, view).consumer) < ConsumerRank(s.consumer)
  {
    InvShaped(s);
  }
}
