/** The events that pass between the RT thread and the UI thread, and how many a drain takes at most. */
module Events {
  const MAX_UI_EVENTS_PER_CALL: nat := 32
  const MAX_RT_EVENTS_PER_CALL: nat := 16

  datatype RTEventType = MidiInput | MidiOutput | ParameterChange | ClockTick | ControlChange

  datatype RTEvent = RTEvent(kind: RTEventType, channel: bv8, data1: bv8, data2: bv8,
                             timestampUs: bv32, sourceId: bv32)
}

/**
  Any run of the RT thread and the UI thread of RTSafeEventDistributor, both
  queues stepping one atomic access at a time.

  The RT thread may dispatch fresh events and drain the UI-to-RT queue; the UI
  thread may send events and drain the RT-to-UI queue.  Each label below is one
  indivisible action of one of them.
*/
module BridgeProtocol {
  import opened Options
  import opened Events
  import opened IntMath
  import opened Selection
  import Q = QueueProtocol

  /** Where the RT thread is; `drained` tells a dispatch from `processRTEvents` from a direct one. */
  datatype RtThread =
    | RIdle
    | RDrain(count: nat)
    | RDequeue(count: nat)
    | RObserve(event: RTEvent, next: nat, drained: Option<nat>)
    | REnqueue(event: RTEvent, drained: Option<nat>)
    | RDropped(drained: Option<nat>)
    | RCount(drained: Option<nat>)

  datatype UiThread =
    | UIdle
    | USend(event: RTEvent)
    | UDrain(count: nat)
    | UDequeue(count: nat)
    | UObserve(event: RTEvent, next: nat, count: nat)
    | UCount(count: nat)

  datatype Bridge = Bridge(
    toUi: Q.State<RTEvent>,
    toRt: Q.State<RTEvent>,
    rtProcessed: nat,
    uiProcessed: nat,
    rtDropped: nat,
    rt: RtThread,
    ui: UiThread,
    // history
    dispatched: seq<RTEvent>,      // events whose dispatch has begun
    echoed: seq<bool>,             // for each, whether it came through the UI-to-RT queue
    queued: seq<bool>,             // for each whose enqueue returned, the answer
    rtSeen: seq<seq<RTEvent>>,     // per RT observer, in priority order, the events handled
    uiSeen: seq<seq<RTEvent>>)     // per UI observer

  datatype Label =
    | Notify(event: RTEvent)
    | StartDrainRT
    | RtStep(view: nat)
    | Send(event: RTEvent)
    | StartDrainUI
    | UiStep(view: nat)

  /** `initialize()` was called on empty queues and the observers have been added. */
  ghost predicate Init(s: Bridge) {
    && Q.Init(s.toUi) && Q.Init(s.toRt)
    && s.rtProcessed == s.uiProcessed == s.rtDropped == 0
    && s.rt == RIdle && s.ui == UIdle
    && s.dispatched == [] && s.echoed == [] && s.queued == []
    && (forall j :: 0 <= j < |s.rtSeen| ==> s.rtSeen[j] == [])
    && (forall j :: 0 <= j < |s.uiSeen| ==> s.uiSeen[j] == [])
  }

  // ------------------------------------------------------------ RT thread steps

  /** Entering `notifyRTObservers`. */
  function Dispatch(s: Bridge, e: RTEvent, drained: Option<nat>): Bridge {
    s.(rt := RObserve(e, 0, drained), dispatched := s.dispatched + [e], echoed := s.echoed + [drained.Some?])
  }

  /** Loop head of `processRTEvents`. */
  function DrainRT(s: Bridge): Bridge
    requires s.rt.RDrain?
  {
    if s.rt.count < MAX_RT_EVENTS_PER_CALL then
      s.(rt := RDequeue(s.rt.count), toRt := s.toRt.(consumer := Q.CCalled))
    else
      s.(rt := RIdle)
  }

  function DequeueRT(s: Bridge, view: nat): Bridge
    requires s.rt.RDequeue? && CanDequeue(s.toRt, view)
  {
    match s.toRt.consumer
    case CReturned(answer) =>
      var s' := s.(toRt := s.toRt.(consumer := Q.CIdle));
      if answer.Some? then Dispatch(s', answer.value, Some(s.rt.count)) else s'.(rt := RIdle)
    case _ => s.(toRt := Q.ConsumerNext(s.toRt, view))
  }

  function ObserveRT(s: Bridge): Bridge
    requires s.rt.RObserve?
  {
    var e, i := s.rt.event, s.rt.next;
    if i < |s.rtSeen| then
      s.(rt := s.rt.(next := i + 1), rtSeen := s.rtSeen[i := s.rtSeen[i] + [e]])
    else
      s.(rt := REnqueue(e, s.rt.drained), toUi := s.toUi.(producer := Q.PCalled(e)))
  }

  function EnqueueRT(s: Bridge, view: nat): Bridge
    requires s.rt.REnqueue? && CanEnqueue(s.toUi, view)
  {
    match s.toUi.producer
    case PReturned(ok) =>
      s.(toUi := s.toUi.(producer := Q.PIdle), queued := s.queued + [ok],
         rt := if ok then RCount(s.rt.drained) else RDropped(s.rt.drained))
    case _ => s.(toUi := Q.ProducerNext(s.toUi, view))
  }

  function DropRT(s: Bridge): Bridge
    requires s.rt.RDropped?
  {
    s.(rt := RCount(s.rt.drained), rtDropped := s.rtDropped + 1)
  }

  function CountRT(s: Bridge): Bridge
    requires s.rt.RCount?
  {
    s.(rtProcessed := s.rtProcessed + 1,
       rt := if s.rt.drained.Some? then RDrain(s.rt.drained.value + 1) else RIdle)
  }

  // ------------------------------------------------------------ UI thread steps

  function SendUI(s: Bridge, view: nat): Bridge
    requires s.ui.USend? && CanEnqueue(s.toRt, view)
  {
    if s.toRt.producer.PReturned? then
      s.(ui := UIdle, toRt := s.toRt.(producer := Q.PIdle))
    else
      s.(toRt := Q.ProducerNext(s.toRt, view))
  }

  /** Loop head of `processUIEvents`. */
  function DrainUI(s: Bridge): Bridge
    requires s.ui.UDrain?
  {
    if s.ui.count < MAX_UI_EVENTS_PER_CALL then
      s.(ui := UDequeue(s.ui.count), toUi := s.toUi.(consumer := Q.CCalled))
    else
      s.(ui := UIdle)
  }

  function DequeueUI(s: Bridge, view: nat): Bridge
    requires s.ui.UDequeue? && CanDequeue(s.toUi, view)
  {
    match s.toUi.consumer
    case CReturned(answer) =>
      s.(toUi := s.toUi.(consumer := Q.CIdle),
         ui := if answer.Some? then UObserve(answer.value, 0, s.ui.count) else UIdle)
    case _ => s.(toUi := Q.ConsumerNext(s.toUi, view))
  }

  function ObserveUI(s: Bridge): Bridge
    requires s.ui.UObserve?
  {
    var e, i := s.ui.event, s.ui.next;
    if i < |s.uiSeen| then
      s.(ui := s.ui.(next := i + 1), uiSeen := s.uiSeen[i := s.uiSeen[i] + [e]])
    else
      s.(ui := UCount(s.ui.count))
  }

  function CountUI(s: Bridge): Bridge
    requires s.ui.UCount?
  {
    s.(uiProcessed := s.uiProcessed + 1, ui := UDrain(s.ui.count + 1))
  }

  // ------------------------------------------------------------ the whole system

  predicate CanDequeue(q: Q.State<RTEvent>, view: nat) {
    q.consumer.CReturned? || (Q.Shaped(q) && Q.Enabled(q, Q.ConsumerStep(view)))
  }

  predicate CanEnqueue(q: Q.State<RTEvent>, view: nat) {
    q.producer.PReturned? || (Q.Shaped(q) && Q.Enabled(q, Q.ProducerStep(view)))
  }

  predicate Enabled(s: Bridge, l: Label) {
    match l
    case Notify(_) => s.rt.RIdle?
    case StartDrainRT => s.rt.RIdle?
    case RtStep(view) =>
      && !s.rt.RIdle?
      && (s.rt.RDequeue? ==> CanDequeue(s.toRt, view))
      && (s.rt.REnqueue? ==> CanEnqueue(s.toUi, view))
    case Send(_) => s.ui.UIdle?
    case StartDrainUI => s.ui.UIdle?
    case UiStep(view) =>
      && !s.ui.UIdle?
      && (s.ui.USend? ==> CanEnqueue(s.toRt, view))
      && (s.ui.UDequeue? ==> CanDequeue(s.toUi, view))
  }

  function RtNext(s: Bridge, view: nat): Bridge
    requires Enabled(s, RtStep(view))
  {
    match s.rt
    case RDrain(_) => DrainRT(s)
    case RDequeue(_) => DequeueRT(s, view)
    case RObserve(_, _, _) => ObserveRT(s)
    case REnqueue(_, _) => EnqueueRT(s, view)
    case RDropped(_) => DropRT(s)
    case RCount(_) => CountRT(s)
  }

  function UiNext(s: Bridge, view: nat): Bridge
    requires Enabled(s, UiStep(view))
  {
    match s.ui
    case USend(_) => SendUI(s, view)
    case UDrain(_) => DrainUI(s)
    case UDequeue(_) => DequeueUI(s, view)
    case UObserve(_, _, _) => ObserveUI(s)
    case UCount(_) => CountUI(s)
  }

  function Next(s: Bridge, l: Label): Bridge
    requires Enabled(s, l)
  {
    match l
    case Notify(e) => Dispatch(s, e, None)
    case StartDrainRT => s.(rt := RDrain(0))
    case RtStep(view) => RtNext(s, view)
    case Send(e) => s.(ui := USend(e), toRt := s.toRt.(producer := Q.PCalled(e)))
    case StartDrainUI => s.(ui := UDrain(0))
    case UiStep(view) => UiNext(s, view)
  }

  // ----------------------------------------------------------------- invariant

  /** A thread is inside a queue call exactly when the queue says so. */
  ghost predicate Calls(s: Bridge) {
    && (s.rt.REnqueue? <==> !s.toUi.producer.PIdle?)
    && (s.rt.RDequeue? <==> !s.toRt.consumer.CIdle?)
    && (s.ui.USend? <==> !s.toRt.producer.PIdle?)
    && (s.ui.UDequeue? <==> !s.toUi.consumer.CIdle?)
  }

  /** The item an enqueue in progress is about. */
  ghost predicate Carries(p: Q.Producer<RTEvent>, e: RTEvent) {
    match p
    case PIdle => true
    case PReturned(_) => true
    case _ => p.item == e
  }

  /** What a call that has finished but not yet returned to the thread leaves in flight. */
  function Taken(c: Q.Consumer<RTEvent>): seq<RTEvent> {
    if c.CReturned? && c.answer.Some? then [c.answer.value] else []
  }

  /** Dispatches the RT thread has begun but not finished queueing. */
  function RtPending(s: Bridge): nat {
    if s.rt.RObserve? || s.rt.REnqueue? then 1 else 0
  }

  ghost predicate RtOk(s: Bridge) {
    && |s.echoed| == |s.dispatched| == |s.queued| + RtPending(s)
    && (s.rt.RObserve? || s.rt.REnqueue? ==> s.rt.event == s.dispatched[|s.queued|])
    && (s.rt.REnqueue? ==> Carries(s.toUi.producer, s.rt.event))
    && s.toUi.accepted == Selected(s.dispatched, s.queued)
         + (if s.rt.REnqueue? && s.toUi.producer == Q.PReturned(true) then [s.rt.event] else [])
    && s.toRt.delivered == Selected(s.dispatched, s.echoed) + Taken(s.toRt.consumer)
  }

  ghost predicate RtCounters(s: Bridge) {
    && Rejects(s.queued) == s.rtDropped + (if s.rt.RDropped? then 1 else 0)
    && |s.queued| == s.rtProcessed + (if s.rt.RDropped? || s.rt.RCount? then 1 else 0)
  }

  /** In priority order, each RT observer has handled every dispatched event, but for the one in hand. */
  ghost predicate RtObservers(s: Bridge) {
    && (s.rt.RObserve? ==> s.rt.next <= |s.rtSeen| && s.dispatched != [])
    && (forall j :: 0 <= j < |s.rtSeen| ==>
          s.rtSeen[j] == if s.rt.RObserve? && j >= s.rt.next then s.dispatched[..|s.dispatched| - 1] else s.dispatched)
  }

  ghost predicate UiOk(s: Bridge) {
    && (s.ui.UObserve? ==> s.ui.next <= |s.uiSeen|)
    && |s.toUi.delivered| == s.uiProcessed + UiPending(s)
    && (s.ui.UObserve? ==> s.ui.event == s.toUi.delivered[s.uiProcessed])
    && (s.toUi.consumer.CReturned? && s.toUi.consumer.answer.Some? ==>
          s.ui.UDequeue? && s.toUi.consumer.answer.value == s.toUi.delivered[s.uiProcessed])
    && (forall j :: 0 <= j < |s.uiSeen| ==>
          s.uiSeen[j] == s.toUi.delivered[..s.uiProcessed + (if HasSeen(s, j) then 1 else 0)])
  }

  predicate HasSeen(s: Bridge, j: nat) {
    s.ui.UCount? || (s.ui.UObserve? && j < s.ui.next)
  }

  /** Events taken from the queue that the UI thread has not counted yet. */
  function UiPending(s: Bridge): nat {
    if s.ui.UObserve? || s.ui.UCount? || Taken(s.toUi.consumer) != [] then 1 else 0
  }

  ghost predicate Queues(s: Bridge) {
    Q.Inv(s.toUi) && Q.Inv(s.toRt)
  }

  ghost predicate Threads(s: Bridge) {
    Calls(s) && RtOk(s) && RtCounters(s) && RtObservers(s) && UiOk(s)
  }

  ghost predicate Inv(s: Bridge) {
    Queues(s) && Threads(s)
  }

  // -------------------------------------------------------------------- proofs

  /** What a producer step changes that the bridge can see. */
  lemma {:induction false} ProducerEffect(q: Q.State<RTEvent>, view: nat)
    requires Q.Inv(q) && !q.producer.PReturned? && CanEnqueue(q, view)
    ensures var q' := Q.ProducerNext(q, view);
      && Q.Inv(q')
      && q'.consumer == q.consumer && q'.delivered == q.delivered && !q'.producer.PIdle?
      && Carries(q'.producer, q.producer.item)
      && q'.accepted == q.accepted + (if q'.producer == Q.PReturned(true) then [q.producer.item] else [])
  {
    Q.ProducerKeeps(q, view);
  }

  lemma {:induction false} ConsumerEffect(q: Q.State<RTEvent>, view: nat)
    requires Q.Inv(q) && !q.consumer.CReturned? && CanDequeue(q, view)
    ensures var q' := Q.ConsumerNext(q, view);
      && Q.Inv(q')
      && q'.producer == q.producer && q'.accepted == q.accepted && !q'.consumer.CIdle?
      && q'.delivered == q.delivered + Taken(q'.consumer)
  {
    Q.ConsumerKeeps(q, view);
  }

  lemma {:induction false} NotifyKeeps(s: Bridge, e: RTEvent)
    requires Threads(s) && s.rt.RIdle?
    ensures Threads(Dispatch(s, e, None))
  {
    var s' := Dispatch(s, e, None);
    SelectedPrefix(s.dispatched, s'.dispatched, s.queued);
    SelectedMore(s.dispatched, s.echoed, e, false);
  }

  lemma {:induction false} DrainRTKeeps(s: Bridge)
    requires Threads(s) && s.rt.RDrain?
    ensures Threads(DrainRT(s))
  {
  }

  /** `dequeue` returned to `processRTEvents`. */
  lemma {:induction false} DequeuedRTKeeps(s: Bridge, view: nat)
    requires Threads(s) && s.rt.RDequeue? && s.toRt.consumer.CReturned?
    ensures Threads(DequeueRT(s, view))
  {
    var s' := DequeueRT(s, view);
    if s.toRt.consumer.answer.Some? {
      SelectedPrefix(s.dispatched, s'.dispatched, s.queued);
      SelectedMore(s.dispatched, s.echoed, s.toRt.consumer.answer.value, true);
    }
  }

  lemma {:induction false} DequeueRTKeeps(s: Bridge, view: nat)
    requires Threads(s) && Q.Inv(s.toRt) && s.rt.RDequeue? && !s.toRt.consumer.CReturned? && CanDequeue(s.toRt, view)
    ensures Threads(DequeueRT(s, view))
  {
    hide Q.Inv, Q.Shaped, Q.Enabled, Q.ConsumerNext, Selected, Rejects;
    ConsumerEffect(s.toRt, view);
  }

  lemma {:induction false} ObserveRTKeeps(s: Bridge)
    requires Threads(s) && s.rt.RObserve?
    ensures Threads(ObserveRT(s))
  {
    var s' := ObserveRT(s);
    var n := |s.dispatched| - 1;
    assert s.dispatched == s.dispatched[..n] + [s.rt.event];
  }

  /** `enqueue` returned to `notifyRTObservers`. */
  lemma {:induction false} EnqueuedRTKeeps(s: Bridge, view: nat)
    requires Threads(s) && s.rt.REnqueue? && s.toUi.producer.PReturned?
    ensures Threads(EnqueueRT(s, view))
  {
    SelectedFlag(s.dispatched, s.queued, s.toUi.producer.ok);
  }

  lemma {:induction false} EnqueueRTKeeps(s: Bridge, view: nat)
    requires Threads(s) && Q.Inv(s.toUi) && s.rt.REnqueue? && !s.toUi.producer.PReturned? && CanEnqueue(s.toUi, view)
    ensures Threads(EnqueueRT(s, view))
  {
    hide Q.Inv, Q.Shaped, Q.Enabled, Q.ProducerNext, Selected, Rejects;
    ProducerEffect(s.toUi, view);
  }

  lemma {:induction false} CountersRTKeep(s: Bridge)
    requires Threads(s)
    ensures s.rt.RDropped? ==> Threads(DropRT(s))
    ensures s.rt.RCount? ==> Threads(CountRT(s))
  {
  }

  lemma {:induction false} SendUIKeeps(s: Bridge, view: nat)
    requires Threads(s) && Q.Inv(s.toRt) && s.ui.USend? && CanEnqueue(s.toRt, view)
    ensures Threads(SendUI(s, view))
  {
    if !s.toRt.producer.PReturned? {
      ProducerEffect(s.toRt, view);
    }
  }

  lemma {:induction false} DrainUIKeeps(s: Bridge)
    requires Threads(s) && s.ui.UDrain?
    ensures Threads(DrainUI(s))
  {
  }

  /** `dequeue` returned to `processUIEvents`. */
  lemma {:induction false} DequeuedUIKeeps(s: Bridge, view: nat)
    requires Threads(s) && s.ui.UDequeue? && s.toUi.consumer.CReturned?
    ensures Threads(DequeueUI(s, view))
  {
  }

  lemma {:induction false} DequeueUIKeeps(s: Bridge, view: nat)
    requires Threads(s) && Q.Inv(s.toUi) && s.ui.UDequeue? && !s.toUi.consumer.CReturned? && CanDequeue(s.toUi, view)
    ensures Threads(DequeueUI(s, view))
  {
    hide Q.Inv, Q.Shaped, Q.Enabled, Q.ConsumerNext, Selected, Rejects;
    ConsumerEffect(s.toUi, view);
  }

  lemma {:induction false} ObserveUIKeeps(s: Bridge)
    requires Threads(s) && s.ui.UObserve?
    ensures Threads(ObserveUI(s))
  {
    var s' := ObserveUI(s);
    var seen, n, i := s.toUi.delivered, s.uiProcessed, s.ui.next;
    assert seen[..n + 1] == seen[..n] + [s.ui.event];
    forall j | 0 <= j < |s'.uiSeen|
      ensures s'.uiSeen[j] == seen[..n + (if HasSeen(s', j) then 1 else 0)]
    {
      assert s.uiSeen[j] == seen[..n + (if j < i then 1 else 0)];
    }
  }

  lemma {:induction false} CountUIKeeps(s: Bridge)
    requires Threads(s) && s.ui.UCount?
    ensures Threads(CountUI(s))
  {
  }

  lemma {:induction false} StartSendKeeps(s: Bridge, e: RTEvent)
    requires Threads(s) && s.ui.UIdle?
    ensures Threads(Next(s, Send(e)))
  {
  }

  lemma {:induction false} StartRTKeeps(s: Bridge)
    requires Threads(s) && s.rt.RIdle?
    ensures Threads(Next(s, StartDrainRT))
  {
  }

  lemma {:induction false} StartUIKeeps(s: Bridge)
    requires Threads(s) && s.ui.UIdle?
    ensures Threads(Next(s, StartDrainUI))
  {
  }

  lemma {:induction false} RtKeeps(s: Bridge, view: nat)
    requires Inv(s) && Enabled(s, RtStep(view))
    ensures Threads(RtNext(s, view))
  {
    match s.rt
    case RDrain(_) => DrainRTKeeps(s);
    case RDequeue(_) =>
      if s.toRt.consumer.CReturned? { DequeuedRTKeeps(s, view); } else { DequeueRTKeeps(s, view); }
    case RObserve(_, _, _) => ObserveRTKeeps(s);
    case REnqueue(_, _) =>
      if s.toUi.producer.PReturned? { EnqueuedRTKeeps(s, view); } else { EnqueueRTKeeps(s, view); }
    case _ => CountersRTKeep(s);
  }

  lemma {:induction false} UiKeeps(s: Bridge, view: nat)
    requires Inv(s) && Enabled(s, UiStep(view))
    ensures Threads(UiNext(s, view))
  {
    match s.ui
    case USend(_) => SendUIKeeps(s, view);
    case UDrain(_) => DrainUIKeeps(s);
    case UDequeue(_) =>
      if s.toUi.consumer.CReturned? { DequeuedUIKeeps(s, view); } else { DequeueUIKeeps(s, view); }
    case UObserve(_, _, _) => ObserveUIKeeps(s);
    case UCount(_) => CountUIKeeps(s);
  }

  /** Each action moves each queue by one of its own steps, or not at all. */
  lemma {:induction false} RtQueues(s: Bridge, view: nat)
    requires Queues(s) && Calls(s) && Enabled(s, RtStep(view))
    ensures Queues(RtNext(s, view))
  {
    match s.rt
    case RDrain(_) => Q.ConsumerEdge(s.toRt, Q.CCalled);
    case RDequeue(_) =>
      if s.toRt.consumer.CReturned? { Q.ConsumerEdge(s.toRt, Q.CIdle); } else { ConsumerEffect(s.toRt, view); }
    case RObserve(e, _, _) => Q.ProducerEdge(s.toUi, Q.PCalled(e));
    case REnqueue(_, _) =>
      if s.toUi.producer.PReturned? { Q.ProducerEdge(s.toUi, Q.PIdle); } else { ProducerEffect(s.toUi, view); }
    case _ =>
  }

  lemma {:induction false} UiQueues(s: Bridge, view: nat)
    requires Queues(s) && Calls(s) && Enabled(s, UiStep(view))
    ensures Queues(UiNext(s, view))
  {
    match s.ui
    case USend(_) =>
      if s.toRt.producer.PReturned? { Q.ProducerEdge(s.toRt, Q.PIdle); } else { ProducerEffect(s.toRt, view); }
    case UDrain(_) => Q.ConsumerEdge(s.toUi, Q.CCalled);
    case UDequeue(_) =>
      if s.toUi.consumer.CReturned? { Q.ConsumerEdge(s.toUi, Q.CIdle); } else { ConsumerEffect(s.toUi, view); }
    case _ =>
  }

  /** Every action of either thread keeps the invariant. */
  lemma {:induction false} StepKeeps(s: Bridge, l: Label)
    requires Inv(s) && Enabled(s, l)
    ensures Inv(Next(s, l))
  {
    match l
    case RtStep(view) => RtKeeps(s, view); RtQueues(s, view);
    case UiStep(view) => UiKeeps(s, view); UiQueues(s, view);
    case Notify(e) => NotifyKeeps(s, e);
    case Send(e) => Q.ProducerEdge(s.toRt, Q.PCalled(e)); StartSendKeeps(s, e);
    case StartDrainRT => StartRTKeeps(s);
    case StartDrainUI => StartUIKeeps(s);
  }

  // ------------------------------------------------------------- main theorems

  ghost predicate IsRun(states: seq<Bridge>, labels: seq<Label>) {
    && |states| == |labels| + 1 && Init(states[0])
    && (forall i :: 0 <= i < |labels| ==>
          Enabled(states[i], labels[i]) && states[i + 1] == Next(states[i], labels[i]))
  }

  lemma {:induction false} InitInv(s: Bridge)
    requires Init(s)
    ensures Inv(s)
  {
    Q.InitInv(s.toUi);
    Q.InitInv(s.toRt);
  }

  lemma {:induction false} RunInv(states: seq<Bridge>, labels: seq<Label>, i: nat)
    requires IsRun(states, labels) && i < |states|
    ensures Inv(states[i])
    decreases i
  {
    if i == 0 {
      InitInv(states[0]);
    } else {
      RunInv(states, labels, i - 1);
      StepKeeps(states[i - 1], labels[i - 1]);
    }
  }

  /** Dispatches begun whose event is neither in the queue yet nor counted as dropped yet. */
  function RtInFlight(s: Bridge): nat {
    if s.rt.RObserve? || s.rt.RDropped? || (s.rt.REnqueue? && s.toUi.producer != Q.PReturned(true)) then 1 else 0
  }

  lemma {:induction false} FifoSplit(q: Q.State<RTEvent>)
    requires Q.Inv(q)
    ensures q.accepted == q.delivered + Q.Contents(q)
  {
  }

  /** Conservation: at every instant of every run each dispatched event is accounted for once. */
  lemma {:induction false} RunConserves(states: seq<Bridge>, labels: seq<Label>, i: nat)
    requires IsRun(states, labels) && i < |states|
    ensures var s := states[i];
      |s.dispatched| == s.uiProcessed + s.rtDropped + |Q.Contents(s.toUi)| + RtInFlight(s) + UiPending(s)
  {
    RunInv(states, labels, i);
    Conserves(states[i]);
  }

  lemma {:induction false} Conserves(s: Bridge)
    requires Inv(s)
    ensures |s.dispatched| == s.uiProcessed + s.rtDropped + |Q.Contents(s.toUi)| + RtInFlight(s) + UiPending(s)
  {
    FifoSplit(s.toUi);
    SelectedOrRejected(s.dispatched, s.queued);
  }

  /** With both threads between calls the published counters add up. */
  lemma {:induction false} CountersAddUp(states: seq<Bridge>, labels: seq<Label>, i: nat)
    requires IsRun(states, labels) && i < |states|
    requires states[i].rt.RIdle? && states[i].ui.UIdle?
    ensures var s := states[i];
      && s.rtProcessed == |s.dispatched|
      && s.rtProcessed == s.uiProcessed + s.rtDropped + |Q.Contents(s.toUi)|
  {
    RunInv(states, labels, i);
    Conserves(states[i]);
  }

  /**
    Every UI observer has seen, in dispatch order, the dispatched events that were
    not dropped, up to the ones still on their way; echoed events included.
  */
  lemma {:induction false} UiSeesWhatWasNotDropped(states: seq<Bridge>, labels: seq<Label>, i: nat, j: nat)
    requires IsRun(states, labels) && i < |states| && j < |states[i].uiSeen|
    ensures var s := states[i];
      && |s.queued| <= |s.dispatched|
      && s.uiProcessed <= |s.uiSeen[j]| <= s.uiProcessed + 1
      && s.uiSeen[j] <= s.toUi.accepted
      && s.toUi.accepted == Selected(s.dispatched, s.queued)
           + (if s.rt.REnqueue? && s.toUi.producer == Q.PReturned(true) then [s.rt.event] else [])
      && (s.rt.RIdle? && s.ui.UIdle? && Q.Contents(s.toUi) == [] ==>
            s.uiSeen[j] == Selected(s.dispatched, s.queued))
  {
    RunInv(states, labels, i);
    var s := states[i];
    FifoSplit(s.toUi);
    var n := s.uiProcessed + (if HasSeen(s, j) then 1 else 0);
    assert s.uiSeen[j] == s.toUi.delivered[..n];
    assert s.toUi.accepted[..n] == s.toUi.delivered[..n];
  }

  /**
    What the UI thread sent is dispatched on the RT thread in the order it was
    accepted, each event once, and nothing else is marked as echoed.
  */
  lemma {:induction false} SentEventsAreDispatched(states: seq<Bridge>, labels: seq<Label>, i: nat)
    requires IsRun(states, labels) && i < |states|
    ensures var s := states[i];
      && |s.echoed| == |s.dispatched|
      && s.toRt.accepted == Selected(s.dispatched, s.echoed) + Taken(s.toRt.consumer) + Q.Contents(s.toRt)
  {
    RunInv(states, labels, i);
    FifoSplit(states[i].toRt);
  }

  /** Every RT observer handles every dispatched event, in order; only the one in hand may be missing. */
  lemma {:induction false} RtObserversSeeAll(states: seq<Bridge>, labels: seq<Label>, i: nat, j: nat)
    requires IsRun(states, labels) && i < |states| && j < |states[i].rtSeen|
    ensures var s := states[i];
      && s.rtSeen[j] <= s.dispatched <= s.rtSeen[j] + s.dispatched[|s.rtSeen[j]|..]
      && |s.dispatched| <= |s.rtSeen[j]| + 1
      && (!s.rt.RObserve? ==> s.rtSeen[j] == s.dispatched)
  {
    RunInv(states, labels, i);
  }

  /** In the run of one dispatch a higher-priority observer is never behind a lower one. */
  lemma {:induction false} RtObserversInOrder(states: seq<Bridge>, labels: seq<Label>, i: nat, j: nat, k: nat)
    requires IsRun(states, labels) && i < |states| && j < k < |states[i].rtSeen|
    ensures states[i].rtSeen[k] <= states[i].rtSeen[j]
  {
    RunInv(states, labels, i);
  }

  /** Neither thread can ever be stopped by the other: in the middle of a call its next action is enabled. */
  lemma {:induction false} NeverBlocked(states: seq<Bridge>, labels: seq<Label>, i: nat)
    requires IsRun(states, labels) && i < |states|
    ensures var s := states[i];
      && (!s.rt.RIdle? ==> exists view: nat :: Enabled(s, RtStep(view)))
      && (!s.ui.UIdle? ==> exists view: nat :: Enabled(s, UiStep(view)))
  {
    RunInv(states, labels, i);
    var s := states[i];
    Q.WaitFree(s.toUi, 0);
    Q.WaitFree(s.toRt, 0);
    if !s.rt.RIdle? {
      assert Enabled(s, RtStep(if s.rt.RDequeue? then |s.toRt.tails| - 1 else |s.toUi.heads| - 1));
    }
    if !s.ui.UIdle? {
      assert Enabled(s, UiStep(if s.ui.UDequeue? then |s.toUi.tails| - 1 else |s.toRt.heads| - 1));
    }
  }

  // ------------------------------------------------------------- bounded calls

  /** Actions that `left` more rounds of a drain take at most, at `cost` a round. */
  function Rounds(left: nat, cost: nat): nat {
    if left == 0 then 1 else cost + Rounds(left - 1, cost)
  }

  /** Rounds left to a drain that has done `count`. */
  function Left(limit: nat, count: nat): nat {
    if count < limit then limit - count else 0
  }

  /** What is left of a drain once the event in hand has been dealt with. */
  function RtRest(s: Bridge, drained: Option<nat>): nat {
    if drained.None? then 0
    else Rounds(Left(MAX_RT_EVENTS_PER_CALL, drained.value + 1), |s.rtSeen| + 16)
  }

  /** How many actions the RT thread takes at most before its call ends. */
  function RtRank(s: Bridge): nat {
    var observers := |s.rtSeen|;
    match s.rt
    case RIdle => 0
    case RDrain(count) => Rounds(Left(MAX_RT_EVENTS_PER_CALL, count), observers + 16)
    case RDequeue(count) => 10 + observers + Q.ConsumerRank(s.toRt.consumer) + RtRest(s, Some(count))
    case RObserve(_, next, drained) => 9 + (if next < observers then observers - next else 0) + RtRest(s, drained)
    case REnqueue(_, drained) => 3 + Q.ProducerRank(s.toUi.producer) + RtRest(s, drained)
    case RDropped(drained) => 2 + RtRest(s, drained)
    case RCount(drained) => 1 + RtRest(s, drained)
  }

  function UiRest(s: Bridge, count: nat): nat {
    Rounds(Left(MAX_UI_EVENTS_PER_CALL, count), |s.uiSeen| + 9)
  }

  /** How many actions the UI thread takes at most before its call ends. */
  function UiRank(s: Bridge): nat {
    var observers := |s.uiSeen|;
    match s.ui
    case UIdle => 0
    case USend(_) => 1 + Q.ProducerRank(s.toRt.producer)
    case UDrain(count) => UiRest(s, count)
    case UDequeue(count) => 3 + observers + Q.ConsumerRank(s.toUi.consumer) + UiRest(s, count + 1)
    case UObserve(_, next, count) => 2 + (if next < observers then observers - next else 0) + UiRest(s, count + 1)
    case UCount(count) => 1 + UiRest(s, count + 1)
  }

  lemma {:induction false} RoundsBound(left: nat, cost: nat)
    ensures Rounds(left, cost) == left * cost + 1
  {
    if left > 0 {
      RoundsBound(left - 1, cost);
      MulSucc(cost, left - 1);
    }
  }

  lemma {:induction false} RtRankDrops(s: Bridge, view: nat)
    requires Inv(s) && Enabled(s, RtStep(view))
    ensures RtRank(RtNext(s, view)) < RtRank(s)
  {
    hide Q.Inv, RtOk, RtCounters, UiOk;
    Q.WaitFree(s.toUi, view);
    Q.WaitFree(s.toRt, view);
    if s.rt.RDrain? && s.rt.count < MAX_RT_EVENTS_PER_CALL {
      assert Left(MAX_RT_EVENTS_PER_CALL, s.rt.count) - 1 == Left(MAX_RT_EVENTS_PER_CALL, s.rt.count + 1);
    }
  }

  lemma {:induction false} UiRankDrops(s: Bridge, view: nat)
    requires Inv(s) && Enabled(s, UiStep(view))
    ensures UiRank(UiNext(s, view)) < UiRank(s)
  {
    hide Q.Inv, RtOk, RtCounters, UiOk, RtObservers;
    Q.WaitFree(s.toUi, view);
    Q.WaitFree(s.toRt, view);
    if s.ui.UDrain? && s.ui.count < MAX_UI_EVENTS_PER_CALL {
      assert Left(MAX_UI_EVENTS_PER_CALL, s.ui.count) - 1 == Left(MAX_UI_EVENTS_PER_CALL, s.ui.count + 1);
    }
  }

  /** Nothing differs that the rest of the UI thread's call depends on. */
  ghost predicate SameForUi(s: Bridge, s': Bridge) {
    s'.ui == s.ui && |s'.uiSeen| == |s.uiSeen|
    && s'.toRt.producer == s.toRt.producer && s'.toUi.consumer == s.toUi.consumer
  }

  ghost predicate SameForRt(s: Bridge, s': Bridge) {
    s'.rt == s.rt && |s'.rtSeen| == |s.rtSeen|
    && s'.toUi.producer == s.toUi.producer && s'.toRt.consumer == s.toRt.consumer
  }

  lemma {:induction false} ConsumerStepsApart(q: Q.State<RTEvent>, view: nat)
    requires Q.Shaped(q) && Q.Enabled(q, Q.ConsumerStep(view))
    ensures Q.ConsumerNext(q, view).producer == q.producer
  {
  }

  lemma {:induction false} ProducerStepsApart(q: Q.State<RTEvent>, view: nat)
    requires Q.Shaped(q) && Q.Enabled(q, Q.ProducerStep(view))
    ensures Q.ProducerNext(q, view).consumer == q.consumer
  {
  }

  lemma {:induction false} RtStepsApart(s: Bridge, view: nat)
    requires Enabled(s, RtStep(view))
    ensures SameForUi(s, RtNext(s, view))
  {
    hide Q.ConsumerNext, Q.ProducerNext;
    if s.rt.RDequeue? && !s.toRt.consumer.CReturned? {
      ConsumerStepsApart(s.toRt, view);
    } else if s.rt.REnqueue? && !s.toUi.producer.PReturned? {
      ProducerStepsApart(s.toUi, view);
    }
  }

  lemma {:induction false} UiStepsApart(s: Bridge, view: nat)
    requires Enabled(s, UiStep(view))
    ensures SameForRt(s, UiNext(s, view))
  {
    hide Q.ConsumerNext, Q.ProducerNext;
    if s.ui.UDequeue? && !s.toUi.consumer.CReturned? {
      ConsumerStepsApart(s.toUi, view);
    } else if s.ui.USend? && !s.toRt.producer.PReturned? {
      ProducerStepsApart(s.toRt, view);
    }
  }

  /** What one thread does leaves the other as far from the end of its call as it was. */
  lemma {:induction false} RanksApart(s: Bridge, s': Bridge)
    ensures SameForUi(s, s') ==> UiRank(s') == UiRank(s)
    ensures SameForRt(s, s') ==> RtRank(s') == RtRank(s)
  {
  }

  /** Whose action it is. */
  predicate OfRt(l: Label) {
    l.RtStep? || l.Notify? || l.StartDrainRT?
  }

  /**
    Every call of the distributor ends, whatever the other thread does: a dispatch
    within 9 actions of its thread more than there are observers, a send within 6,
    and a drain within its limit of rounds.
  */
  lemma {:induction false} CallsEnd(states: seq<Bridge>, labels: seq<Label>, i: nat)
    requires IsRun(states, labels) && i < |labels|
    ensures var s, l, s' := states[i], labels[i], states[i + 1];
      && (l.RtStep? ==> RtRank(s') < RtRank(s))
      && (l.UiStep? ==> UiRank(s') < UiRank(s))
      && (if OfRt(l) then UiRank(s') == UiRank(s) else RtRank(s') == RtRank(s))
      && (l.Notify? ==> RtRank(s') == 9 + |s.rtSeen|)
      && (l.StartDrainRT? ==> RtRank(s') == MAX_RT_EVENTS_PER_CALL * (|s.rtSeen| + 16) + 1)
      && (l.Send? ==> UiRank(s') == 6)
      && (l.StartDrainUI? ==> UiRank(s') == MAX_UI_EVENTS_PER_CALL * (|s.uiSeen| + 9) + 1)
  {
    RunInv(states, labels, i);
    var s, l := states[i], labels[i];
    hide RtNext, UiNext, RtRank, UiRank;
    RanksApart(s, Next(s, l));
    CallsBegin(s, l);
    RoundsBound(MAX_RT_EVENTS_PER_CALL, |s.rtSeen| + 16);
    RoundsBound(MAX_UI_EVENTS_PER_CALL, |s.uiSeen| + 9);
    match l
    case RtStep(view) => RtRankDrops(s, view); RtStepsApart(s, view);
    case UiStep(view) => UiRankDrops(s, view); UiStepsApart(s, view);
    case _ =>
  }

  lemma {:induction false} CallsBegin(s: Bridge, l: Label)
    requires Enabled(s, l)
    ensures l.Notify? ==> RtRank(Next(s, l)) == 9 + |s.rtSeen|
    ensures l.StartDrainRT? ==> RtRank(Next(s, l)) == Rounds(MAX_RT_EVENTS_PER_CALL, |s.rtSeen| + 16)
    ensures l.Send? ==> UiRank(Next(s, l)) == 6
    ensures l.StartDrainUI? ==> UiRank(Next(s, l)) == Rounds(MAX_UI_EVENTS_PER_CALL, |s.uiSeen| + 9)
    ensures l.Notify? || l.StartDrainRT? ==> SameForUi(s, Next(s, l))
    ensures l.Send? || l.StartDrainUI? ==> SameForRt(s, Next(s, l))
  {
    hide RtNext, UiNext;
  }

  function RtSteps(labels: seq<Label>): nat {
    if labels == [] then 0 else RtSteps(labels[..|labels| - 1]) + (if labels[|labels| - 1].RtStep? then 1 else 0)
  }

  function UiSteps(labels: seq<Label>): nat {
    if labels == [] then 0 else UiSteps(labels[..|labels| - 1]) + (if labels[|labels| - 1].UiStep? then 1 else 0)
  }

  /**
    Over any stretch of a run in which the RT thread begins no new call, it takes no
    more actions than its rank at the start, however the UI thread interleaves.
  */
  lemma {:induction false} RtStepsBounded(states: seq<Bridge>, labels: seq<Label>, i: nat, j: nat)
    requires IsRun(states, labels) && i <= j < |states|
    requires forall k :: i <= k < j ==> !labels[k].Notify? && !labels[k].StartDrainRT?
    ensures RtSteps(labels[i..j]) + RtRank(states[j]) <= RtRank(states[i])
    decreases j
  {
    hide RtRank, UiRank, Next, Enabled, Init;
    if i < j {
      RtStepsBounded(states, labels, i, j - 1);
      assert labels[i..j][..j - i - 1] == labels[i..j - 1];
      CallsEnd(states, labels, j - 1);
    }
  }

  lemma {:induction false} UiStepsBounded(states: seq<Bridge>, labels: seq<Label>, i: nat, j: nat)
    requires IsRun(states, labels) && i <= j < |states|
    requires forall k :: i <= k < j ==> !labels[k].Send? && !labels[k].StartDrainUI?
    ensures UiSteps(labels[i..j]) + UiRank(states[j]) <= UiRank(states[i])
    decreases j
  {
    hide RtRank, UiRank, Next, Enabled, Init;
    if i < j {
      UiStepsBounded(states, labels, i, j - 1);
      assert labels[i..j][..j - i - 1] == labels[i..j - 1];
      CallsEnd(states, labels, j - 1);
    }
  }
}
