/**
  What the calls of the two threads come to: which events the drains take, and how
  the events the callers hand in and the events dispatched go together.
*/
module BridgeCalls {
  import opened Options
  import opened IntMath
  import opened Events
  import opened Selection
  import opened QueueCalls
  import opened BridgeProtocol
  import Q = QueueProtocol

  // ---------------------------------------------------------------- one dequeue

  /** A dequeue call that has found the queue empty and not returned yet. */
  predicate AboutEmpty(c: Q.Consumer<RTEvent>) {
    c == Q.CReturned(None) || (c.CLoadedTail? && c.head == c.tail)
  }

  /** From entry `mark` on the log says that the queue was found empty. */
  ghost predicate FoundNothing(log: seq<Q.Event<RTEvent>>, mark: nat) {
    exists m :: mark <= m < |log| && log[m].FoundEmpty?
  }

  lemma {:induction false} FoundStays(log: seq<Q.Event<RTEvent>>, log': seq<Q.Event<RTEvent>>, mark: nat)
    requires log <= log' && FoundNothing(log, mark)
    ensures FoundNothing(log', mark)
  {
    var m :| mark <= m < |log| && log[m].FoundEmpty?;
    assert log'[m].FoundEmpty?;
  }

  lemma {:induction false} ConsumerLog(q: Q.State<RTEvent>, view: nat)
    requires Q.Shaped(q) && Q.Enabled(q, Q.ConsumerStep(view))
    ensures var q' := Q.ConsumerNext(q, view);
      && q.log <= q'.log && q'.accepted == q.accepted
      && (AboutEmpty(q'.consumer) && !AboutEmpty(q.consumer) ==>
            q'.log == q.log + [Q.FoundEmpty(|q.tails| - 1 - view)])
  {
  }

  lemma {:induction false} ProducerLog(q: Q.State<RTEvent>, view: nat)
    requires Q.Shaped(q) && Q.Enabled(q, Q.ProducerStep(view))
    ensures q.log <= Q.ProducerNext(q, view).log && Q.ProducerNext(q, view).consumer == q.consumer
  {
  }

  lemma {:induction false} FindsNothing(q: Q.State<RTEvent>, view: nat, mark: nat)
    requires Q.Shaped(q) && Q.Enabled(q, Q.ConsumerStep(view)) && mark <= |q.log|
    requires AboutEmpty(q.consumer) ==> FoundNothing(q.log, mark)
    ensures var q' := Q.ConsumerNext(q, view);
      && (AboutEmpty(q'.consumer) ==> FoundNothing(q'.log, mark))
      && (FoundNothing(q.log, mark) ==> FoundNothing(q'.log, mark))
  {
    hide Q.ConsumerNext;
    ConsumerLog(q, view);
    var q' := Q.ConsumerNext(q, view);
    if FoundNothing(q.log, mark) {
      FoundStays(q.log, q'.log, mark);
    } else if AboutEmpty(q'.consumer) {
      assert q'.log[|q.log|].FoundEmpty?;
    }
  }

  /** With an up-to-date load the queue is empty when it is found so. */
  lemma {:induction false} FindsNothingNow(q: Q.State<RTEvent>)
    requires Q.Inv(q) && Q.Shaped(q) && Q.Enabled(q, Q.ConsumerStep(|q.tails| - 1))
    requires AboutEmpty(q.consumer) ==> Q.Contents(q) == []
    ensures var q' := Q.ConsumerNext(q, |q.tails| - 1);
      && (AboutEmpty(q'.consumer) ==> Q.Contents(q') == [])
      && (Q.Contents(q) == [] ==> Q.Contents(q') == [])
  {
    hide Q.Accesses, Q.Answers, Q.Slot;
    Q.ConsumerKeeps(q, |q.tails| - 1);
    if q.consumer.CLoadedHead? {
      Q.EmptyTest(Q.Freed(q), Q.Published(q), q.cap);
    }
  }

  // ------------------------------------------------------------------- UI drain

  /**
    A call of `processUIEvents` begun at `base` events counted: where it stands, and
    that it ends with 32 more counted unless there is `nothing` to take.
  */
  ghost predicate UiCall(s: Bridge, base: nat, nothing: bool) {
    && (AboutEmpty(s.toUi.consumer) ==> nothing)
    && match s.ui
       case UIdle => s.uiProcessed == base + 32 || (base <= s.uiProcessed < base + 32 && nothing)
       case USend(_) => false
       case UDrain(count) => count <= 32 && s.uiProcessed == base + count
       case UDequeue(count) => count < 32 && s.uiProcessed == base + count
       case UObserve(_, _, count) => count < 32 && s.uiProcessed == base + count
       case UCount(count) => count < 32 && s.uiProcessed == base + count
  }

  lemma {:induction false} UiCallStep(s: Bridge, l: Label, base: nat, nothing: bool, nothing': bool)
    requires Enabled(s, l) && Calls(s) && !s.ui.UIdle? && UiCall(s, base, nothing) && (nothing ==> nothing')
    requires AboutEmpty(Next(s, l).toUi.consumer) ==> nothing'
    ensures UiCall(Next(s, l), base, nothing')
  {
    hide Q.ConsumerNext, Q.ProducerNext, Q.Shaped;
    match l
    case RtStep(view) => RtStepsApart(s, view); RtCountsApart(s, view);
    case UiStep(view) =>
    case _ =>
  }

  lemma {:induction false} RtCountsApart(s: Bridge, view: nat)
    requires Enabled(s, RtStep(view))
    ensures RtNext(s, view).uiProcessed == s.uiProcessed && RtNext(s, view).uiSeen == s.uiSeen
  {
    hide Q.ConsumerNext, Q.ProducerNext, Q.Shaped;
  }

  /** A stretch of a run: one call of `processUIEvents` begins at step i and is under way up to step j. */
  ghost predicate UiDrains(states: seq<Bridge>, labels: seq<Label>, i: nat, j: nat) {
    && IsRun(states, labels) && i < j < |states| && labels[i].StartDrainUI?
    && forall k :: i < k < j ==> !states[k].ui.UIdle?
  }

  lemma {:induction false} UiDrainRuns(states: seq<Bridge>, labels: seq<Label>, i: nat, j: nat)
    requires UiDrains(states, labels, i, j)
    ensures var mark := |states[i].toUi.log|;
      && mark <= |states[j].toUi.log|
      && UiCall(states[j], states[i].uiProcessed, FoundNothing(states[j].toUi.log, mark))
    decreases j
  {
    hide Next, Enabled, Init, Calls, Q.Inv, RtOk, RtCounters, RtObservers, UiOk, UiCall;
    var base, mark := states[i].uiProcessed, |states[i].toUi.log|;
    RunInv(states, labels, j - 1);
    var s, l := states[j - 1], labels[j - 1];
    if j == i + 1 {
      UiCallStarts(s, l, FoundNothing(s.toUi.log, mark));
    } else {
      UiDrainRuns(states, labels, i, j - 1);
      LogStep(s, l, mark) by {
        UiCallMeans(s, base, FoundNothing(s.toUi.log, mark));
      }
      UiCallStep(s, l, base, FoundNothing(s.toUi.log, mark), FoundNothing(states[j].toUi.log, mark));
    }
  }

  lemma {:induction false} UiCallMeans(s: Bridge, base: nat, nothing: bool)
    requires UiCall(s, base, nothing)
    ensures AboutEmpty(s.toUi.consumer) ==> nothing
  {
  }

  lemma {:induction false} UiCallStarts(s: Bridge, l: Label, nothing: bool)
    requires Enabled(s, l) && Calls(s) && l.StartDrainUI?
    ensures UiCall(Next(s, l), s.uiProcessed, nothing) && Next(s, l).toUi == s.toUi
  {
  }

  /** No step of either thread takes an entry back from the log of the RT-to-UI queue. */
  lemma {:induction false} LogStep(s: Bridge, l: Label, mark: nat)
    requires Enabled(s, l) && mark <= |s.toUi.log|
    requires AboutEmpty(s.toUi.consumer) ==> FoundNothing(s.toUi.log, mark)
    ensures var s' := Next(s, l);
      && mark <= |s'.toUi.log|
      && (AboutEmpty(s'.toUi.consumer) ==> FoundNothing(s'.toUi.log, mark))
      && (FoundNothing(s.toUi.log, mark) ==> FoundNothing(s'.toUi.log, mark))
  {
    hide Q.ConsumerNext, Q.ProducerNext, Q.Shaped, FoundNothing;
    var s' := Next(s, l);
    if l.RtStep? && s.rt.REnqueue? && !s.toUi.producer.PReturned? {
      ProducerLog(s.toUi, l.view);
      if FoundNothing(s.toUi.log, mark) {
        FoundStays(s.toUi.log, s'.toUi.log, mark);
      }
    } else if l.UiStep? && s.ui.UDequeue? && !s.toUi.consumer.CReturned? {
      FindsNothing(s.toUi, l.view, mark);
      ConsumerLog(s.toUi, l.view);
    }
  }

  /**
    A call of `processUIEvents` does not give up early: when it ends it has taken 32
    events, or the queue was found empty during the call.
  */
  lemma {:induction false} UiDrainTakes(states: seq<Bridge>, labels: seq<Label>, i: nat, j: nat)
    requires UiDrains(states, labels, i, j) && states[j].ui.UIdle?
    ensures var s, s' := states[i], states[j];
      || s'.uiProcessed == s.uiProcessed + 32
      || (s.uiProcessed <= s'.uiProcessed < s.uiProcessed + 32
          && exists m :: |s.toUi.log| <= m < |s'.toUi.log| && s'.toUi.log[m].FoundEmpty?)
  {
    hide Q.Inv;
    UiDrainRuns(states, labels, i, j);
  }

  /** The UI thread runs alone and its loads are up to date. */
  ghost predicate UiAlone(states: seq<Bridge>, labels: seq<Label>, i: nat, j: nat)
    requires IsRun(states, labels) && i < j < |states|
  {
    && states[i].rt.RIdle?
    && forall k :: i < k < j ==>
         labels[k].UiStep? && (states[k].ui.UDequeue? ==> labels[k].view == |states[k].toUi.tails| - 1)
  }

  lemma {:induction false} AloneStep(s: Bridge, l: Label)
    requires Inv(s) && Enabled(s, l) && l.UiStep? && (s.ui.UDequeue? ==> l.view == |s.toUi.tails| - 1)
    requires AboutEmpty(s.toUi.consumer) ==> Q.Contents(s.toUi) == []
    ensures var s' := Next(s, l);
      && s'.rt == s.rt && s'.toUi.accepted == s.toUi.accepted
      && (AboutEmpty(s'.toUi.consumer) ==> Q.Contents(s'.toUi) == [])
      && (Q.Contents(s.toUi) == [] ==> Q.Contents(s'.toUi) == [])
  {
    hide Q.ConsumerNext, Q.ProducerNext, RtOk, RtCounters, RtObservers, UiOk, Q.Inv;
    UiStepsApart(s, l.view);
    if s.ui.UDequeue? && !s.toUi.consumer.CReturned? {
      FindsNothingNow(s.toUi);
      ConsumerLog(s.toUi, l.view);
    }
  }

  lemma {:induction false} UiAloneRuns(states: seq<Bridge>, labels: seq<Label>, i: nat, j: nat)
    requires UiDrains(states, labels, i, j) && UiAlone(states, labels, i, j)
    ensures states[j].rt.RIdle? && states[j].toUi.accepted == states[i].toUi.accepted
    ensures UiCall(states[j], states[i].uiProcessed, Q.Contents(states[j].toUi) == [])
    decreases j
  {
    hide Q.Inv, Q.Shaped, Q.ConsumerNext, Q.ProducerNext, Q.Contents, RtOk, RtCounters, RtObservers, UiOk, UiCall;
    RunInv(states, labels, j - 1);
    var base, s, l := states[i].uiProcessed, states[j - 1], labels[j - 1];
    if j == i + 1 {
      UiCallStarts(s, l, Q.Contents(s.toUi) == []);
    } else {
      UiAloneRuns(states, labels, i, j - 1);
      UiCallMeans(s, base, Q.Contents(s.toUi) == []);
      AloneStep(s, l);
      UiCallStep(s, l, base, Q.Contents(s.toUi) == [], Q.Contents(states[j].toUi) == []);
    }
  }

  /** What is in a queue, from the items that went in and out of it. */
  lemma {:induction false} ContentsBetween(q: Q.State<RTEvent>, q': Q.State<RTEvent>)
    requires Q.Inv(q) && Q.Inv(q') && q'.accepted == q.accepted && |q.delivered| <= |q'.delivered|
    ensures var n := |q'.delivered| - |q.delivered|;
      && n <= |Q.Contents(q)| && Q.Contents(q') == Q.Contents(q)[n..]
      && q'.delivered == q.delivered + Q.Contents(q)[..n]
  {
    FifoSplit(q);
    FifoSplit(q');
    var n := |q'.delivered| - |q.delivered|;
    assert q'.delivered == q.accepted[..|q'.delivered|];
    assert q.accepted[..|q'.delivered|] == q.delivered + Q.Contents(q)[..n];
    assert Q.Contents(q') == q.accepted[|q'.delivered|..];
  }

  lemma {:induction false} UiHeard(s: Bridge, o: nat)
    requires Inv(s) && s.ui.UIdle? && o < |s.uiSeen|
    ensures |s.toUi.delivered| == s.uiProcessed && s.uiSeen[o] == s.toUi.delivered
  {
    assert s.uiSeen[o] == s.toUi.delivered[..s.uiProcessed];
  }

  lemma {:induction false} UiCounted(s: Bridge)
    requires Inv(s) && s.ui.UIdle?
    ensures |s.toUi.delivered| == s.uiProcessed
  {
  }

  lemma {:induction false} SameObservers(states: seq<Bridge>, labels: seq<Label>, i: nat, j: nat)
    requires IsRun(states, labels) && i <= j < |states|
    ensures |states[j].uiSeen| == |states[i].uiSeen| && |states[j].rtSeen| == |states[i].rtSeen|
    decreases j
  {
    hide Q.Shaped, Q.ConsumerNext, Q.ProducerNext;
    if i < j {
      SameObservers(states, labels, i, j - 1);
    }
  }

  /**
    With the RT thread between calls and up-to-date loads, `processUIEvents` takes
    the oldest 32 events, or all of them when there are no more, leaves the rest in
    the queue, and every UI observer hears exactly those, in order.
  */
  lemma {:induction false} UiDrainAlone(states: seq<Bridge>, labels: seq<Label>, i: nat, j: nat)
    requires UiDrains(states, labels, i, j) && states[j].ui.UIdle? && UiAlone(states, labels, i, j)
    ensures var s, s', held := states[i], states[j], Q.Contents(states[i].toUi);
      var n := if |held| < 32 then |held| else 32;
      && s'.uiProcessed == s.uiProcessed + n && Q.Contents(s'.toUi) == held[n..]
      && |s'.uiSeen| == |s.uiSeen|
      && forall o :: 0 <= o < |s.uiSeen| ==> s'.uiSeen[o] == s.uiSeen[o] + held[..n]
  {
    hide Q.Inv, Next, Enabled, Init, RtOk, RtCounters, RtObservers, UiOk, Calls;
    var s, s' := states[i], states[j];
    UiAloneRuns(states, labels, i, j);
    RunInv(states, labels, i);
    RunInv(states, labels, j);
    StartsIdle(s, labels[i]);
    UiCounted(s);
    UiCounted(s');
    ContentsBetween(s.toUi, s'.toUi);
    SameObservers(states, labels, i, j);
    forall o | 0 <= o < |s.uiSeen|
      ensures s'.uiSeen[o] == s.uiSeen[o] + Q.Contents(s.toUi)[..s'.uiProcessed - s.uiProcessed]
    {
      UiHeard(s, o);
      UiHeard(s', o);
    }
  }

  lemma {:induction false} StartsIdle(s: Bridge, l: Label)
    requires Enabled(s, l)
    ensures l.StartDrainUI? || l.Send? ==> s.ui.UIdle?
    ensures l.StartDrainRT? || l.Notify? ==> s.rt.RIdle?
  {
  }

  // ------------------------------------------------------------------- RT drain

  /** The same for a call of `processRTEvents`, which takes up to 16. */
  ghost predicate RtCall(s: Bridge, base: nat, nothing: bool) {
    && (AboutEmpty(s.toRt.consumer) ==> nothing)
    && match s.rt
       case RIdle => s.rtProcessed == base + 16 || (base <= s.rtProcessed < base + 16 && nothing)
       case RDrain(count) => count <= 16 && s.rtProcessed == base + count
       case RDequeue(count) => count < 16 && s.rtProcessed == base + count
       case RObserve(_, _, drained) => InRound(s, base, drained)
       case REnqueue(_, drained) => InRound(s, base, drained)
       case RDropped(drained) => InRound(s, base, drained)
       case RCount(drained) => InRound(s, base, drained)
  }

  ghost predicate InRound(s: Bridge, base: nat, drained: Option<nat>) {
    drained.Some? && drained.value < 16 && s.rtProcessed == base + drained.value
  }

  lemma {:induction false} RtCallStep(s: Bridge, l: Label, base: nat, nothing: bool, nothing': bool)
    requires Enabled(s, l) && Calls(s) && !s.rt.RIdle? && RtCall(s, base, nothing) && (nothing ==> nothing')
    requires AboutEmpty(Next(s, l).toRt.consumer) ==> nothing'
    ensures RtCall(Next(s, l), base, nothing')
  {
    hide Q.ConsumerNext, Q.ProducerNext, Q.Shaped;
    match l
    case UiStep(view) => UiStepsApart(s, view); UiCountsApart(s, view);
    case RtStep(view) =>
    case _ =>
  }

  lemma {:induction false} UiCountsApart(s: Bridge, view: nat)
    requires Enabled(s, UiStep(view))
    ensures var s' := UiNext(s, view);
      s'.rtProcessed == s.rtProcessed && s'.dispatched == s.dispatched && s'.toRt.delivered == s.toRt.delivered
  {
    hide Q.ConsumerNext, Q.Shaped;
  }

  ghost predicate RtDrains(states: seq<Bridge>, labels: seq<Label>, i: nat, j: nat) {
    && IsRun(states, labels) && i < j < |states| && labels[i].StartDrainRT?
    && forall k :: i < k < j ==> !states[k].rt.RIdle?
  }

  /** Since `dispatched` held `before`, what has been taken from the queue has been dispatched, and nothing else. */
  ghost predicate DispatchesTaken(s: Bridge, before: seq<RTEvent>, taken: nat) {
    && taken <= |s.toRt.delivered|
    && s.dispatched + Taken(s.toRt.consumer) == before + s.toRt.delivered[taken..]
  }

  lemma {:induction false} DispatchStep(s: Bridge, l: Label, before: seq<RTEvent>, taken: nat)
    requires Inv(s) && Enabled(s, l) && !s.rt.RIdle? && DispatchesTaken(s, before, taken)
    ensures DispatchesTaken(Next(s, l), before, taken)
  {
    hide Q.Inv, Q.Shaped, Q.ConsumerNext, Q.ProducerNext, RtOk, RtCounters, RtObservers, UiOk;
    if l.UiStep? {
      UiStepsApart(s, l.view);
      UiCountsApart(s, l.view);
    } else if s.rt.RDequeue? && l.RtStep? {
      DispatchDequeue(s, l.view, before, taken);
    }
  }

  lemma {:induction false} DispatchDequeue(s: Bridge, view: nat, before: seq<RTEvent>, taken: nat)
    requires Q.Inv(s.toRt) && s.rt.RDequeue? && CanDequeue(s.toRt, view) && DispatchesTaken(s, before, taken)
    ensures DispatchesTaken(DequeueRT(s, view), before, taken)
  {
    hide Q.Inv, Q.Shaped, Q.ConsumerNext;
    var s' := DequeueRT(s, view);
    if !s.toRt.consumer.CReturned? {
      ConsumerEffect(s.toRt, view);
      assert s.dispatched + Taken(s.toRt.consumer) == s.dispatched;
      assert s'.toRt.delivered[taken..] == s.toRt.delivered[taken..] + Taken(s'.toRt.consumer);
    } else {
      assert s'.dispatched == s.dispatched + Taken(s.toRt.consumer);
      assert s'.dispatched + Taken(s'.toRt.consumer) == s'.dispatched;
    }
  }

  lemma {:induction false} RtCallStarts(s: Bridge, l: Label, nothing: bool)
    requires Enabled(s, l) && Calls(s) && l.StartDrainRT?
    ensures RtCall(Next(s, l), s.rtProcessed, nothing) && Next(s, l).toRt == s.toRt
    ensures DispatchesTaken(Next(s, l), s.dispatched, |s.toRt.delivered|)
  {
    assert s.toRt.delivered[|s.toRt.delivered|..] == [];
  }

  lemma {:induction false} RtCallMeans(s: Bridge, base: nat, nothing: bool)
    requires RtCall(s, base, nothing)
    ensures AboutEmpty(s.toRt.consumer) ==> nothing
  {
  }

  lemma {:induction false} RtLogStep(s: Bridge, l: Label, mark: nat)
    requires Enabled(s, l) && mark <= |s.toRt.log|
    requires AboutEmpty(s.toRt.consumer) ==> FoundNothing(s.toRt.log, mark)
    ensures var s' := Next(s, l);
      && mark <= |s'.toRt.log|
      && (AboutEmpty(s'.toRt.consumer) ==> FoundNothing(s'.toRt.log, mark))
      && (FoundNothing(s.toRt.log, mark) ==> FoundNothing(s'.toRt.log, mark))
  {
    hide Q.ConsumerNext, Q.ProducerNext, Q.Shaped, FoundNothing;
    var s' := Next(s, l);
    if l.UiStep? && s.ui.USend? && !s.toRt.producer.PReturned? {
      ProducerLog(s.toRt, l.view);
      if FoundNothing(s.toRt.log, mark) {
        FoundStays(s.toRt.log, s'.toRt.log, mark);
      }
    } else if l.RtStep? && s.rt.RDequeue? && !s.toRt.consumer.CReturned? {
      FindsNothing(s.toRt, l.view, mark);
      ConsumerLog(s.toRt, l.view);
    }
  }

  lemma {:induction false} RtDrainRuns(states: seq<Bridge>, labels: seq<Label>, i: nat, j: nat)
    requires RtDrains(states, labels, i, j)
    ensures var mark := |states[i].toRt.log|;
      && mark <= |states[j].toRt.log|
      && RtCall(states[j], states[i].rtProcessed, FoundNothing(states[j].toRt.log, mark))
      && DispatchesTaken(states[j], states[i].dispatched, |states[i].toRt.delivered|)
    decreases j
  {
    hide Next, Enabled, Init, Calls, Q.Inv, RtOk, RtCounters, RtObservers, UiOk, RtCall, DispatchesTaken;
    var base, mark := states[i].rtProcessed, |states[i].toRt.log|;
    RunInv(states, labels, j - 1);
    var s, l := states[j - 1], labels[j - 1];
    if j == i + 1 {
      RtCallStarts(s, l, FoundNothing(s.toRt.log, mark));
    } else {
      RtDrainRuns(states, labels, i, j - 1);
      RtCallMeans(s, base, FoundNothing(s.toRt.log, mark));
      RtLogStep(s, l, mark);
      RtCallStep(s, l, base, FoundNothing(s.toRt.log, mark), FoundNothing(states[j].toRt.log, mark));
      DispatchStep(s, l, states[i].dispatched, |states[i].toRt.delivered|);
    }
  }

  /**
    A call of `processRTEvents` does not give up early either: when it ends it has
    dispatched 16 events, or the queue was found empty during the call; and it has
    dispatched exactly the events it took from the queue.
  */
  lemma {:induction false} RtDrainTakes(states: seq<Bridge>, labels: seq<Label>, i: nat, j: nat)
    requires RtDrains(states, labels, i, j) && states[j].rt.RIdle?
    ensures var s, s' := states[i], states[j];
      && |s.toRt.delivered| <= |s'.toRt.delivered|
      && s'.dispatched == s.dispatched + s'.toRt.delivered[|s.toRt.delivered|..]
      && (|| s'.rtProcessed == s.rtProcessed + 16
          || (s.rtProcessed <= s'.rtProcessed < s.rtProcessed + 16
              && exists m :: |s.toRt.log| <= m < |s'.toRt.log| && s'.toRt.log[m].FoundEmpty?))
  {
    hide Q.Inv, Next, Enabled;
    RtDrainRuns(states, labels, i, j);
    RunInv(states, labels, j);
    var s' := states[j];
    assert s'.dispatched + Taken(s'.toRt.consumer) == s'.dispatched;
  }

  /** The RT thread runs alone and its loads from the UI-to-RT queue are up to date. */
  ghost predicate RtAlone(states: seq<Bridge>, labels: seq<Label>, i: nat, j: nat)
    requires IsRun(states, labels) && i < j < |states|
  {
    && states[i].ui.UIdle?
    && forall k :: i < k < j ==>
         labels[k].RtStep? && (states[k].rt.RDequeue? ==> labels[k].view == |states[k].toRt.tails| - 1)
  }

  lemma {:induction false} RtAloneStep(s: Bridge, l: Label)
    requires Inv(s) && Enabled(s, l) && l.RtStep? && (s.rt.RDequeue? ==> l.view == |s.toRt.tails| - 1)
    requires AboutEmpty(s.toRt.consumer) ==> Q.Contents(s.toRt) == []
    ensures var s' := Next(s, l);
      && s'.ui == s.ui && s'.toRt.accepted == s.toRt.accepted
      && (AboutEmpty(s'.toRt.consumer) ==> Q.Contents(s'.toRt) == [])
      && (Q.Contents(s.toRt) == [] ==> Q.Contents(s'.toRt) == [])
  {
    hide Q.ConsumerNext, Q.ProducerNext, RtOk, RtCounters, RtObservers, UiOk, Q.Inv;
    RtStepsApart(s, l.view);
    if s.rt.RDequeue? && !s.toRt.consumer.CReturned? {
      FindsNothingNow(s.toRt);
      ConsumerLog(s.toRt, l.view);
    }
  }

  lemma {:induction false} RtAloneRuns(states: seq<Bridge>, labels: seq<Label>, i: nat, j: nat)
    requires RtDrains(states, labels, i, j) && RtAlone(states, labels, i, j)
    ensures states[j].ui.UIdle? && states[j].toRt.accepted == states[i].toRt.accepted
    ensures RtCall(states[j], states[i].rtProcessed, Q.Contents(states[j].toRt) == [])
    decreases j
  {
    hide Q.Inv, Q.Shaped, Q.ConsumerNext, Q.ProducerNext, Q.Contents, RtOk, RtCounters, RtObservers, UiOk, RtCall;
    RunInv(states, labels, j - 1);
    var base, s, l := states[i].rtProcessed, states[j - 1], labels[j - 1];
    if j == i + 1 {
      RtCallStarts(s, l, Q.Contents(s.toRt) == []);
    } else {
      RtAloneRuns(states, labels, i, j - 1);
      RtCallMeans(s, base, Q.Contents(s.toRt) == []);
      RtAloneStep(s, l);
      RtCallStep(s, l, base, Q.Contents(s.toRt) == [], Q.Contents(states[j].toRt) == []);
    }
  }

  lemma {:induction false} RtCounted(s: Bridge)
    requires Inv(s) && s.rt.RIdle?
    ensures s.rtProcessed == |s.dispatched|
    ensures forall o :: 0 <= o < |s.rtSeen| ==> s.rtSeen[o] == s.dispatched
  {
  }

  /**
    With the UI thread between calls and up-to-date loads, `processRTEvents` takes
    the oldest 16 sent events, or all of them when there are no more, and every RT
    observer hears exactly those, in order.
  */
  lemma {:induction false} RtDrainAlone(states: seq<Bridge>, labels: seq<Label>, i: nat, j: nat)
    requires RtDrains(states, labels, i, j) && states[j].rt.RIdle? && RtAlone(states, labels, i, j)
    ensures var s, s', held := states[i], states[j], Q.Contents(states[i].toRt);
      var n := if |held| < 16 then |held| else 16;
      && s'.rtProcessed == s.rtProcessed + n && Q.Contents(s'.toRt) == held[n..]
      && s'.dispatched == s.dispatched + held[..n] && |s'.rtSeen| == |s.rtSeen|
      && forall o :: 0 <= o < |s.rtSeen| ==> s'.rtSeen[o] == s.rtSeen[o] + held[..n]
  {
    hide Q.Inv, Next, Enabled, Init, RtOk, RtCounters, RtObservers, UiOk, Calls;
    var s, s' := states[i], states[j];
    RtAloneRuns(states, labels, i, j);
    RtDrainTakes(states, labels, i, j);
    RunInv(states, labels, i);
    RunInv(states, labels, j);
    StartsIdle(s, labels[i]);
    RtCounted(s);
    RtCounted(s');
    ContentsBetween(s.toRt, s'.toRt);
    SameObservers(states, labels, i, j);
    var n := |s'.toRt.delivered| - |s.toRt.delivered|;
    assert s'.toRt.delivered[|s.toRt.delivered|..] == Q.Contents(s.toRt)[..n];
  }

  // ------------------------------------------------- what was handed in and heard

  /** The events that the RT thread was given to dispatch by these labels. */
  function Notified(labels: seq<Label>): seq<RTEvent> {
    if labels == [] then []
    else Notified(labels[..|labels| - 1]) + (if Q.Last(labels).Notify? then [Q.Last(labels).event] else [])
  }

  /** The events that the UI thread was given to send. */
  function Sent(labels: seq<Label>): seq<RTEvent> {
    if labels == [] then []
    else Sent(labels[..|labels| - 1]) + (if Q.Last(labels).Send? then [Q.Last(labels).event] else [])
  }

  function Flipped(flags: seq<bool>): seq<bool> {
    seq(|flags|, i requires 0 <= i < |flags| => !flags[i])
  }

  /** What the threads ask of the UI-to-RT queue, and hear from it, in one step. */
  ghost function HearRt(t: Talk<RTEvent>, s: Bridge, l: Label): Talk<RTEvent> {
    match l
    case Send(e) => t.(begun := t.begun + [e])
    case UiStep(_) =>
      if s.ui.USend? && s.toRt.producer.PReturned? then t.(oks := t.oks + [s.toRt.producer.ok]) else t
    case RtStep(_) =>
      if s.rt.RDequeue? && s.toRt.consumer.CReturned? then t.(replies := t.replies + [s.toRt.consumer.answer]) else t
    case _ => t
  }

  ghost function HearUi(t: Talk<RTEvent>, s: Bridge, l: Label): Talk<RTEvent> {
    match l
    case RtStep(_) =>
      if s.rt.RObserve? && s.rt.next >= |s.rtSeen| then t.(begun := t.begun + [s.rt.event])
      else if s.rt.REnqueue? && s.toUi.producer.PReturned? then t.(oks := t.oks + [s.toUi.producer.ok])
      else t
    case UiStep(_) =>
      if s.ui.UDequeue? && s.toUi.consumer.CReturned? then t.(replies := t.replies + [s.toUi.consumer.answer]) else t
    case _ => t
  }

  ghost function TalkRt(states: seq<Bridge>, labels: seq<Label>, i: nat): Talk<RTEvent>
    requires IsRun(states, labels) && i < |states|
  {
    if i == 0 then Talk([], [], []) else HearRt(TalkRt(states, labels, i - 1), states[i - 1], labels[i - 1])
  }

  ghost function TalkUi(states: seq<Bridge>, labels: seq<Label>, i: nat): Talk<RTEvent>
    requires IsRun(states, labels) && i < |states|
  {
    if i == 0 then Talk([], [], []) else HearUi(TalkUi(states, labels, i - 1), states[i - 1], labels[i - 1])
  }

  lemma {:induction false} BeginAgrees(q: Q.State<RTEvent>, t: Talk<RTEvent>, e: RTEvent)
    requires Agrees(q, t) && q.producer.PIdle?
    ensures Agrees(q.(producer := Q.PCalled(e)), t.(begun := t.begun + [e]))
  {
    hide Asked, Oks, Replies, Values, Selected;
  }

  lemma {:induction false} EndAgrees(q: Q.State<RTEvent>, t: Talk<RTEvent>)
    requires Agrees(q, t) && q.producer.PReturned?
    ensures Agrees(q.(producer := Q.PIdle), t.(oks := t.oks + [q.producer.ok]))
  {
    hide Asked, Oks, Replies, Values, Selected;
    NothingMore(t.oks + [q.producer.ok]);
  }

  lemma {:induction false} BeginDequeueAgrees(q: Q.State<RTEvent>, t: Talk<RTEvent>)
    requires Agrees(q, t) && q.consumer.CIdle?
    ensures Agrees(q.(consumer := Q.CCalled), t)
  {
    hide Asked, Oks, Replies, Values, Selected;
  }

  lemma {:induction false} EndDequeueAgrees(q: Q.State<RTEvent>, t: Talk<RTEvent>)
    requires Agrees(q, t) && q.consumer.CReturned?
    ensures Agrees(q.(consumer := Q.CIdle), t.(replies := t.replies + [q.consumer.answer]))
  {
    hide Asked, Oks, Replies, Values, Selected;
    NothingMore(t.replies + [q.consumer.answer]);
  }

  lemma {:induction false} RtQueueAgrees(s: Bridge, l: Label, t: Talk<RTEvent>)
    requires Enabled(s, l) && Calls(s) && Agrees(s.toRt, t)
    ensures Agrees(Next(s, l).toRt, HearRt(t, s, l))
  {
    hide Agrees, Q.ProducerNext, Q.ConsumerNext, Q.Shaped;
    match l
    case Send(e) => BeginAgrees(s.toRt, t, e);
    case UiStep(view) =>
      if s.ui.USend? {
        if s.toRt.producer.PReturned? { EndAgrees(s.toRt, t); } else { ProducerAgrees(s.toRt, view, t); }
      }
    case RtStep(view) =>
      if s.rt.RDequeue? {
        if s.toRt.consumer.CReturned? { EndDequeueAgrees(s.toRt, t); } else { ConsumerAgrees(s.toRt, view, t); }
      } else if s.rt.RDrain? && s.rt.count < MAX_RT_EVENTS_PER_CALL {
        BeginDequeueAgrees(s.toRt, t);
      }
    case _ =>
  }

  lemma {:induction false} UiQueueAgrees(s: Bridge, l: Label, t: Talk<RTEvent>)
    requires Enabled(s, l) && Calls(s) && Agrees(s.toUi, t)
    ensures Agrees(Next(s, l).toUi, HearUi(t, s, l))
  {
    hide Agrees, Q.ProducerNext, Q.ConsumerNext, Q.Shaped;
    match l
    case RtStep(view) =>
      if s.rt.REnqueue? {
        if s.toUi.producer.PReturned? { EndAgrees(s.toUi, t); } else { ProducerAgrees(s.toUi, view, t); }
      } else if s.rt.RObserve? && s.rt.next >= |s.rtSeen| {
        BeginAgrees(s.toUi, t, s.rt.event);
      }
    case UiStep(view) =>
      if s.ui.UDequeue? {
        if s.toUi.consumer.CReturned? { EndDequeueAgrees(s.toUi, t); } else { ConsumerAgrees(s.toUi, view, t); }
      } else if s.ui.UDrain? && s.ui.count < MAX_UI_EVENTS_PER_CALL {
        BeginDequeueAgrees(s.toUi, t);
      }
    case _ =>
  }

  lemma {:induction false} RunTalks(states: seq<Bridge>, labels: seq<Label>, i: nat)
    requires IsRun(states, labels) && i < |states|
    ensures Agrees(states[i].toRt, TalkRt(states, labels, i)) && Agrees(states[i].toUi, TalkUi(states, labels, i))
    decreases i
  {
    hide Agrees, Next, Enabled, HearRt, HearUi, RtOk, RtCounters, RtObservers, UiOk, Q.Inv;
    if i == 0 {
      InitAgrees(states[0].toRt);
      InitAgrees(states[0].toUi);
    } else {
      RunTalks(states, labels, i - 1);
      RunInv(states, labels, i - 1);
      RtQueueAgrees(states[i - 1], labels[i - 1], TalkRt(states, labels, i - 1));
      UiQueueAgrees(states[i - 1], labels[i - 1], TalkUi(states, labels, i - 1));
    }
  }

  /** The queue of the RT thread was asked about every event dispatched, and told it each answer. */
  ghost predicate OffersAll(s: Bridge, t: Talk<RTEvent>) {
    && t.oks == s.queued
    && |s.queued| <= |s.dispatched|
    && t.begun == if s.rt.RObserve? then s.dispatched[..|s.queued|] else s.dispatched
  }

  lemma {:induction false} OfferStep(s: Bridge, l: Label, t: Talk<RTEvent>)
    requires Inv(s) && Enabled(s, l) && OffersAll(s, t)
    ensures OffersAll(Next(s, l), HearUi(t, s, l))
  {
    hide Q.Inv, Q.ProducerNext, Q.ConsumerNext, Q.Shaped, RtObservers, UiOk, Selected, Rejects;
    if l.UiStep? {
      UiCountsApart(s, l.view);
      UiStepsApart(s, l.view);
    }
  }

  ghost predicate Follows(s: Bridge, notified: seq<RTEvent>) {
    |s.echoed| == |s.dispatched| && Selected(s.dispatched, Flipped(s.echoed)) == notified
  }

  lemma {:induction false} FollowStep(s: Bridge, l: Label, notified: seq<RTEvent>)
    requires Enabled(s, l) && Follows(s, notified)
    ensures Follows(Next(s, l), notified + if l.Notify? then [l.event] else [])
  {
    hide Q.ProducerNext, Q.ConsumerNext, Q.Shaped, Selected;
    NothingMore(notified);
    if l.Notify? {
      FlippedMore(s.echoed, false);
      SelectedMore(s.dispatched, Flipped(s.echoed), l.event, true);
    } else if l.RtStep? && s.rt.RDequeue? && s.toRt.consumer.CReturned? && s.toRt.consumer.answer.Some? {
      FlippedMore(s.echoed, true);
      SelectedMore(s.dispatched, Flipped(s.echoed), s.toRt.consumer.answer.value, false);
    }
  }

  lemma {:induction false} FlippedMore(flags: seq<bool>, flag: bool)
    ensures Flipped(flags + [flag]) == Flipped(flags) + [!flag]
  {
  }

  lemma {:induction false} RunFollows(states: seq<Bridge>, labels: seq<Label>, i: nat)
    requires IsRun(states, labels) && i < |states|
    ensures Follows(states[i], Notified(labels[..i])) && OffersAll(states[i], TalkUi(states, labels, i))
    ensures TalkRt(states, labels, i).begun == Sent(labels[..i])
    decreases i
  {
    hide Follows, OffersAll, Next, Enabled, HearUi, RtOk, RtCounters, RtObservers, UiOk, Q.Inv;
    if i == 0 {
      assert Follows(states[0], []) && OffersAll(states[0], Talk([], [], [])) by { StartsEmpty(states[0]); }
    } else {
      RunFollows(states, labels, i - 1);
      RunInv(states, labels, i - 1);
      assert labels[..i][..i - 1] == labels[..i - 1];
      FollowStep(states[i - 1], labels[i - 1], Notified(labels[..i - 1]));
      OfferStep(states[i - 1], labels[i - 1], TalkUi(states, labels, i - 1));
      NothingMore(Notified(labels[..i - 1]));
      NothingMore(Sent(labels[..i - 1]));
    }
  }

  lemma {:induction false} StartsEmpty(s: Bridge)
    requires Init(s)
    ensures Follows(s, []) && OffersAll(s, Talk([], [], []))
  {
  }

  /**
    In every run: the events dispatched that did not come from the UI thread are the
    arguments of the dispatch calls, in order; the UI-to-RT queue was asked about the
    arguments of the send calls, in order, but for at most the one under way, and
    accepted those it said it did; and the RT-to-UI queue was asked about every event
    dispatched, in order, so that exactly those it refused are dropped.
  */
  lemma {:induction false} RunFollowsCalls(states: seq<Bridge>, labels: seq<Label>, i: nat)
    requires IsRun(states, labels) && i < |states|
    ensures var s, sends := states[i], Sent(labels[..i]);
      && |s.echoed| == |s.dispatched|
      && Selected(s.dispatched, Flipped(s.echoed)) == Notified(labels[..i])
      && Asked(s.toRt.log) <= sends && |sends| <= |Asked(s.toRt.log)| + 1
      && |Asked(s.toRt.log)| == |Oks(s.toRt.log)|
      && s.toRt.accepted == Selected(Asked(s.toRt.log), Oks(s.toRt.log))
      && (s.ui.UIdle? ==> Asked(s.toRt.log) == sends)
      && (s.rt.RIdle? ==> Asked(s.toUi.log) == s.dispatched && Oks(s.toUi.log) == s.queued
                          && s.rtDropped == Rejects(s.queued))
  {
    hide Q.Inv, Asked, Oks, Replies, Values, Selected, Rejects, RtObservers, UiOk;
    RunInv(states, labels, i);
    RunTalks(states, labels, i);
    RunFollows(states, labels, i);
    var s := states[i];
    NothingMore(Asked(s.toRt.log));
    NothingMore(Asked(s.toUi.log));
    NothingMore(s.queued);
  }
}
