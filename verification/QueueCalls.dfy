/**
  The shared queue as its callers see it: what they ask for, what they are told,
  and how the two go together, whatever the threads do in between.
*/
module QueueCalls {
  import opened Options
  import opened Selection
  import opened QueueProtocol
  import Ring

  /** What the callers have asked for and been told so far. */
  datatype Talk<T> = Talk(
    begun: seq<T>,               // arguments of the enqueue calls begun
    oks: seq<bool>,              // results of those that returned
    replies: seq<Option<T>>)     // results of the dequeue calls that returned

  // ------------------------------------------------------------------- the log

  /** The items that the log has decided about. */
  function Asked<T>(log: seq<Event<T>>): seq<T> {
    if log == [] then []
    else
      Asked(log[..|log| - 1]) +
      match Last(log)
      case Accepted(item) => [item]
      case Refused(item, _) => [item]
      case _ => []
  }

  function Oks<T>(log: seq<Event<T>>): seq<bool> {
    if log == [] then []
    else
      Oks(log[..|log| - 1]) +
      match Last(log)
      case Accepted(_) => [true]
      case Refused(_, _) => [false]
      case _ => []
  }

  function Replies<T>(log: seq<Event<T>>): seq<Option<T>> {
    if log == [] then []
    else
      Replies(log[..|log| - 1]) +
      match Last(log)
      case Delivered(item) => [Some(item)]
      case FoundEmpty(_) => [None]
      case _ => []
  }

  function Values<T>(replies: seq<Option<T>>): seq<T> {
    if replies == [] then []
    else Values(replies[..|replies| - 1]) + (if Last(replies).Some? then [Last(replies).value] else [])
  }

  lemma {:induction false} LogMore<T>(log: seq<Event<T>>, e: Event<T>)
    ensures Asked(log + [e]) == Asked(log) + if e.Accepted? || e.Refused? then [e.item] else []
    ensures Oks(log + [e]) == Oks(log) + if e.Accepted? then [true] else if e.Refused? then [false] else []
    ensures Replies(log + [e])
      == Replies(log) + if e.Delivered? then [Some(e.item)] else if e.FoundEmpty? then [None] else []
  {
    assert (log + [e])[..|log|] == log;
  }

  lemma {:induction false} ValuesMore<T>(replies: seq<Option<T>>, reply: Option<T>)
    ensures Values(replies + [reply]) == Values(replies) + if reply.Some? then [reply.value] else []
  {
    assert (replies + [reply])[..|replies|] == replies;
  }

  // ------------------------------------------------------------- calls under way

  /** The argument of an enqueue call that is not decided yet. */
  function Undecided<T>(s: State<T>): seq<T> {
    match s.producer
    case PCalled(item) => [item]
    case PLoadedTail(item, _) => [item]
    case PLoadedHead(item, tail, head) => if Ring.Wrap(tail, s.cap) == head then [] else [item]
    case PChecked(item, _) => [item]
    case PWritten(item, _) => [item]
    case _ => []
  }

  /** The result of an enqueue call that is decided but has not returned yet. */
  function UntoldOk<T>(s: State<T>): seq<bool> {
    match s.producer
    case PLoadedHead(_, tail, head) => if Ring.Wrap(tail, s.cap) == head then [false] else []
    case PReturned(ok) => [ok]
    case _ => []
  }

  /** The result of a dequeue call that is decided but has not returned yet. */
  function UntoldReply<T>(s: State<T>): seq<Option<T>> {
    match s.consumer
    case CLoadedTail(head, tail) => if head == tail then [None] else []
    case CReturned(answer) => [answer]
    case _ => []
  }

  /** The log, the callers and the items that went through all tell the same story. */
  ghost predicate Agrees<T>(s: State<T>, t: Talk<T>) {
    && t.begun == Asked(s.log) + Undecided(s)
    && Oks(s.log) == t.oks + UntoldOk(s)
    && Replies(s.log) == t.replies + UntoldReply(s)
    && Passed(s)
  }

  ghost predicate Passed<T>(s: State<T>) {
    && |Asked(s.log)| == |Oks(s.log)|
    && s.accepted == Selected(Asked(s.log), Oks(s.log))
    && s.delivered == Values(Replies(s.log))
  }

  lemma {:induction false} InitAgrees<T>(s: State<T>)
    requires Init(s)
    ensures Agrees(s, Talk([], [], []))
  {
  }

  lemma {:induction false} NothingMore<A>(s: seq<A>)
    ensures s + [] == s
  {
  }

  lemma {:induction false} ProducerAgrees<T>(s: State<T>, view: nat, t: Talk<T>)
    requires Shaped(s) && Enabled(s, ProducerStep(view)) && Agrees(s, t)
    ensures Agrees(ProducerNext(s, view), t)
  {
    hide Asked, Oks, Replies, Values, Selected, Ring.Wrap;
    NothingMore(Asked(ProducerNext(s, view).log));
    NothingMore(t.oks);
    NothingMore(s.accepted);
    NothingMore(Replies(s.log));
    match s.producer
    case PLoadedTail(item, tail) =>
      LogMore(s.log, Refused(item, |s.heads| - 1 - view));
      SelectedMore(Asked(s.log), Oks(s.log), item, false);
    case PWritten(item, _) =>
      LogMore(s.log, Accepted(item));
      SelectedMore(Asked(s.log), Oks(s.log), item, true);
    case _ =>
  }

  lemma {:induction false} ConsumerAgrees<T>(s: State<T>, view: nat, t: Talk<T>)
    requires Shaped(s) && Enabled(s, ConsumerStep(view)) && Agrees(s, t)
    ensures Agrees(ConsumerNext(s, view), t)
  {
    hide Asked, Oks, Replies, Values, Selected, Ring.Wrap;
    NothingMore(t.replies);
    NothingMore(s.delivered);
    NothingMore(Asked(s.log));
    NothingMore(Oks(s.log));
    match s.consumer
    case CLoadedHead(_) =>
      LogMore(s.log, FoundEmpty(|s.tails| - 1 - view));
      ValuesMore(Replies(s.log), None);
    case CRead(_, item) =>
      LogMore(s.log, Delivered(item));
      ValuesMore(Replies(s.log), Some(item));
    case _ =>
  }

  // ---------------------------------------------------------------------- runs

  /** The arguments of the enqueue calls begun by these labels. */
  function Begun<T>(labels: seq<Label<T>>): seq<T> {
    if labels == [] then []
    else Begun(labels[..|labels| - 1]) + (if Last(labels).BeginEnqueue? then [Last(labels).item] else [])
  }

  /** What the callers have heard after `i` steps of a run. */
  ghost function Heard<T>(states: seq<State<T>>, labels: seq<Label<T>>, i: nat): Talk<T>
    requires IsRun(states, labels) && i < |states|
  {
    if i == 0 then Talk([], [], [])
    else
      var t, s := Heard(states, labels, i - 1), states[i - 1];
      match labels[i - 1]
      case BeginEnqueue(item) => t.(begun := t.begun + [item])
      case EndEnqueue => t.(oks := t.oks + [s.producer.ok])
      case EndDequeue => t.(replies := t.replies + [s.consumer.answer])
      case _ => t
  }

  lemma {:induction false} HeardBegun<T>(states: seq<State<T>>, labels: seq<Label<T>>, i: nat)
    requires IsRun(states, labels) && i < |states|
    ensures Heard(states, labels, i).begun == Begun(labels[..i])
    decreases i
  {
    if i > 0 {
      HeardBegun(states, labels, i - 1);
      assert labels[..i][..i - 1] == labels[..i - 1];
    }
  }

  lemma {:induction false} RunAgrees<T>(states: seq<State<T>>, labels: seq<Label<T>>, i: nat)
    requires IsRun(states, labels) && i < |states|
    ensures Agrees(states[i], Heard(states, labels, i))
    decreases i
  {
    hide Asked, Oks, Replies, Values, Selected, ProducerNext, ConsumerNext, Shaped, Ring.Wrap;
    if i == 0 {
      InitAgrees(states[0]);
    } else {
      RunAgrees(states, labels, i - 1);
      var s, t := states[i - 1], Heard(states, labels, i - 1);
      match labels[i - 1]
      case ProducerStep(view) => ProducerAgrees(s, view, t);
      case ConsumerStep(view) => ConsumerAgrees(s, view, t);
      case _ =>
    }
  }

  /**
    In every run, what the log decides about are the very arguments of the enqueue
    calls, in order, but for at most the one call still undecided; what calls of
    either kind return is what the log says, but for at most the one not returned;
    and with no call under way the items accepted are the arguments of the calls
    that returned true, and the items delivered are the results of the others.
  */
  lemma {:induction false} RunAnswersCalls<T>(states: seq<State<T>>, labels: seq<Label<T>>, i: nat)
    requires IsRun(states, labels) && i < |states|
    ensures var s, t := states[i], Heard(states, labels, i);
      && t.begun == Begun(labels[..i])
      && Asked(s.log) <= t.begun && |t.begun| <= |Asked(s.log)| + 1
      && t.oks <= Oks(s.log) && |Oks(s.log)| <= |t.oks| + 1
      && t.replies <= Replies(s.log) && |Replies(s.log)| <= |t.replies| + 1
      && (s.producer.PIdle? || s.producer.PReturned? ==> Asked(s.log) == t.begun)
      && (s.producer.PIdle? ==> |t.begun| == |t.oks| && s.accepted == Selected(t.begun, t.oks))
      && (s.consumer.CIdle? ==> s.delivered == Values(t.replies))
  {
    hide Asked, Oks, Replies, Values, Selected;
    RunAgrees(states, labels, i);
    HeardBegun(states, labels, i);
    var s, t := states[i], Heard(states, labels, i);
    NothingMore(Asked(s.log));
    NothingMore(t.oks);
    NothingMore(t.replies);
  }

  /**
    The queue for its callers, no matter how it works: with no call under way, the
    items dequeued so far are the first of those whose enqueue returned true, in
    order, and no more than the capacity are still to come.
  */
  lemma {:induction false} FifoForCallers<T>(states: seq<State<T>>, labels: seq<Label<T>>, i: nat)
    requires IsRun(states, labels) && i < |states|
    requires states[i].producer.PIdle? && states[i].consumer.CIdle?
    ensures var t := Heard(states, labels, i);
      && t.begun == Begun(labels[..i]) && |t.oks| == |t.begun|
      && Values(t.replies) <= Selected(t.begun, t.oks)
      && |Selected(t.begun, t.oks)| <= |Values(t.replies)| + states[i].cap - 1
  {
    RunAnswersCalls(states, labels, i);
    RunRefinesFifo(states, labels, i);
  }
}
