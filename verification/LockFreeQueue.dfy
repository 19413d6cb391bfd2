/** A value that may be missing. */
module Options {
  datatype Option<+T> = None | Some(value: T)
}

/** Indices of a ring of `cap` slots, one of which always stays free. */
module Ring {
  function Wrap(i: nat, cap: nat): nat {
    if i + 1 == cap then 0 else i + 1
  }

  /** For the indices of a ring this is the code's `(i + 1) % Capacity`. */
  lemma WrapIsModulo(i: nat, cap: nat)
    requires i < cap
    ensures Wrap(i, cap) == (i + 1) % cap
  {
  }

  /** The items in the slots from `head` up to `tail`, oldest first. */
  function Items<T>(buf: seq<T>, head: nat, tail: nat): (items: seq<T>)
    requires head < |buf| && tail < |buf|
    ensures |items| < |buf|
  {
    if head <= tail then buf[head..tail] else buf[head..] + buf[..tail]
  }

  lemma Push<T>(buf: seq<T>, head: nat, tail: nat, item: T)
    requires head < |buf| && tail < |buf| && Wrap(tail, |buf|) != head
    ensures Items(buf[tail := item], head, Wrap(tail, |buf|)) == Items(buf, head, tail) + [item]
  {
    var buf' := buf[tail := item];
    if head <= tail && tail + 1 < |buf| {
      assert buf'[head..tail + 1] == buf[head..tail] + [item];
    } else if head <= tail {
      assert buf'[head..] + buf'[..0] == buf[head..tail] + [item];
    } else {
      assert buf'[..tail + 1] == buf[..tail] + [item];
    }
  }

  lemma Pop<T>(buf: seq<T>, head: nat, tail: nat)
    requires head < |buf| && tail < |buf| && head != tail
    ensures Items(buf, head, tail) == [buf[head]] + Items(buf, Wrap(head, |buf|), tail)
  {
    if head + 1 == |buf| {
      assert buf[head..] + buf[..tail] == [buf[head]] + buf[0..tail];
    } else if head < tail {
      assert buf[head..tail] == [buf[head]] + buf[head + 1..tail];
    } else {
      assert buf[head..] + buf[..tail] == [buf[head]] + (buf[head + 1..] + buf[..tail]);
    }
  }

  lemma FullOrNot<T>(buf: seq<T>, head: nat, tail: nat)
    requires head < |buf| && tail < |buf|
    ensures Wrap(tail, |buf|) == head <==> |Items(buf, head, tail)| == |buf| - 1
    ensures head == tail <==> Items(buf, head, tail) == []
  {
  }
}

/** The ring buffer as one thread sees it, in both its fixed and its dynamic form. */
module LockFreeQueue {
  import opened Options
  import opened Ring

  class Queue<T(0)> {
    const capacity: nat // slots, one more than the items that fit
    const buffer: array<T>
    var head: nat
    var tail: nat

    ghost predicate Valid()
      reads this
    {
      1 <= capacity == buffer.Length && head < capacity && tail < capacity
    }

    /** Oldest first. */
    ghost function Contents(): (items: seq<T>)
      requires Valid()
      reads this, buffer
      ensures |items| <= capacity - 1
    {
      Items(buffer[..], head, tail)
    }

    constructor (usable: nat)
      ensures Valid() && fresh(buffer) && capacity == usable + 1 && Contents() == []
    {
      capacity := usable + 1;
      buffer := new T[usable + 1];
      head := 0;
      tail := 0;
    }

    method Enqueue(item: T) returns (ok: bool)
      requires Valid()
      modifies this`tail, buffer
      ensures Valid()
      ensures ok == (|old(Contents())| < capacity - 1)
      ensures Contents() == if ok then old(Contents()) + [item] else old(Contents())
    {
      FullOrNot(buffer[..], head, tail);
      WrapIsModulo(tail, capacity);
      var currentTail := tail;
      var nextTail := (currentTail + 1) % capacity;
      if nextTail == head {
        return false;
      }
      Push(buffer[..], head, tail, item);
      buffer[currentTail] := item;
      tail := nextTail;
      return true;
    }

    method Dequeue() returns (item: Option<T>)
      requires Valid()
      modifies this`head
      ensures Valid()
      ensures old(Contents()) == [] ==> item == None && Contents() == []
      ensures old(Contents()) != [] ==>
        item == Some(old(Contents())[0]) && Contents() == old(Contents())[1..]
    {
      FullOrNot(buffer[..], head, tail);
      WrapIsModulo(head, capacity);
      var currentHead := head;
      if currentHead == tail {
        return None;
      }
      Pop(buffer[..], head, tail);
      item := Some(buffer[currentHead]);
      head := (currentHead + 1) % capacity;
    }

    method Empty() returns (e: bool)
      requires Valid()
      ensures e == (Contents() == [])
    {
      return head == tail;
    }

    method Size() returns (n: nat)
      requires Valid()
      ensures n == |Contents()|
    {
      return if tail >= head then tail - head else capacity - head + tail;
    }
  }
}
