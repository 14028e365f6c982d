/** The bounded queue between threads: one uninterrupted pass through `push` or `pop`. */
module Queue {

  datatype QueueState<T> = QueueState(items: seq<T>, maxSize: nat, run: bool)

  /** `MustWait`: the caller goes to sleep; `Refused`: the queue-full exception; `Closed`: the queue was shut down. */
  datatype Outcome<T> = Stored | Taken(value: T) | MustWait | Refused | Closed

  predicate Full<T>(q: QueueState<T>) { |q.items| >= q.maxSize }

  function PushPass<T>(q: QueueState<T>, item: T, block: bool): (QueueState<T>, Outcome<T>) {
    if block && q.run && Full(q) then (q, MustWait)
    else if block && !q.run then (q, Closed)
    else if !block && Full(q) then (q, Refused)
    else (q.(items := q.items + [item]), Stored)
  }

  function PopPass<T>(q: QueueState<T>): (QueueState<T>, Outcome<T>) {
    if q.run && q.items == [] then (q, MustWait)
    else if !q.run then (q, Closed)
    else (q.(items := q.items[1..]), Taken(q.items[0]))
  }

  /** Only a blocking push waits, only one that does not block is refused, and only a full queue makes either happen. */
  lemma PushOutcomes<T>(q: QueueState<T>, item: T, block: bool)
    ensures var o := PushPass(q, item, block).1;
            && (o.MustWait? <==> block && q.run && |q.items| >= q.maxSize)
            && (o.Refused? <==> !block && |q.items| >= q.maxSize)
            && (o.Closed? <==> block && !q.run)
            && (!o.Stored? ==> PushPass(q, item, block).0 == q)
  {
  }

  /** A pop waits exactly on an open empty queue. */
  lemma PopOutcomes<T>(q: QueueState<T>)
    ensures var o := PopPass(q).1;
            && (o.MustWait? <==> q.run && q.items == [])
            && (o.Closed? <==> !q.run)
            && (!o.Taken? ==> PopPass(q).0 == q)
  {
  }

  // ---------------------------------------------------------------------------
  // Any sequence of passes

  /** One pass through the queue, or its shutdown. */
  datatype Call<T> = PushCall(item: T, block: bool) | PopCall | Close

  /** A queue with everything that was stored in it and everything that was taken out. */
  datatype Record<T> = Record(queue: QueueState<T>, stored: seq<T>, taken: seq<T>)

  function Called<T>(r: Record<T>, call: Call<T>): Record<T> {
    match call
    case PushCall(item, block) =>
      var (q, o) := PushPass(r.queue, item, block);
      Record(q, if o.Stored? then r.stored + [item] else r.stored, r.taken)
    case PopCall =>
      var (q, o) := PopPass(r.queue);
      Record(q, r.stored, if o.Taken? then r.taken + [o.value] else r.taken)
    case Close => r.(queue := r.queue.(run := false))
  }

  function CalledAll<T>(r: Record<T>, calls: seq<Call<T>>): Record<T> {
    if calls == [] then r else Called(CalledAll(r, calls[..|calls| - 1]), calls[|calls| - 1])
  }

  function Empty<T>(maxSize: nat): Record<T> {
    Record(QueueState([], maxSize, true), [], [])
  }

  /** After any passes what was taken and what is left is what was stored, in order, and there is never too much. */
  lemma {:induction false} PassesAreFifo<T>(maxSize: nat, calls: seq<Call<T>>)
    ensures var r := CalledAll(Empty(maxSize), calls);
            && r.taken + r.queue.items == r.stored
            && |r.queue.items| <= maxSize == r.queue.maxSize
            && (r.queue.run <==> Close !in calls)
  {
    if calls != [] {
      var n := |calls| - 1;
      PassesAreFifo(maxSize, calls[..n]);
      assert calls == calls[..n] + [calls[n]];
    }
  }

  /** Nothing is taken out after the shutdown, and only a push that does not block still stores something. */
  lemma {:induction false} NothingTakenAfterShutdown<T>(r: Record<T>, calls: seq<Call<T>>)
    requires !r.queue.run
    ensures var last := CalledAll(r, calls);
            && !last.queue.run && last.taken == r.taken
            && ((forall i :: 0 <= i < |calls| && calls[i].PushCall? ==> calls[i].block) ==> last == r)
  {
    if calls != [] {
      NothingTakenAfterShutdown(r, calls[..|calls| - 1]);
    }
  }

  class BlockingQueue<T> {
    const maxSize: nat
    var items: seq<T>
    var run: bool

    function State(): QueueState<T>
      reads this
    {
      QueueState(items, maxSize, run)
    }

    constructor (size: nat)
      ensures State() == QueueState([], size, true)
    {
      maxSize := size;
      items := [];
      run := true;
    }

    predicate IsFull()
      reads this
    {
      |items| >= maxSize
    }

    method Push(item: T, block: bool) returns (o: Outcome<T>)
      modifies this`items
      ensures (State(), o) == PushPass(old(State()), item, block)
      ensures items == old(items) + (if o.Stored? then [item] else [])
      ensures old(|items|) <= maxSize ==> |items| <= maxSize
      ensures o.Stored? <==> old(|items|) < maxSize && (block ==> run)
      ensures o.MustWait? <==> block && run && old(|items|) >= maxSize
      ensures o.Refused? <==> !block && old(|items|) >= maxSize
    {
      if block {
        if run && IsFull() {
          return MustWait;
        }
        if !run {
          return Closed;
        }
      } else if IsFull() {
        return Refused;
      }
      items := items + [item];
      return Stored;
    }

    method Pop() returns (o: Outcome<T>)
      modifies this`items
      ensures (State(), o) == PopPass(old(State()))
      ensures old(items) == (if o.Taken? then [o.value] else []) + items
      ensures o.Taken? <==> run && old(items) != []
      ensures o.MustWait? <==> run && old(items) == []
    {
      if run && items == [] {
        return MustWait;
      }
      if !run {
        return Closed;
      }
      o := Taken(items[0]);
      items := items[1..];
    }
  }
}
