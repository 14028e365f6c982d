/**
 `BlockingQueue` as a monitor: threads that lock, check the wait condition, go to sleep, change the queue,
 notify and unlock, in any interleaving, with spurious wake-ups.
 */
module Monitor {
  import opened Bytes
  import opened Queue

  /** `Push` is the blocking push, `TryPush` the one that throws when the queue is full. */
  datatype Op<T> = Push(item: T) | TryPush(item: T) | Pop

  datatype Pc<T> =
    | Outside
    | Wanting(op: Op<T>)     // needs the mutex, at first or again after a wake-up
    | Checking(op: Op<T>)    // holds the mutex, about to evaluate the wait condition
    | Parking(op: Op<T>)     // holds the mutex, found the condition true, about to wait
    | Sleeping(op: Op<T>)    // waits on `isFull` (push) or `isEmpty` (pop) and has not been notified
    | Committing(op: Op<T>)  // holds the mutex, about to change the queue
    | Notifying(op: Op<T>)   // holds the mutex, has changed the queue, about to notify
    | Leaving(op: Op<T>)     // holds the mutex, about to release it

  /** `pushed` and `popped` record all items that went in and came out. */
  datatype State<T> = State(items: seq<T>, maxSize: nat, run: bool, holder: Option<nat>,
                            threads: map<nat, Pc<T>>, pushed: seq<T>, popped: seq<T>)

  datatype Action<T> = Call(op: Op<T>) | Acquire | Check | Park | Commit | Notify | Leave | WakeUp | Shutdown

  datatype Event<T> = Event(thread: nat, action: Action<T>)

  function At<T>(s: State<T>, t: nat): Pc<T> {
    if t in s.threads then s.threads[t] else Outside
  }

  predicate Critical<T>(pc: Pc<T>) {
    pc.Checking? || pc.Parking? || pc.Committing? || pc.Notifying? || pc.Leaving?
  }

  predicate Enabled<T>(s: State<T>, e: Event<T>) {
    var pc := At(s, e.thread);
    match e.action
    case Call(_) => pc.Outside?
    case Acquire => pc.Wanting? && s.holder.None?
    case Check => pc.Checking?
    case Park => pc.Parking?
    case Commit => pc.Committing? && (pc.op.Pop? ==> s.items != [])
    case Notify => pc.Notifying?
    case Leave => pc.Leaving?
    case WakeUp => pc.Sleeping?
    case Shutdown => true
  }

  predicate IsFull<T>(s: State<T>) { |s.items| >= s.maxSize }

  /** The wait condition of the loop at the top of each operation, and where the operation goes from there. */
  function AfterCheck<T>(s: State<T>, op: Op<T>): Pc<T> {
    match op
    case Push(_) => if s.run && IsFull(s) then Parking(op) else if !s.run then Leaving(op) else Committing(op)
    case TryPush(_) => if IsFull(s) then Leaving(op) else Committing(op)
    case Pop => if s.run && s.items == [] then Parking(op) else if !s.run then Leaving(op) else Committing(op)
  }

  /** `notify_all`: poppers sleep on `isEmpty`, pushers on `isFull`. */
  function WakeAll<T>(threads: map<nat, Pc<T>>, poppers: bool, pushers: bool): map<nat, Pc<T>> {
    map t | t in threads ::
      if threads[t].Sleeping? && (if threads[t].op.Pop? then poppers else pushers) then Wanting(threads[t].op)
      else threads[t]
  }

  function Apply<T>(s: State<T>, e: Event<T>): State<T>
    requires Enabled(s, e)
  {
    var t := e.thread;
    var pc := At(s, t);
    match e.action
    case Call(op) => s.(threads := s.threads[t := Wanting(op)])
    case Acquire => s.(threads := s.threads[t := Checking(pc.op)], holder := Some(t))
    case Check => s.(threads := s.threads[t := AfterCheck(s, pc.op)])
    case Park => s.(threads := s.threads[t := Sleeping(pc.op)], holder := None)
    case Commit =>
      if pc.op.Pop? then
        s.(threads := s.threads[t := Notifying(pc.op)], items := s.items[1..], popped := s.popped + [s.items[0]])
      else
        s.(threads := s.threads[t := Notifying(pc.op)], items := s.items + [pc.op.item], pushed := s.pushed + [pc.op.item])
    case Notify => s.(threads := WakeAll(s.threads, !pc.op.Pop?, pc.op.Pop?)[t := Leaving(pc.op)])
    case Leave => s.(threads := s.threads[t := Outside], holder := None)
    case WakeUp => s.(threads := s.threads[t := Wanting(pc.op)])
    case Shutdown => s.(threads := WakeAll(s.threads, true, true), run := false)
  }

  function Init<T>(maxSize: nat): State<T> {
    State([], maxSize, true, None, map[], [], [])
  }

  // ---------------------------------------------------------------------------
  // What every interleaving keeps

  /** A thread has changed the queue and not yet notified those the change is for. */
  predicate NotifyDue<T>(s: State<T>, poppers: bool) {
    s.holder.Some? && At(s, s.holder.value).Notifying? && (poppers <==> !At(s, s.holder.value).op.Pop?)
  }

  ghost predicate ThreadInv<T>(s: State<T>, t: nat) {
    var pc := At(s, t);
    && (Critical(pc) <==> s.holder == Some(t))
    && (pc.Committing? && pc.op.Pop? ==> s.items != [])
    && (pc.Committing? && !pc.op.Pop? ==> !IsFull(s))
    && (pc.Parking? && pc.op.Pop? ==> s.items == [])
    && (pc.Parking? && !pc.op.Pop? ==> pc.op.Push? && IsFull(s))
    && (pc.Sleeping? && pc.op.Pop? ==> s.items == [] || NotifyDue(s, true))
    && (pc.Sleeping? && !pc.op.Pop? ==> pc.op.Push? && (IsFull(s) || NotifyDue(s, false)))
  }

  ghost predicate Inv<T>(s: State<T>) {
    && |s.items| <= s.maxSize
    && s.popped + s.items == s.pushed
    && (forall t: nat :: ThreadInv(s, t))
  }

  lemma InitInv<T>(maxSize: nat)
    ensures Inv(Init<T>(maxSize))
  {
  }

  lemma StepKeepsThread<T>(s: State<T>, e: Event<T>, t: nat)
    requires Inv(s) && Enabled(s, e)
    ensures ThreadInv(Apply(s, e), t)
  {
    assert ThreadInv(s, t) && ThreadInv(s, e.thread);
    if s.holder.Some? {
      assert ThreadInv(s, s.holder.value);
    }
  }

  lemma StepKeepsInv<T>(s: State<T>, e: Event<T>)
    requires Inv(s) && Enabled(s, e)
    ensures Inv(Apply(s, e))
  {
    assert ThreadInv(s, e.thread);
    forall t: nat ensures ThreadInv(Apply(s, e), t) {
      StepKeepsThread(s, e, t);
    }
  }

  predicate Runs<T>(s: State<T>, events: seq<Event<T>>)
    decreases |events|
  {
    events == [] || (Enabled(s, events[0]) && Runs(Apply(s, events[0]), events[1..]))
  }

  function After<T>(s: State<T>, events: seq<Event<T>>): State<T>
    requires Runs(s, events)
    decreases |events|
  {
    if events == [] then s else After(Apply(s, events[0]), events[1..])
  }

  lemma {:induction false} RunKeepsInv<T>(s: State<T>, events: seq<Event<T>>)
    requires Inv(s) && Runs(s, events)
    ensures Inv(After(s, events)) && After(s, events).maxSize == s.maxSize
    decreases |events|
  {
    if events != [] {
      StepKeepsInv(s, events[0]);
      RunKeepsInv(Apply(s, events[0]), events[1..]);
    }
  }

  /** Over every interleaving: the bound holds, nothing is lost, duplicated or reordered, no wake-up is lost. */
  lemma MonitorIsCorrect<T>(maxSize: nat, events: seq<Event<T>>)
    requires Runs(Init<T>(maxSize), events)
    ensures var s := After(Init<T>(maxSize), events);
            && |s.items| <= maxSize
            && s.popped <= s.pushed && s.items == s.pushed[|s.popped|..]
            && (forall t, u :: Critical(At(s, t)) && Critical(At(s, u)) ==> t == u)
            && (forall t :: At(s, t).Sleeping? && At(s, t).op.Pop? ==> s.items == [] || NotifyDue(s, true))
            && (forall t :: At(s, t).Sleeping? && !At(s, t).op.Pop? ==> |s.items| >= maxSize || NotifyDue(s, false))
  {
    InitInv<T>(maxSize);
    RunKeepsInv(Init<T>(maxSize), events);
    var s := After(Init<T>(maxSize), events);
    forall t, u | Critical(At(s, t)) && Critical(At(s, u)) ensures t == u {
      assert ThreadInv(s, t) && ThreadInv(s, u);
    }
    forall t | At(s, t).Sleeping? ensures if At(s, t).op.Pop? then s.items == [] || NotifyDue(s, true) else IsFull(s) || NotifyDue(s, false) {
      assert ThreadInv(s, t);
    }
  }

  /** A step that needs no new call and no spurious wake-up. */
  predicate Progresses<T>(s: State<T>, e: Event<T>) {
    Enabled(s, e) && !e.action.Call? && !e.action.WakeUp? && !e.action.Shutdown?
  }

  function NextAction<T>(pc: Pc<T>): Action<T> {
    match pc
    case Wanting(_) => Acquire
    case Checking(_) => Check
    case Parking(_) => Park
    case Committing(_) => Commit
    case Notifying(_) => Notify
    case _ => Leave
  }

  /**
   With room for at least one item, either some thread can go on by itself, or all threads inside an operation
   wait for the same thing: for an item while the queue is empty, or for room while it is full.
   */
  lemma NeverAllStuck<T>(s: State<T>)
    requires Inv(s) && s.maxSize >= 1
    ensures (exists t: nat :: Progresses(s, Event(t, NextAction(At(s, t)))))
         || (forall t: nat :: At(s, t).Outside? || (At(s, t).Sleeping? && At(s, t).op.Pop? && s.items == []))
         || (forall t: nat :: At(s, t).Outside? || (At(s, t).Sleeping? && At(s, t).op.Push? && IsFull(s)))
  {
    if t: nat :| !At(s, t).Outside? && !At(s, t).Sleeping? {
      var u := if s.holder.Some? then s.holder.value else t;
      assert ThreadInv(s, t) && ThreadInv(s, u);
      assert Progresses(s, Event(u, NextAction(At(s, u))));
    } else {
      assert ThreadInv(s, if s.holder.Some? then s.holder.value else 0);
      var poppers := exists t: nat :: At(s, t).Sleeping? && At(s, t).op.Pop?;
      if poppers {
        var p: nat :| At(s, p).Sleeping? && At(s, p).op.Pop?;
        assert ThreadInv(s, p);
      }
      forall t: nat | !At(s, t).Outside?
        ensures At(s, t).Sleeping? && (if poppers then At(s, t).op.Pop? else At(s, t).op.Push? && IsFull(s))
      {
        assert ThreadInv(s, t);
      }
    }
  }

  /**
   Seen from outside, a step either leaves the queue alone or is one whole atomic push or pop. An operation that has
   passed its check when the queue is shut down is completed as if the shutdown had come after it.
   */
  lemma StepsAreAtomicOperations<T>(s: State<T>, e: Event<T>)
    requires Inv(s) && Enabled(s, e)
    ensures var s' := Apply(s, e); var q := QueueState(s.items, s.maxSize, true);
            var pc := At(s, e.thread);
            && (!e.action.Commit? ==> s'.items == s.items)
            && (e.action.Commit? && pc.op.Pop? ==> PopPass(q) == (q.(items := s'.items), Taken(s.items[0])))
            && (e.action.Commit? && !pc.op.Pop? ==>
                  PushPass(q, pc.op.item, pc.op.Push?) == (q.(items := s'.items), Stored))
  {
    assert ThreadInv(s, e.thread);
  }

  /** The passes through the queue that a run commits, in the order of their commits. */
  function Commits<T>(s: State<T>, events: seq<Event<T>>): seq<Queue.Call<T>>
    requires Runs(s, events)
    decreases |events|
  {
    if events == [] then []
    else
      var e := events[0];
      (if e.action.Commit? then [PassOf(At(s, e.thread).op)] else []) + Commits(Apply(s, e), events[1..])
  }

  function PassOf<T>(op: Op<T>): Queue.Call<T> {
    match op
    case Push(item) => PushCall(item, true)
    case TryPush(item) => PushCall(item, false)
    case Pop => PopCall
  }

  function RecordOf<T>(s: State<T>): Record<T> {
    Record(QueueState(s.items, s.maxSize, true), s.pushed, s.popped)
  }

  lemma {:induction false} CalledAllCons<T>(r: Record<T>, call: Queue.Call<T>, rest: seq<Queue.Call<T>>)
    ensures CalledAll(r, [call] + rest) == CalledAll(Called(r, call), rest)
  {
    if rest == [] {
      assert [call] + rest == [call] && [call][..0] == [];
      assert CalledAll(r, []) == r;
    } else {
      var n := |rest| - 1;
      assert ([call] + rest)[..n + 1] == [call] + rest[..n];
      CalledAllCons(r, call, rest[..n]);
    }
  }

  /**
   Every interleaving has the effect of the operations it commits, each done at once and in the order of their
   commits: as if nothing had been interleaved.
   */
  lemma {:induction false} RunsAreLinearizable<T>(s: State<T>, events: seq<Event<T>>)
    requires Inv(s) && Runs(s, events)
    ensures CalledAll(RecordOf(s), Commits(s, events)) == RecordOf(After(s, events))
    decreases |events|
  {
    if events != [] {
      var e, next := events[0], Apply(s, events[0]);
      StepKeepsInv(s, e);
      RunsAreLinearizable(next, events[1..]);
      CommitIsPass(s, e);
      hide Apply;
      hide Called;
      if e.action.Commit? {
        CalledAllCons(RecordOf(s), PassOf(At(s, e.thread).op), Commits(next, events[1..]));
      } else {
        assert [] + Commits(next, events[1..]) == Commits(next, events[1..]);
      }
    }
  }

  lemma CommitIsPass<T>(s: State<T>, e: Event<T>)
    requires Inv(s) && Enabled(s, e)
    ensures e.action.Commit? ==> Called(RecordOf(s), PassOf(At(s, e.thread).op)) == RecordOf(Apply(s, e))
    ensures !e.action.Commit? ==> RecordOf(Apply(s, e)) == RecordOf(s)
  {
    StepsAreAtomicOperations(s, e);
  }

  // ---------------------------------------------------------------------------
  // No operation is dropped

  /** The operations thread `t` calls in the course of `events`. */
  function CallsOf<T>(events: seq<Event<T>>, t: nat): seq<Op<T>> {
    if events == [] then []
    else
      (if events[0].thread == t && events[0].action.Call? then [events[0].action.op] else []) + CallsOf(events[1..], t)
  }

  /**
   The operations of thread `t` that come to their end in the course of `events`: a push or pop when it changes the
   queue, a `TryPush` also when it checks a full queue, and a blocking operation also when it checks a queue that
   was shut down.
   */
  function EndsOf<T>(s: State<T>, events: seq<Event<T>>, t: nat): seq<Op<T>>
    requires Runs(s, events)
    decreases |events|
  {
    if events == [] then []
    else
      (if events[0].thread == t then EndOf(s, events[0]) else []) + EndsOf(Apply(s, events[0]), events[1..], t)
  }

  function EndOf<T>(s: State<T>, e: Event<T>): seq<Op<T>>
    requires Enabled(s, e)
  {
    var pc := At(s, e.thread);
    match e.action
    case Commit => [pc.op]
    case Check => if (if pc.op.TryPush? then |s.items| >= s.maxSize else !s.run) then [pc.op] else []
    case _ => []
  }

  /** The operation a thread is in before its end. */
  function Unfinished<T>(pc: Pc<T>): seq<Op<T>> {
    if pc.Outside? || pc.Notifying? || pc.Leaving? then [] else [pc.op]
  }

  lemma Regroup<X>(a: seq<X>, b: seq<X>, c: seq<X>, d: seq<X>, e: seq<X>, f: seq<X>, g: seq<X>)
    requires a + b == d + e && e + c == f + g
    ensures a + (b + c) == (d + f) + g
  {
    assert a + (b + c) == (a + b) + c == d + (e + c);
  }

  lemma StepOfCalls<T>(s: State<T>, e: Event<T>, t: nat)
    requires Enabled(s, e)
    ensures var called := if e.thread == t && e.action.Call? then [e.action.op] else [];
            var ended := if e.thread == t then EndOf(s, e) else [];
            Unfinished(At(s, t)) + called == ended + Unfinished(At(Apply(s, e), t))
  {
  }

  /**
   Over every interleaving each thread's operations come to their end one by one, and none returns before: a blocking
   push or pop has its effect unless it finds the queue shut down, a `TryPush` unless it finds it full.
   */
  lemma {:induction false} EveryCallTakesEffect<T>(s: State<T>, events: seq<Event<T>>, t: nat)
    requires Runs(s, events)
    ensures Unfinished(At(s, t)) + CallsOf(events, t) == EndsOf(s, events, t) + Unfinished(At(After(s, events), t))
    decreases |events|
  {
    if events != [] {
      var e, next := events[0], Apply(s, events[0]);
      var called := if e.thread == t && e.action.Call? then [e.action.op] else [];
      var ended := if e.thread == t then EndOf(s, e) else [];
      StepOfCalls(s, e, t);
      EveryCallTakesEffect(next, events[1..], t);
      assert CallsOf(events, t) == called + CallsOf(events[1..], t);
      assert EndsOf(s, events, t) == ended + EndsOf(next, events[1..], t);
      Regroup(Unfinished(At(s, t)), called, CallsOf(events[1..], t), ended, Unfinished(At(next, t)),
              EndsOf(next, events[1..], t), Unfinished(At(After(s, events), t)));
      hide *;
    } else {
      assert Unfinished(At(s, t)) + [] == [] + Unfinished(At(s, t));
    }
  }

  /** The items of the blocking pushes among `ops`. */
  function PushItems<T>(ops: seq<Op<T>>): seq<T> {
    if ops == [] then []
    else (if ops[0].Push? then [ops[0].item] else []) + PushItems(ops[1..])
  }

  /** The items the blocking pushes of thread `t` put into the queue. */
  function StoredBy<T>(s: State<T>, events: seq<Event<T>>, t: nat): seq<T>
    requires Runs(s, events)
    decreases |events|
  {
    if events == [] then []
    else
      var e := events[0];
      (if e.thread == t && e.action.Commit? && At(s, t).op.Push? then [At(s, t).op.item] else [])
      + StoredBy(Apply(s, e), events[1..], t)
  }

  lemma {:induction false} PushItemsConcat<T>(a: seq<Op<T>>, b: seq<Op<T>>)
    ensures PushItems(a + b) == PushItems(a) + PushItems(b)
  {
    if a == [] {
      assert a + b == b;
      assert [] + PushItems(b) == PushItems(b);
    } else {
      var first := if a[0].Push? then [a[0].item] else [];
      assert (a + b)[1..] == a[1..] + b;
      assert PushItems(a) == first + PushItems(a[1..]) && PushItems(a + b) == first + PushItems(a[1..] + b);
      hide PushItems;
      PushItemsConcat(a[1..], b);
      assert first + (PushItems(a[1..]) + PushItems(b)) == (first + PushItems(a[1..])) + PushItems(b);
    }
  }

  lemma PushItemsOfOne<T>(op: Op<T>)
    ensures PushItems([op]) == if op.Push? then [op.item] else []
  {
    assert [op][1..] == [];
  }

  /** While the queue is open a blocking push ends by storing its item, and in no other way. */
  lemma {:induction false} OpenPushesStore<T>(s: State<T>, events: seq<Event<T>>, t: nat)
    requires s.run && Runs(s, events) && forall i :: 0 <= i < |events| ==> !events[i].action.Shutdown?
    ensures PushItems(EndsOf(s, events, t)) == StoredBy(s, events, t)
    decreases |events|
  {
    if events != [] {
      var e, next := events[0], Apply(s, events[0]);
      assert !e.action.Shutdown?;
      OpenPushesStore(next, events[1..], t);
      PushItemsConcat(if e.thread == t then EndOf(s, e) else [], EndsOf(next, events[1..], t));
      if e.thread == t && EndOf(s, e) != [] {
        PushItemsOfOne(At(s, t).op);
      }
    }
  }

  /** While the queue is open, what a thread's blocking pushes stored and still have to store is what they were called with. */
  lemma NoPushIsDropped<T>(maxSize: nat, events: seq<Event<T>>, t: nat)
    requires Runs(Init<T>(maxSize), events) && forall i :: 0 <= i < |events| ==> !events[i].action.Shutdown?
    ensures PushItems(CallsOf(events, t))
         == StoredBy(Init<T>(maxSize), events, t) + PushItems(Unfinished(At(After(Init<T>(maxSize), events), t)))
  {
    var s := Init<T>(maxSize);
    EveryCallTakesEffect(s, events, t);
    assert Unfinished(At(s, t)) + CallsOf(events, t) == CallsOf(events, t);
    PushItemsConcat(EndsOf(s, events, t), Unfinished(At(After(s, events), t)));
    OpenPushesStore(s, events, t);
  }

  // ---------------------------------------------------------------------------
  // Shutdown

  predicate Waits<T>(pc: Pc<T>) { pc.Sleeping? || pc.Parking? }

  /** After the shutdown a thread that does not wait will never wait again. */
  lemma {:induction false} NobodyWaitsAgain<T>(s: State<T>, events: seq<Event<T>>, t: nat)
    requires !s.run && !Waits(At(s, t)) && Runs(s, events)
    ensures !After(s, events).run && !Waits(At(After(s, events), t))
    decreases |events|
  {
    if events != [] {
      var next := Apply(s, events[0]);
      assert !next.run && !Waits(At(next, t));
      NobodyWaitsAgain(next, events[1..], t);
    }
  }

  function Closed<T>(s: State<T>, closer: nat): State<T> {
    Apply(s, Event(closer, Shutdown))
  }

  /** After `events` thread `t` sleeps without having been notified. */
  predicate LeavesAsleep<T>(s: State<T>, events: seq<Event<T>>, t: nat) {
    Runs(s, events) && At(After(s, events), t).Sleeping?
  }

  /**
   The shutdown clears `run` without the mutex, so it can slip in between a thread's check and its wait.
   It leaves somebody asleep in some later state exactly when it does slip in there.
   */
  lemma ShutdownLosesWakeupIff<T>(s: State<T>, closer: nat)
    ensures (exists events, t: nat :: LeavesAsleep(Closed(s, closer), events, t))
       <==> (exists t: nat :: At(s, t).Parking?)
  {
    var closed := Closed(s, closer);
    if t: nat :| At(s, t).Parking? {
      var park := [Event(t, Park)];
      assert At(closed, t).Parking?;
      var parked := Apply(closed, park[0]);
      assert park[1..] == [] && Runs(parked, []) && After(parked, []) == parked;
      assert LeavesAsleep(closed, park, t);
    } else {
      forall events, t: nat | Runs(closed, events) ensures !LeavesAsleep(closed, events, t) {
        assert !At(s, t).Parking? && !Waits(At(closed, t));
        NobodyWaitsAgain(closed, events, t);
      }
    }
  }

  /** A run in which `t` is not woken for no reason, the queue is not shut down again and no `TryPush` succeeds. */
  predicate Undisturbed<T>(s: State<T>, events: seq<Event<T>>, t: nat)
    requires Runs(s, events)
    decreases |events|
  {
    events == [] ||
    (var e := events[0];
     && e != Event(t, WakeUp) && !e.action.Shutdown? && !(e.action.Commit? && At(s, e.thread).op.TryPush?)
     && Undisturbed(Apply(s, e), events[1..], t))
  }

  /** Nobody is left who would notify a sleeper: only an operation that passed its check before could. */
  ghost predicate NobodyNotifies<T>(s: State<T>) {
    !s.run && forall u: nat :: !At(s, u).Notifying? && (At(s, u).Committing? ==> At(s, u).op.TryPush?)
  }

  lemma {:induction false} SleepsOn<T>(s: State<T>, events: seq<Event<T>>, t: nat)
    requires NobodyNotifies(s) && At(s, t).Sleeping? && Runs(s, events) && Undisturbed(s, events, t)
    ensures At(After(s, events), t).Sleeping?
    decreases |events|
  {
    if events != [] {
      var e, next := events[0], Apply(s, events[0]);
      assert !At(s, e.thread).Notifying?;
      forall u: nat ensures !At(next, u).Notifying? && (At(next, u).Committing? ==> At(next, u).op.TryPush?) {
        assert !At(s, u).Notifying? && (At(s, u).Committing? ==> At(s, u).op.TryPush?);
      }
      SleepsOn(next, events[1..], t);
    }
  }

  /** After `events` thread `t` sleeps, and in no undisturbed continuation does it wake up. */
  ghost predicate Stranded<T(!new)>(s: State<T>, events: seq<Event<T>>, t: nat) {
    && LeavesAsleep(s, events, t)
    && forall more | Runs(After(s, events), more) && Undisturbed(After(s, events), more, t) ::
         At(After(After(s, events), more), t).Sleeping?
  }

  /** The shutdown can strand somebody for good exactly when it slips in between a check and its wait. */
  lemma ShutdownStrandsIff<T(!new)>(s: State<T>, closer: nat)
    requires Inv(s)
    ensures (exists events, t: nat :: Stranded(Closed(s, closer), events, t)) <==> (exists t: nat :: At(s, t).Parking?)
  {
    var closed := Closed(s, closer);
    if t: nat :| At(s, t).Parking? {
      var park := [Event(t, Park)];
      var parked := Apply(closed, park[0]);
      assert park[1..] == [] && Runs(parked, []) && After(parked, []) == parked;
      assert LeavesAsleep(closed, park, t);
      forall u: nat ensures !At(parked, u).Notifying? && !At(parked, u).Committing? {
        assert ThreadInv(s, t) && ThreadInv(s, u);
      }
      forall more | Runs(parked, more) && Undisturbed(parked, more, t) ensures At(After(parked, more), t).Sleeping? {
        SleepsOn(parked, more, t);
      }
      assert Stranded(closed, park, t);
    } else {
      ShutdownLosesWakeupIff(s, closer);
      forall events, t: nat ensures !Stranded(closed, events, t) {
        assert !LeavesAsleep(closed, events, t);
      }
    }
  }

  /** A thread that finds the queue empty is between its check and its wait. */
  lemma ParkingIsReached<T>(maxSize: nat, t: nat)
    ensures var events := [Event(t, Call(Pop)), Event(t, Acquire), Event(t, Check)];
            Runs(Init<T>(maxSize), events) && At(After(Init<T>(maxSize), events), t).Parking?
  {
    var s := Init<T>(maxSize);
    var a, b, c := Event(t, Call(Pop)), Event(t, Acquire), Event(t, Check);
    var s1 := Apply(s, a);
    var s2 := Apply(s1, b);
    var s3 := Apply(s2, c);
    assert [a, b, c][1..] == [b, c] && [b, c][1..] == [c] && [c][1..] == [];
    assert Runs(s3, []) && After(s3, []) == s3;
    assert Runs(s2, [c]) && After(s2, [c]) == s3;
    assert Runs(s1, [b, c]) && After(s1, [b, c]) == s3;
  }
}
