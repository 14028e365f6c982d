/**
 The worker thread with its nested loops, run against any behaviour of the other threads and the chip. Every run of
 the loops is a run of the transition system of `Pipeline`, so that everything proved there holds for them.
 */
module Worker {
  import opened Pipeline

  /** What the others do in between: requests, answers, readers, sessions. */
  predicate FromOutside(e: Event) {
    e.Answer? || e.Push? || e.Read? || e.Reserve? || e.Release?
  }

  /** What the worker itself did in a run. */
  function WorkerSteps(events: seq<Event>): seq<Event> {
    if events == [] then []
    else
      var before := WorkerSteps(events[..|events| - 1]);
      var e := events[|events| - 1];
      if FromOutside(e) then before else before + [e]
  }

  lemma WorkerStepsAppend(events: seq<Event>, e: Event)
    ensures WorkerSteps(events + [e]) == if FromOutside(e) then WorkerSteps(events) else WorkerSteps(events) + [e]
  {
    assert (events + [e])[..|events|] == events;
  }

  /** A run that was lengthened without losing answers or requests, and without the worker taking any. */
  ghost predicate Waited(before: State, after: State) {
    after.pc == before.pc && after.inProgress == before.inProgress && after.hand == before.hand
    && |after.queue| >= |before.queue| && |after.line| >= |before.line| && |after.channels| == |before.channels|
  }

  class QueueWorker {
    const initial: State
    var state: State
    var dorun: bool
    /** What others will do: one batch for each time the worker can be interrupted. */
    var others: seq<seq<Event>>
    ghost var trace: seq<Event>

    ghost predicate Valid()
      reads this
    {
      Runs(initial, trace) && state == After(initial, trace) && Inv(state)
    }

    constructor (channels: nat, others: seq<seq<Event>>)
      ensures Valid() && initial == Init(channels) && state == initial && dorun && trace == []
    {
      initial := Init(channels);
      state := Init(channels);
      dorun := true;
      this.others := others;
      trace := [];
      new;
      InitInv(channels);
    }

    /** An event happens. */
    method Do(e: Event)
      requires Valid() && Enabled(state, e)
      modifies this`state, this`trace
      ensures Valid() && state == Apply(old(state), e) && trace == old(trace) + [e]
      ensures old(trace) <= trace
      ensures WorkerSteps(trace) == if FromOutside(e) then WorkerSteps(old(trace)) else WorkerSteps(old(trace)) + [e]
    {
      RunsAppend(initial, trace, e);
      StepKeepsInv(state, e);
      WorkerStepsAppend(trace, e);
      trace := trace + [e];
      state := Apply(state, e);
    }

    /** Lets the others run for one batch, if there is one. */
    method LetOthersRun()
      requires Valid()
      modifies this`state, this`trace, this`others
      ensures Valid() && Waited(old(state), state) && WorkerSteps(trace) == WorkerSteps(old(trace))
      ensures old(trace) <= trace
      ensures others == if old(others) == [] then [] else old(others)[1..]
      ensures old(others) == [] ==> state == old(state)
    {
      if others == [] {
        return;
      }
      var batch := others[0];
      others := others[1..];
      for i := 0 to |batch|
        invariant Valid() && Waited(old(state), state) && WorkerSteps(trace) == WorkerSteps(old(trace))
        invariant old(trace) <= trace
        invariant others == old(others)[1..]
      {
        if FromOutside(batch[i]) && Enabled(state, batch[i]) {
          Do(batch[i]);
        }
      }
    }

    /** One step of the worker, after which it may be interrupted. */
    method Step(e: Event)
      requires Valid() && Enabled(state, e) && !FromOutside(e)
      modifies this`state, this`trace, this`others
      ensures Valid() && Waited(Apply(old(state), e), state) && WorkerSteps(trace) == WorkerSteps(old(trace)) + [e]
      ensures old(trace) <= trace
      ensures others == if old(others) == [] then [] else old(others)[1..]
      ensures old(others) == [] ==> state == Apply(old(state), e)
    {
      Do(e);
      LetOthersRun();
    }

    /** `pop`: waits until there is a packet; false when the others have nothing more to do. */
    method WaitForPacket() returns (ready: bool)
      requires Valid() && state.pc.AtPop?
      modifies this`state, this`trace, this`others
      ensures Valid() && Waited(old(state), state) && |others| <= |old(others)|
      ensures old(trace) <= trace
      ensures WorkerSteps(trace) == WorkerSteps(old(trace))
      ensures ready <==> state.queue != []
      ensures !ready ==> others == []
      ensures old(others) == [] ==> state == old(state)
    {
      while state.queue == [] && others != []
        invariant Valid() && Waited(old(state), state) && WorkerSteps(trace) == WorkerSteps(old(trace))
        invariant old(trace) <= trace
        invariant |others| <= |old(others)|
        invariant old(others) == [] ==> state == old(state)
        decreases |others|
      {
        LetOthersRun();
      }
      return state.queue != [];
    }

    /** `receiveFrom`: waits until there is a response; false when the others have nothing more to do. */
    method WaitForResponse() returns (ready: bool)
      requires Valid() && state.pc.AtReceive?
      modifies this`state, this`trace, this`others
      ensures Valid() && Waited(old(state), state) && |others| <= |old(others)|
      ensures old(trace) <= trace
      ensures WorkerSteps(trace) == WorkerSteps(old(trace))
      ensures ready <==> state.line != []
      ensures !ready ==> others == []
      ensures old(others) == [] ==> state == old(state)
    {
      while state.line == [] && others != []
        invariant Valid() && Waited(old(state), state) && WorkerSteps(trace) == WorkerSteps(old(trace))
        invariant old(trace) <= trace
        invariant |others| <= |old(others)|
        invariant old(others) == [] ==> state == old(state)
        decreases |others|
      {
        LetOthersRun();
      }
      return state.line != [];
    }

    /** What is left to do: first what others do, then the packets and responses that are there. */
    ghost predicate Closer(others: seq<seq<Event>>, s: State)
      reads this
    {
      if others == [] then this.others == [] && |state.queue| + |state.line| < |s.queue| + |s.line|
      else |this.others| < |others|
    }

    /** Pops one packet and writes it; false when it waits for a packet that will not come. */
    method SendOne() returns (sent: bool)
      requires Valid() && state.pc.AtSendTest?
      requires (state.queue != [] && state.inProgress < WINDOW) || state.inProgress == 0
      modifies this`state, this`trace, this`others
      ensures Valid()
      ensures old(trace) <= trace
      ensures sent ==> state.pc.AtSendTest? && Closer(old(others), old(state))
      ensures WorkerSteps(trace) == WorkerSteps(old(trace)) + (if sent then [SendTest, Pop, Write] else [SendTest])
      ensures !sent ==> others == [] && state.pc.AtPop? && state.queue == [] && state.inProgress == 0
    {
      hide WorkerSteps;
      hide LineInv;
      hide ChannelInv;
      hide Runs;
      hide After;
      Step(SendTest);
      var ready := WaitForPacket();
      if !ready {
        assert WorkerInv(state);
        return false;
      }
      Step(Pop);
      Step(Write);
      return true;
    }

    /** Receives one response and hands it on; without a response the worker gives up. */
    method ReceiveOne() returns (received: bool)
      requires Valid() && state.pc.AtReceive?
      modifies this`state, this`trace, this`others, this`dorun
      ensures Valid()
      ensures old(trace) <= trace
      ensures received ==> state.pc.AtReceiveTest? && Closer(old(others), old(state))
      ensures dorun == (old(dorun) && received)
      ensures WorkerSteps(trace) == WorkerSteps(old(trace)) + [if received then Receive else Quit]
      ensures !received ==> others == [] && state.pc.Stopped? && state.line == [] && state.chip != []
    {
      hide WorkerSteps;
      hide ChannelInv;
      hide Runs;
      hide After;
      var ready := WaitForResponse();
      if !ready {
        assert WorkerInv(state);
        Do(Quit);
        dorun := false;
        return false;
      }
      assert LineInv(state);
      Step(Receive);
      return true;
    }

    /** The thread: fill the window, then take responses until it can be filled further. */
    method Run()
      requires Valid() && state.pc.AtSendTest?
      modifies this`state, this`trace, this`others, this`dorun
      ensures Valid()
      ensures old(trace) <= trace
      ensures dorun ==> others == [] && state.pc.AtPop? && state.queue == [] && state.inProgress == 0
      ensures old(dorun) && !dorun ==> others == [] && state.pc.Stopped? && state.line == [] && state.chip != []
    {
      hide WorkerSteps;
      hide Inv;
      hide WorkerInv;
      hide LineInv;
      hide ChannelInv;
      hide Runs;
      hide After;
      while dorun
        invariant Valid() && state.pc.AtSendTest? && dorun == old(dorun)
        invariant old(trace) <= trace
        decreases |others|, |state.queue| + |state.line|
      {
        ghost var othersBefore, stateBefore := others, state;
        while (state.queue != [] && state.inProgress < WINDOW) || state.inProgress == 0
          invariant Valid() && state.pc.AtSendTest? && dorun
          invariant old(trace) <= trace
          invariant (others == othersBefore && state == stateBefore) || Closer(othersBefore, stateBefore)
          decreases |others|, |state.queue| + |state.line|
        {
          var sent := SendOne();
          if !sent {
            return;
          }
        }
        Step(SendTest);
        while true
          invariant Valid() && state.pc.AtReceive? && dorun
          invariant old(trace) <= trace
          invariant (others == othersBefore == [] && |state.queue| + |state.line| == |stateBefore.queue| + |stateBefore.line|)
                 || Closer(othersBefore, stateBefore)
          decreases |others|, |state.queue| + |state.line|
        {
          var received := ReceiveOne();
          if !received {
            return;
          }
          var again := state.inProgress > 0 && state.queue == [];
          Step(ReceiveTest);
          if !again {
            break;
          }
        }
      }
    }
  }
}
