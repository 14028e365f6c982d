/**
 The request pipeline as a transition system: any number of producers, the device queue, the worker with its
 window of unanswered packets, the chip, and one bounded queue per channel with its reader.
 */
module Pipeline {
  import opened Bytes
  import Queue

  const WINDOW: nat := 3
  const DEVICE_QUEUE: nat := 10
  const CHANNEL_QUEUE: nat := 10
  const SIZE_MAX: nat := 0xFFFF_FFFF_FFFF_FFFF

  /** A packet written for a channel; `control` ones set the channel up, the others carry data. */
  datatype Request = Request(id: nat, channel: nat, control: bool)

  /** The answer to a request; chips with a single channel may leave the channel field out. */
  datatype Response = Response(request: Request, tagged: bool)

  /** Where the worker is: before the send condition, in `pop`, before the write, in `receiveFrom`, after a response. */
  datatype Pc = AtSendTest | AtPop | AtWrite | AtReceive | AtReceiveTest | Stopped

  /**
   A channel: its output queue while it has one, and what its reader took out since `reserve`.
   `answeredBefore` and `acceptedBefore` count its answered and accepted requests at that time.
   */
  datatype Channel = Channel(queue: Option<seq<Request>>, popped: seq<Request>, answeredBefore: nat, acceptedBefore: nat)

  /** `accepted`, `written` and `received` are the histories of pushes, writes and responses. */
  datatype State = State(
    pc: Pc, queue: seq<Request>, hand: Option<Request>, inProgress: nat, chip: seq<Request>, line: seq<Response>,
    channels: seq<Channel>, accepted: seq<Request>, written: seq<Request>, received: seq<Request>)

  /** `Quit` is the worker giving up, `Answer` is the chip's step, the last four are the clients'. */
  datatype Event =
    | SendTest | Pop | Write | Receive | ReceiveTest | Quit
    | Answer(position: nat, tagged: bool)
    | Push(request: Request) | Read(channel: nat) | Reserve(channel: nat) | Release(channel: nat)

  function Of(c: nat, rs: seq<Request>): seq<Request> {
    if rs == [] then []
    else if rs[0].channel == c then [rs[0]] + Of(c, rs[1..])
    else Of(c, rs[1..])
  }

  function Data(rs: seq<Request>): seq<Request> {
    if rs == [] then []
    else if rs[0].control then Data(rs[1..])
    else [rs[0]] + Data(rs[1..])
  }

  function Requests(line: seq<Response>): (rs: seq<Request>)
    ensures |rs| == |line|
  {
    seq(|line|, i requires 0 <= i < |line| => line[i].request)
  }

  function Held(hand: Option<Request>): seq<Request> {
    match hand case None => [] case Some(r) => [r]
  }

  /** The channel a response is routed to. */
  function Target(r: Response): nat { if r.tagged then r.request.channel else 0 }

  /** A size_t that goes below zero wraps around. */
  function Decremented(n: nat): nat { if n == 0 then SIZE_MAX else n - 1 }

  /** `receive` of a data packet: dropped without a queue; a full queue is shut down. */
  function Offer(queue: Option<seq<Request>>, r: Request): Option<seq<Request>> {
    match queue
    case None => None
    case Some(q) =>
      var (after, outcome) := Queue.PushPass(Queue.QueueState(q, CHANNEL_QUEUE, true), r, false);
      if outcome.Refused? then None else Some(after.items)
  }

  function Route(channels: seq<Channel>, r: Response): (routed: seq<Channel>)
    requires Target(r) < |channels|
    ensures |routed| == |channels|
  {
    if r.request.control then channels
    else
      var c := Target(r);
      channels[c := channels[c].(queue := Offer(channels[c].queue, r.request))]
  }

  /** The device queue while the device exists. */
  function DeviceQueue(s: State): Queue.QueueState<Request> {
    Queue.QueueState(s.queue, DEVICE_QUEUE, true)
  }

  predicate Enabled(s: State, e: Event) {
    match e
    case SendTest => s.pc.AtSendTest?
    case Pop => s.pc.AtPop? && Queue.PopPass(DeviceQueue(s)).1.Taken?
    case Write => s.pc.AtWrite? && s.hand.Some?
    case Receive => s.pc.AtReceive? && s.line != [] && Target(s.line[0]) < |s.channels|
    case ReceiveTest => s.pc.AtReceiveTest?
    case Quit => true
    case Answer(i, tagged) =>
      && i < |s.chip| && (tagged || |s.channels| == 1)
      && s.chip[i].channel !in (set j | 0 <= j < i :: s.chip[j].channel)
    case Push(r) => r.channel < |s.channels| && Queue.PushPass(DeviceQueue(s), r, true).1.Stored?
    case Read(c) => c < |s.channels| && s.channels[c].queue.Some? && s.channels[c].queue.value != []
    case Reserve(c) => c < |s.channels|
    case Release(c) => c < |s.channels|
  }

  function Apply(s: State, e: Event): State
    requires Enabled(s, e)
  {
    match e
    case SendTest =>
      s.(pc := if (s.queue != [] && s.inProgress < WINDOW) || s.inProgress == 0 then AtPop else AtReceive)
    case Pop =>
      var (after, outcome) := Queue.PopPass(DeviceQueue(s));
      s.(pc := AtWrite, hand := Some(outcome.value), queue := after.items)
    case Write =>
      var r := s.hand.value;
      s.(pc := AtSendTest, hand := None, inProgress := s.inProgress + 1, chip := s.chip + [r], written := s.written + [r])
    case Receive =>
      s.(pc := AtReceiveTest, inProgress := Decremented(s.inProgress), line := s.line[1..],
         received := s.received + [s.line[0].request], channels := Route(s.channels, s.line[0]))
    case ReceiveTest => s.(pc := if s.inProgress > 0 && s.queue == [] then AtReceive else AtSendTest)
    case Quit => s.(pc := Stopped)
    case Answer(i, tagged) =>
      s.(chip := s.chip[..i] + s.chip[i + 1..], line := s.line + [Response(s.chip[i], tagged)])
    case Push(r) => s.(queue := Queue.PushPass(DeviceQueue(s), r, true).0.items, accepted := s.accepted + [r])
    case Read(c) =>
      var ch := s.channels[c];
      s.(channels := s.channels[c := ch.(queue := Some(ch.queue.value[1..]), popped := ch.popped + [ch.queue.value[0]])])
    case Reserve(c) =>
      s.(channels := s.channels[c := Channel(Some([]), [], |Of(c, s.received)|, |Of(c, s.accepted)|)])
    case Release(c) => s.(channels := s.channels[c := s.channels[c].(queue := None)])
  }

  function Init(channels: nat): State {
    State(AtSendTest, [], None, 0, [], [], seq(channels, _ => Channel(None, [], 0, 0)), [], [], [])
  }

  predicate Runs(s: State, events: seq<Event>)
    decreases |events|
  {
    events == [] || (Enabled(s, events[0]) && Runs(Apply(s, events[0]), events[1..]))
  }

  function After(s: State, events: seq<Event>): State
    requires Runs(s, events)
    decreases |events|
  {
    if events == [] then s else After(Apply(s, events[0]), events[1..])
  }

  lemma {:induction false} RunsAppend(s: State, events: seq<Event>, e: Event)
    requires Runs(s, events) && Enabled(After(s, events), e)
    ensures Runs(s, events + [e]) && After(s, events + [e]) == Apply(After(s, events), e)
    decreases |events|
  {
    if events == [] {
      assert [e][1..] == [];
      assert Runs(Apply(s, e), []);
    } else {
      assert (events + [e])[1..] == events[1..] + [e];
      RunsAppend(Apply(s, events[0]), events[1..], e);
    }
  }

  // ---------------------------------------------------------------------------
  // Sequences

  lemma {:induction false} OfConcat(c: nat, a: seq<Request>, b: seq<Request>)
    ensures Of(c, a + b) == Of(c, a) + Of(c, b)
  {
    if a == [] {
      assert a + b == b;
    } else {
      assert (a + b)[1..] == a[1..] + b;
      OfConcat(c, a[1..], b);
    }
  }

  lemma OfOne(c: nat, r: Request)
    ensures Of(c, [r]) == if r.channel == c then [r] else []
  {
    assert [r][1..] == [];
  }

  lemma {:induction false} OfOther(c: nat, a: seq<Request>)
    requires forall i :: 0 <= i < |a| ==> a[i].channel != c
    ensures Of(c, a) == []
  {
    if a != [] {
      OfOther(c, a[1..]);
    }
  }

  lemma {:induction false} DataConcat(a: seq<Request>, b: seq<Request>)
    ensures Data(a + b) == Data(a) + Data(b)
  {
    if a == [] {
      assert a + b == b;
    } else {
      assert (a + b)[1..] == a[1..] + b;
      DataConcat(a[1..], b);
    }
  }

  lemma DataOne(r: Request)
    ensures Data([r]) == if r.control then [] else [r]
  {
    assert [r][1..] == [];
  }

  // ---------------------------------------------------------------------------
  // What every run keeps

  /** The packets on their way for channel `c`, the one to be answered next first. */
  function InFlight(s: State, c: nat): seq<Request> {
    Of(c, Requests(s.line)) + Of(c, s.chip) + Of(c, Held(s.hand)) + Of(c, s.queue)
  }

  /** Window, conservation of packets, and what the worker's position says. */
  ghost predicate WorkerInv(s: State) {
    && |s.queue| <= DEVICE_QUEUE
    && s.written + Held(s.hand) + s.queue == s.accepted
    && s.inProgress == |s.chip| + |s.line| <= WINDOW
    && |s.written| == |s.received| + s.inProgress
    && (s.hand.Some? ==> s.pc.AtWrite? || s.pc.Stopped?)
    && (s.pc.AtPop? ==> s.inProgress < WINDOW && (s.queue != [] || s.inProgress == 0))
    && (s.pc.AtWrite? ==> s.inProgress < WINDOW && s.hand.Some?)
    && (s.pc.AtReceive? ==> s.inProgress > 0)
    && (s.pc.AtReceiveTest? ==> s.inProgress < WINDOW)
  }

  /** Answers carry the number of an existing channel, or none when there is just one. */
  ghost predicate LineInv(s: State) {
    && (forall i :: 0 <= i < |s.line| ==> s.line[i].request.channel < |s.channels|)
    && (forall i :: 0 <= i < |s.line| ==> s.line[i].tagged || |s.channels| == 1)
    && (forall i :: 0 <= i < |s.chip| ==> s.chip[i].channel < |s.channels|)
    && (forall i :: 0 <= i < |s.queue| ==> s.queue[i].channel < |s.channels|)
    && (s.hand.Some? ==> s.hand.value.channel < |s.channels|)
  }

  /** The data requests answered since `reserve`, out of all those answered. */
  function Since(ch: Channel, answered: seq<Request>): seq<Request> {
    if ch.answeredBefore <= |answered| then Data(answered[ch.answeredBefore..]) else []
  }

  function Answered(s: State, c: nat): seq<Request>
    requires c < |s.channels|
  {
    Since(s.channels[c], Of(c, s.received))
  }

  /**
   The accounts of one channel: its answered requests and those under way are the accepted ones, and its reader
   has, in order, what was answered since `reserve`, except for what is left in the queue or was shut out of it.
   */
  ghost predicate Accounts(ch: Channel, answered: seq<Request>, inFlight: seq<Request>, accepted: seq<Request>) {
    && answered + inFlight == accepted
    && ch.answeredBefore <= |answered| && ch.answeredBefore <= ch.acceptedBefore <= |accepted|
    && ch.popped <= Since(ch, answered)
    && (ch.queue.Some? ==> ch.popped + ch.queue.value == Since(ch, answered) && |ch.queue.value| <= CHANNEL_QUEUE)
  }

  /** Channel `c` gets its packets answered in order, and its reader gets the answers in that order. */
  ghost predicate ChannelInv(s: State, c: nat)
    requires c < |s.channels|
  {
    Accounts(s.channels[c], Of(c, s.received), InFlight(s, c), Of(c, s.accepted))
  }

  ghost predicate Inv(s: State) {
    WorkerInv(s) && LineInv(s) && forall c: nat | c < |s.channels| :: ChannelInv(s, c)
  }

  lemma InitInv(channels: nat)
    ensures Inv(Init(channels))
  {
  }

  lemma PopKeepsWorkerInv(s: State)
    requires WorkerInv(s) && Enabled(s, Pop)
    ensures WorkerInv(Apply(s, Pop))
  {
    assert s.queue == [s.queue[0]] + s.queue[1..];
  }

  lemma WriteKeepsWorkerInv(s: State)
    requires WorkerInv(s) && Enabled(s, Write)
    ensures WorkerInv(Apply(s, Write))
  {
  }

  lemma ReceiveKeepsWorkerInv(s: State)
    requires WorkerInv(s) && Enabled(s, Receive)
    ensures WorkerInv(Apply(s, Receive))
  {
    hide Route;
  }

  lemma PushKeepsWorkerInv(s: State, r: Request)
    requires WorkerInv(s) && Enabled(s, Push(r))
    ensures WorkerInv(Apply(s, Push(r)))
  {
    assert s.written + Held(s.hand) + (s.queue + [r]) == (s.written + Held(s.hand) + s.queue) + [r];
  }

  lemma AnswerKeepsWorkerInv(s: State, i: nat, tagged: bool)
    requires WorkerInv(s) && Enabled(s, Answer(i, tagged))
    ensures WorkerInv(Apply(s, Answer(i, tagged)))
  {
    assert |s.chip[..i] + s.chip[i + 1..]| == |s.chip| - 1;
  }

  lemma StepKeepsWorkerInv(s: State, e: Event)
    requires WorkerInv(s) && Enabled(s, e)
    ensures WorkerInv(Apply(s, e)) && |Apply(s, e).channels| == |s.channels|
  {
    hide Route;
    hide Offer;
    hide Of;
    match e {
      case Pop =>
        PopKeepsWorkerInv(s);
        hide WorkerInv;
      case Write =>
        WriteKeepsWorkerInv(s);
        hide WorkerInv;
      case Receive =>
        ReceiveKeepsWorkerInv(s);
        hide WorkerInv;
      case Push(r) =>
        PushKeepsWorkerInv(s, r);
        hide WorkerInv;
      case Answer(i, tagged) =>
        AnswerKeepsWorkerInv(s, i, tagged);
        hide WorkerInv;
      case _ =>
    }
  }

  lemma StepKeepsLineInv(s: State, e: Event)
    requires LineInv(s) && Enabled(s, e)
    ensures LineInv(Apply(s, e))
  {
    hide Route;
    hide Offer;
    hide Of;
    hide Decremented;
  }

  lemma PopKeepsInFlight(s: State, c: nat)
    requires Enabled(s, Pop) && s.hand.None?
    ensures InFlight(Apply(s, Pop), c) == InFlight(s, c)
  {
    assert s.queue == [s.queue[0]] + s.queue[1..];
    OfConcat(c, [s.queue[0]], s.queue[1..]);
  }

  lemma WriteKeepsInFlight(s: State, c: nat)
    requires Enabled(s, Write)
    ensures InFlight(Apply(s, Write), c) == InFlight(s, c)
  {
    OfConcat(c, s.chip, [s.hand.value]);
  }

  /** The chip answers each channel in order, so its reordering across channels shows in none of them. */
  lemma AnswerKeepsInFlight(s: State, i: nat, tagged: bool, c: nat)
    requires Enabled(s, Answer(i, tagged))
    ensures InFlight(Apply(s, Answer(i, tagged)), c) == InFlight(s, c)
  {
    var r, before, after := s.chip[i], s.chip[..i], s.chip[i + 1..];
    var line := Requests(s.line);
    assert s.chip == before + ([r] + after);
    assert Requests(Apply(s, Answer(i, tagged)).line) == line + [r];
    if r.channel == c {
      OfOther(c, before);
    }
    OfOne(c, r);
    OfConcat(c, before, [r] + after);
    OfConcat(c, [r], after);
    OfConcat(c, before, after);
    OfConcat(c, line, [r]);
    hide Of;
  }

  lemma ReceiveTakesInFlight(s: State, c: nat)
    requires Enabled(s, Receive)
    ensures var s' := Apply(s, Receive); var mine := Of(c, [s.line[0].request]);
            InFlight(s, c) == mine + InFlight(s', c) && Of(c, s'.received) == Of(c, s.received) + mine
  {
    var r := s.line[0].request;
    assert Requests(s.line) == [r] + Requests(s.line[1..]);
    OfConcat(c, [r], Requests(s.line[1..]));
    OfConcat(c, s.received, [r]);
    hide Of;
  }

  lemma PushAddsInFlight(s: State, r: Request, c: nat)
    requires Enabled(s, Push(r))
    ensures var s' := Apply(s, Push(r)); var mine := Of(c, [r]);
            InFlight(s', c) == InFlight(s, c) + mine && Of(c, s'.accepted) == Of(c, s.accepted) + mine
  {
    OfConcat(c, s.queue, [r]);
    OfConcat(c, s.accepted, [r]);
    hide Of;
  }

  /** What one event does to the traffic of channel `c`: at most one more accepted or one more answered packet. */
  lemma StepOfChannel(s: State, e: Event, c: nat)
    requires WorkerInv(s) && Enabled(s, e)
    ensures var s' := Apply(s, e);
            var pushed := if e.Push? then Of(c, [e.request]) else [];
            var taken := if e.Receive? then Of(c, [s.line[0].request]) else [];
            && InFlight(s, c) + pushed == taken + InFlight(s', c)
            && Of(c, s'.accepted) == Of(c, s.accepted) + pushed
            && Of(c, s'.received) == Of(c, s.received) + taken
  {
    match e {
      case Pop => PopKeepsInFlight(s, c);
      case Write => WriteKeepsInFlight(s, c);
      case Receive => ReceiveTakesInFlight(s, c);
      case Answer(i, tagged) => AnswerKeepsInFlight(s, i, tagged, c);
      case Push(r) => PushAddsInFlight(s, r, c);
      case _ =>
    }
  }

  function Routed(ch: Channel, r: Request, c: nat): Channel {
    if r.channel == c && !r.control then ch.(queue := Offer(ch.queue, r)) else ch
  }

  /** A response for channel `c` goes to channel `c`, if it carries data; one for another channel does not. */
  lemma RoutedToItsChannel(s: State, c: nat)
    requires LineInv(s) && Enabled(s, Receive) && c < |s.channels|
    ensures Apply(s, Receive).channels[c] == Routed(s.channels[c], s.line[0].request, c)
  {
  }

  lemma AccountsPushed(ch: Channel, answered: seq<Request>, inFlight: seq<Request>, accepted: seq<Request>, more: seq<Request>)
    requires Accounts(ch, answered, inFlight, accepted)
    ensures Accounts(ch, answered, inFlight + more, accepted + more)
  {
    assert answered + (inFlight + more) == (answered + inFlight) + more;
  }

  lemma AccountsAnswered(ch: Channel, answered: seq<Request>, inFlight: seq<Request>, accepted: seq<Request>, r: Request)
    requires Accounts(ch, answered, [r] + inFlight, accepted)
    ensures Accounts(Routed(ch, r, r.channel), answered + [r], inFlight, accepted)
  {
    var from := ch.answeredBefore;
    assert (answered + [r])[from..] == answered[from..] + [r];
    DataConcat(answered[from..], [r]);
    DataOne(r);
    hide Data;
  }

  lemma AccountsRead(ch: Channel, answered: seq<Request>, inFlight: seq<Request>, accepted: seq<Request>)
    requires Accounts(ch, answered, inFlight, accepted) && ch.queue.Some? && ch.queue.value != []
    ensures Accounts(ch.(queue := Some(ch.queue.value[1..]), popped := ch.popped + [ch.queue.value[0]]), answered, inFlight, accepted)
  {
  }

  lemma AccountsReserved(answered: seq<Request>, inFlight: seq<Request>, accepted: seq<Request>)
    requires answered + inFlight == accepted
    ensures Accounts(Channel(Some([]), [], |answered|, |accepted|), answered, inFlight, accepted)
  {
    assert answered[|answered|..] == [];
  }

  lemma ReceiveKeepsChannelInv(s: State, c: nat)
    requires WorkerInv(s) && LineInv(s) && Enabled(s, Receive) && c < |s.channels| && ChannelInv(s, c)
    ensures c < |Apply(s, Receive).channels| && ChannelInv(Apply(s, Receive), c)
  {
    var s', r, ch := Apply(s, Receive), s.line[0].request, s.channels[c];
    StepOfChannel(s, Receive, c);
    RoutedToItsChannel(s, c);
    OfOne(c, r);
    assert |s'.channels| == |s.channels|;
    hide Of;
    hide InFlight;
    hide Apply;
    assert InFlight(s, c) + [] == InFlight(s, c);
    if r.channel == c {
      AccountsAnswered(ch, Of(c, s.received), InFlight(s', c), Of(c, s.accepted), r);
    } else {
      assert [] + InFlight(s', c) == InFlight(s', c) && Of(c, s.received) + [] == Of(c, s.received);
    }
    hide Accounts;
  }

  /** What events other than answers do to channel `c`. */
  lemma OtherStepOfChannel(s: State, e: Event, c: nat)
    requires Enabled(s, e) && !e.Receive? && c < |s.channels|
    ensures var s', ch := Apply(s, e), s.channels[c];
            && c < |s'.channels|
            && s'.channels[c] == match e
                                 case Read(d) => (if d == c then
                                     ch.(queue := Some(ch.queue.value[1..]), popped := ch.popped + [ch.queue.value[0]]) else ch)
                                 case Reserve(d) => (if d == c then
                                     Channel(Some([]), [], |Of(c, s.received)|, |Of(c, s.accepted)|) else ch)
                                 case Release(d) => (if d == c then ch.(queue := None) else ch)
                                 case _ => ch
  {
  }

  lemma StepKeepsChannelInv(s: State, e: Event, c: nat)
    requires WorkerInv(s) && LineInv(s) && Enabled(s, e) && c < |s.channels| && ChannelInv(s, c)
    ensures c < |Apply(s, e).channels| && ChannelInv(Apply(s, e), c)
  {
    if e.Receive? {
      ReceiveKeepsChannelInv(s, c);
    } else {
      var s', ch := Apply(s, e), s.channels[c];
      var answered, inFlight, accepted := Of(c, s.received), InFlight(s, c), Of(c, s.accepted);
      var more := if e.Push? then Of(c, [e.request]) else [];
      StepOfChannel(s, e, c);
      OtherStepOfChannel(s, e, c);
      assert e == Read(c) ==> ch.queue.Some? && ch.queue.value != [];
      hide Of;
      hide InFlight;
      hide Apply;
      hide Enabled;
      hide WorkerInv;
      hide LineInv;
      assert [] + InFlight(s', c) == InFlight(s', c) && answered + [] == answered && accepted + [] == accepted;
      AccountsPushed(ch, answered, inFlight, accepted, more);
      if e == Read(c) {
        AccountsRead(ch, answered, InFlight(s', c), Of(c, s'.accepted));
      } else if e == Reserve(c) {
        AccountsReserved(answered, InFlight(s', c), Of(c, s'.accepted));
      }
    }
  }

  lemma StepKeepsInv(s: State, e: Event)
    requires Inv(s) && Enabled(s, e)
    ensures Inv(Apply(s, e)) && |Apply(s, e).channels| == |s.channels|
  {
    StepKeepsWorkerInv(s, e);
    StepKeepsLineInv(s, e);
    forall c: nat | c < |s.channels| ensures ChannelInv(Apply(s, e), c) {
      StepKeepsChannelInv(s, e, c);
    }
  }

  lemma {:induction false} RunKeepsInv(s: State, events: seq<Event>)
    requires Inv(s) && Runs(s, events)
    ensures Inv(After(s, events)) && |After(s, events).channels| == |s.channels|
    decreases |events|
  {
    if events != [] {
      StepKeepsInv(s, events[0]);
      RunKeepsInv(Apply(s, events[0]), events[1..]);
    }
  }

  // ---------------------------------------------------------------------------
  // The claims

  /** Over every run: at most three packets are unanswered, the counter is exact, and no packet is lost or reordered. */
  lemma WindowIsSafe(channels: nat, events: seq<Event>)
    requires Runs(Init(channels), events)
    ensures var s := After(Init(channels), events);
            && 0 <= s.inProgress <= 3 && |s.written| == |s.received| + s.inProgress
            && s.written + Held(s.hand) + s.queue == s.accepted
            && (Enabled(s, Receive) ==> s.inProgress >= 1)
  {
    InitInv(channels);
    RunKeepsInv(Init(channels), events);
  }

  /** The worker blocks in `pop` only while nothing is owed, and in `receiveFrom` only while something is. */
  lemma NoWrongBlocking(channels: nat, events: seq<Event>)
    requires Runs(Init(channels), events)
    ensures var s := After(Init(channels), events);
            && (s.pc.AtPop? && s.queue == [] ==> s.chip == [] && s.line == [])
            && (s.pc.AtReceive? ==> s.chip != [] || s.line != [])
  {
    InitInv(channels);
    RunKeepsInv(Init(channels), events);
  }

  /** Unless it has stopped or is idle with nothing to do, the worker can go on or the chip can answer. */
  lemma PipelineNeverStuck(channels: nat, events: seq<Event>)
    requires Runs(Init(channels), events)
    ensures var s := After(Init(channels), events);
            || s.pc.Stopped? || (s.pc.AtPop? && s.queue == [] && s.written == s.accepted && |s.received| == |s.written|)
            || Enabled(s, SendTest) || Enabled(s, Pop) || Enabled(s, Write) || Enabled(s, Receive)
            || Enabled(s, ReceiveTest) || Enabled(s, Answer(0, true))
  {
    InitInv(channels);
    RunKeepsInv(Init(channels), events);
  }

  /** How many more responses may arrive before the request number `p` is written. */
  function Credit(s: State, p: nat): nat
    requires |s.written| <= p
  {
    var ahead := p - |s.written|;
    match s.pc
    case AtReceive => ahead + 1
    case AtSendTest => if s.inProgress < WINDOW then ahead else ahead + 1
    case Stopped => 0
    case _ => ahead
  }

  lemma StepSpendsCredit(s: State, e: Event, p: nat)
    requires WorkerInv(s) && Enabled(s, e) && |s.written| <= p < |s.accepted|
    requires |Apply(s, e).written| <= p
    ensures |Apply(s, e).received| + Credit(Apply(s, e), p) <= |s.received| + Credit(s, p)
  {
    if e.ReceiveTest? || e.SendTest? {
      assert |s.accepted| == |s.written| + |Held(s.hand)| + |s.queue|;
    }
  }

  lemma {:induction false} RunSpendsCredit(s: State, events: seq<Event>, p: nat)
    requires Inv(s) && Runs(s, events) && |s.written| <= p < |s.accepted|
    requires |After(s, events).written| <= p
    ensures |After(s, events).received| + Credit(After(s, events), p) <= |s.received| + Credit(s, p)
    decreases |events|
  {
    if events != [] {
      var next := Apply(s, events[0]);
      StepKeepsInv(s, events[0]);
      WrittenGrows(next, events[1..]);
      StepSpendsCredit(s, events[0], p);
      RunSpendsCredit(next, events[1..], p);
    }
  }

  lemma {:induction false} WrittenGrows(s: State, events: seq<Event>)
    requires Runs(s, events)
    ensures |s.written| <= |After(s, events).written|
    decreases |events|
  {
    if events != [] {
      WrittenGrows(Apply(s, events[0]), events[1..]);
    }
  }

  /**
   A packet with `k` others ahead of it in the device queue is written after at most `k + 1` further responses,
   whatever else is pushed: until it is written no more arrive, and after that many the worker does not wait for
   another one first.
   */
  lemma BoundedWait(s: State, events: seq<Event>, k: nat)
    requires Inv(s) && Runs(s, events) && k < |s.queue|
    ensures var s' := After(s, events); var p := |s.written| + |Held(s.hand)| + k;
            && s.accepted[p] == s.queue[k]
            && (|s'.written| > p || |s'.received| <= |s.received| + k + 1)
            && (|s'.received| >= |s.received| + k + 1 && s'.pc.AtReceive? ==> |s'.written| > p)
  {
    var p := |s.written| + |Held(s.hand)| + k;
    assert WorkerInv(s);
    if |After(s, events).written| <= p {
      RunSpendsCredit(s, events, p);
    }
    hide Inv;
    hide Runs;
    hide After;
  }

  /**
   Over every run: what the reader of a channel took out since `reserve` is a prefix of the data requests of that
   channel answered since then, in the order they were accepted; with what waits in the queue it is all of them.
   A shut-down queue leaves the prefix. If no data of the channel was under way at `reserve`, these are requests
   accepted since.
   */
  lemma PerChannelFifo(channels: nat, events: seq<Event>, c: nat)
    requires Runs(Init(channels), events) && c < channels
    ensures var s := After(Init(channels), events);
            && |s.channels| == channels
            && var ch := s.channels[c]; var mine := Of(c, s.accepted);
               && ch.answeredBefore <= ch.acceptedBefore <= |mine|
               && ch.popped <= Answered(s, c) <= Data(mine[ch.answeredBefore..])
               && (ch.queue.Some? ==> ch.popped + ch.queue.value == Answered(s, c))
               && (Data(mine[ch.answeredBefore..ch.acceptedBefore]) == [] ==> OwnOnly(s, c))
  {
    InitInv(channels);
    RunKeepsInv(Init(channels), events);
    var s := After(Init(channels), events);
    assert ChannelInv(s, c);
    AnsweredIsPrefix(s, c);
    if Data(Of(c, s.accepted)[s.channels[c].answeredBefore..s.channels[c].acceptedBefore]) == [] {
      NoStaleDataNoStaleRead(s, c);
    }
  }

  /** The answered requests are the first of the accepted ones. */
  lemma AnsweredIsPrefix(s: State, c: nat)
    requires c < |s.channels| && ChannelInv(s, c)
    ensures s.channels[c].answeredBefore <= |Of(c, s.accepted)|
    ensures Answered(s, c) <= Data(Of(c, s.accepted)[s.channels[c].answeredBefore..])
  {
    hide Of;
    hide InFlight;
    hide Data;
    var all, from := Of(c, s.received), s.channels[c].answeredBefore;
    assert Of(c, s.accepted)[from..] == all[from..] + InFlight(s, c);
    DataConcat(all[from..], InFlight(s, c));
  }

  // ---------------------------------------------------------------------------
  // Sessions: whose data a reader gets

  /** What the reader of channel `c` took out is a prefix of the data accepted since `reserve`. */
  ghost predicate OwnOnly(s: State, c: nat) {
    && c < |s.channels| && s.channels[c].acceptedBefore <= |Of(c, s.accepted)|
    && s.channels[c].popped <= Data(Of(c, s.accepted)[s.channels[c].acceptedBefore..])
  }

  lemma NoStaleDataNoStaleRead(s: State, c: nat)
    requires c < |s.channels| && ChannelInv(s, c)
    requires Data(Of(c, s.accepted)[s.channels[c].answeredBefore..s.channels[c].acceptedBefore]) == []
    ensures OwnOnly(s, c)
  {
    AnsweredIsPrefix(s, c);
    hide Of;
    hide InFlight;
    hide Data;
    var mine, from, to := Of(c, s.accepted), s.channels[c].answeredBefore, s.channels[c].acceptedBefore;
    assert mine[from..] == mine[from..to] + mine[to..];
    DataConcat(mine[from..to], mine[to..]);
  }

  /** At `reserve` the two counts of a channel enclose exactly the packets under way. */
  lemma ReserveMarksInFlight(s: State, c: nat)
    requires Inv(s) && c < |s.channels|
    ensures var s1 := Apply(s, Reserve(c)); var ch := s1.channels[c];
            && ch.answeredBefore <= ch.acceptedBefore == |Of(c, s1.accepted)|
            && Of(c, s1.accepted)[ch.answeredBefore..ch.acceptedBefore] == InFlight(s, c)
  {
    assert ChannelInv(s, c);
  }

  predicate KeepsSession(events: seq<Event>, c: nat) {
    forall i :: 0 <= i < |events| ==> events[i] != Reserve(c)
  }

  /** Until the next `reserve` the counts stay, and the accepted requests only grow. */
  lemma {:induction false} SessionKeepsCounts(s: State, events: seq<Event>, c: nat)
    requires Inv(s) && Runs(s, events) && c < |s.channels| && KeepsSession(events, c)
    ensures var t := After(s, events);
            && |t.channels| == |s.channels|
            && t.channels[c].answeredBefore == s.channels[c].answeredBefore
            && t.channels[c].acceptedBefore == s.channels[c].acceptedBefore
            && Of(c, s.accepted) <= Of(c, t.accepted)
    decreases |events|
  {
    if events != [] {
      var e, next := events[0], Apply(s, events[0]);
      StepKeepsInv(s, e);
      StepOfChannel(s, e, c);
      assert e != Reserve(c);
      assert next.channels[c].(queue := None, popped := []) == s.channels[c].(queue := None, popped := []);
      hide Of;
      hide Apply;
      assert KeepsSession(events[1..], c);
      SessionKeepsCounts(next, events[1..], c);
    }
  }

  /** The step the worker takes next, or the chip while the worker waits for an answer. */
  function NextStep(s: State): Event {
    match s.pc
    case AtSendTest => SendTest
    case AtPop => Pop
    case AtWrite => Write
    case AtReceive => if s.line != [] then Receive else Answer(0, true)
    case AtReceiveTest => ReceiveTest
    case Stopped => Quit
  }

  /** How far the packets under way are from being received. */
  function Distance(s: State): nat {
    4 * |s.queue| + 3 * |Held(s.hand)| + 2 * |s.chip| + |s.line|
  }

  function Tests(pc: Pc): nat {
    match pc case AtReceiveTest => 2 case AtSendTest => 1 case _ => 0
  }

  /** Channel `c` has an empty queue, nothing was read from it, and data for it is under way. */
  ghost predicate Awaits(s: State, c: nat) {
    && Inv(s) && c < |s.channels| && !s.pc.Stopped?
    && s.channels[c].queue == Some([]) && s.channels[c].popped == []
    && Data(InFlight(s, c)) != []
  }

  /** The next step can be taken, and brings the packets under way closer to their readers. */
  lemma NextStepIsEnabled(s: State, c: nat)
    requires Awaits(s, c)
    ensures var e := NextStep(s);
            && Enabled(s, e) && !Apply(s, e).pc.Stopped? && Apply(s, e).accepted == s.accepted
            && (Distance(Apply(s, e)) < Distance(s)
                || (Distance(Apply(s, e)) == Distance(s) && Tests(Apply(s, e).pc) < Tests(s.pc)))
  {
    assert s.pc.AtPop? ==> s.queue != [] || InFlight(s, c) == [];
    hide InFlight;
  }

  /** A step other than the receipt of data for channel `c` leaves everything under way for it as it is. */
  lemma OtherStepStillAwaits(s: State, c: nat)
    requires Awaits(s, c)
    requires NextStep(s).Receive? ==> s.line[0].request.channel != c || s.line[0].request.control
    ensures Enabled(s, NextStep(s)) && Awaits(Apply(s, NextStep(s)), c)
    ensures Data(InFlight(Apply(s, NextStep(s)), c)) == Data(InFlight(s, c))
    ensures Apply(s, NextStep(s)).channels[c] == s.channels[c]
  {
    var e := NextStep(s);
    var s' := Apply(s, e);
    NextStepIsEnabled(s, c);
    StepKeepsInv(s, e);
    OtherStepKeepsChannel(s, c);
    assert |s'.channels| == |s.channels|;
    hide Inv;
    hide NextStep;
    hide Apply;
    hide InFlight;
    hide Data;
  }

  lemma OtherStepKeepsChannel(s: State, c: nat)
    requires WorkerInv(s) && LineInv(s) && c < |s.channels| && Enabled(s, NextStep(s))
    requires NextStep(s).Receive? ==> s.line[0].request.channel != c || s.line[0].request.control
    ensures var s' := Apply(s, NextStep(s));
            && c < |s'.channels| && s'.channels[c] == s.channels[c]
            && Data(InFlight(s', c)) == Data(InFlight(s, c))
  {
    var e := NextStep(s);
    var s' := Apply(s, e);
    StepOfChannel(s, e, c);
    if e.Receive? {
      RoutedToItsChannel(s, c);
      OfOne(c, s.line[0].request);
      DataOne(s.line[0].request);
      DataConcat(Of(c, [s.line[0].request]), InFlight(s', c));
      assert InFlight(s, c) + [] == InFlight(s, c);
      assert [] + Data(InFlight(s', c)) == Data(InFlight(s', c));
      hide Data;
    } else {
      assert InFlight(s, c) + [] == InFlight(s, c) && [] + InFlight(s', c) == InFlight(s', c);
    }
    hide Of;
    hide InFlight;
  }

  /** Data received for channel `c` can be read at once. */
  lemma ReceivedDataIsRead(s: State, c: nat)
    requires Awaits(s, c) && s.pc.AtReceive? && s.line != []
    requires s.line[0].request.channel == c && !s.line[0].request.control
    ensures Enabled(s, Receive) && Enabled(Apply(s, Receive), Read(c))
    ensures var t := Apply(Apply(s, Receive), Read(c));
            && t.channels == Apply(s, Receive).channels[c := t.channels[c]] && t.accepted == s.accepted
            && t.channels[c].popped == [Data(InFlight(s, c))[0]]
  {
    var r := s.line[0].request;
    RoutedToItsChannel(s, c);
    ReceiveTakesInFlight(s, c);
    OfOne(c, r);
    DataOne(r);
    DataConcat([r], InFlight(Apply(s, Receive), c));
    assert Offer(Some([]), r) == Some([r]) by {
      assert [] + [r] == [r];
    }
    assert [] + [r] == [r];
    hide Of;
    hide InFlight;
  }

  lemma RunsCons(s: State, e: Event, rest: seq<Event>)
    requires Enabled(s, e) && Runs(Apply(s, e), rest)
    ensures Runs(s, [e] + rest) && After(s, [e] + rest) == After(Apply(s, e), rest)
  {
    assert ([e] + rest)[1..] == rest;
  }

  /** Worker and chip alone bring the first data under way to the reader of the channel. */
  lemma {:induction false} FirstDataIsRead(s: State, c: nat) returns (events: seq<Event>)
    requires Awaits(s, c)
    ensures Runs(s, events) && KeepsSession(events, c)
    ensures var t := After(s, events);
            && c < |t.channels| && t.accepted == s.accepted && t.channels[c].popped == [Data(InFlight(s, c))[0]]
    decreases Distance(s), Tests(s.pc)
  {
    hide InFlight;
    hide Inv;
    var e := NextStep(s);
    NextStepIsEnabled(s, c);
    var next := Apply(s, e);
    if e.Receive? && s.line[0].request.channel == c && !s.line[0].request.control {
      ReceivedDataIsRead(s, c);
      hide Apply;
      RunsCons(next, Read(c), []);
      RunsCons(s, Receive, [Read(c)] + []);
      events := [Receive] + ([Read(c)] + []);
    } else {
      OtherStepStillAwaits(s, c);
      hide Apply;
      var rest := FirstDataIsRead(next, c);
      RunsCons(s, e, rest);
      events := [e] + rest;
    }
  }

  /** With data under way at `reserve`, worker and chip alone lead to the new session reading the first of it. */
  lemma StaleAnswerReachesNextSession(s: State, c: nat) returns (events: seq<Event>)
    requires Inv(s) && c < |s.channels| && !s.pc.Stopped? && Data(InFlight(s, c)) != []
    ensures Runs(Apply(s, Reserve(c)), events) && KeepsSession(events, c)
    ensures var t := After(Apply(s, Reserve(c)), events);
            && c < |t.channels| && t.accepted == s.accepted && t.channels[c].popped == [Data(InFlight(s, c))[0]]
            && !OwnOnly(t, c)
  {
    var s1 := Apply(s, Reserve(c));
    StepKeepsInv(s, Reserve(c));
    StepOfChannel(s, Reserve(c), c);
    assert InFlight(s1, c) == InFlight(s, c);
    events := FirstDataIsRead(s1, c);
    SessionKeepsCounts(s1, events, c);
  }

  /**
   A new session reads nothing but its own data, whatever happens until the next `reserve`, exactly when no data
   of the channel is under way at its `reserve`. Answers to set-up requests under way do no harm.
   */
  lemma SessionReadsOnlyItsOwnIff(s: State, c: nat)
    requires Inv(s) && c < |s.channels| && !s.pc.Stopped?
    ensures (forall events | Runs(Apply(s, Reserve(c)), events) && KeepsSession(events, c) ::
               OwnOnly(After(Apply(s, Reserve(c)), events), c))
       <==> Data(InFlight(s, c)) == []
  {
    var s1 := Apply(s, Reserve(c));
    StepKeepsInv(s, Reserve(c));
    if Data(InFlight(s, c)) == [] {
      forall events | Runs(s1, events) && KeepsSession(events, c) ensures OwnOnly(After(s1, events), c) {
        ReserveMarksInFlight(s, c);
        SessionKeepsCounts(s1, events, c);
        RunKeepsInv(s1, events);
        var t := After(s1, events);
        var from, to := s1.channels[c].answeredBefore, s1.channels[c].acceptedBefore;
        assert ChannelInv(t, c);
        assert Of(c, t.accepted)[from..to] == Of(c, s1.accepted)[from..to];
        NoStaleDataNoStaleRead(t, c);
      }
    } else {
      var events := StaleAnswerReachesNextSession(s, c);
    }
  }

  // ---------------------------------------------------------------------------
  // Refinement: one channel seen alone

  /** A channel alone: the packets under way, the output queue, and what the reader has. */
  datatype Fifo = Fifo(pending: seq<Request>, queue: Option<seq<Request>>, popped: seq<Request>)

  function Project(s: State, c: nat): Fifo
    requires c < |s.channels|
  {
    Fifo(InFlight(s, c), s.channels[c].queue, s.channels[c].popped)
  }

  /** A request is accepted, the first one is answered, the reader takes one, the session starts or ends. */
  datatype FifoEvent = Accept(request: Request) | Respond | Take | Open | Shut

  predicate FifoEnabled(f: Fifo, e: FifoEvent) {
    match e
    case Respond => f.pending != []
    case Take => f.queue.Some? && f.queue.value != []
    case _ => true
  }

  /** The steps of a first-in first-out channel, with no other channel in sight. */
  function FifoApply(f: Fifo, e: FifoEvent): Fifo
    requires FifoEnabled(f, e)
  {
    match e
    case Accept(r) => f.(pending := f.pending + [r])
    case Respond =>
      f.(pending := f.pending[1..], queue := if f.pending[0].control then f.queue else Offer(f.queue, f.pending[0]))
    case Take => f.(queue := Some(f.queue.value[1..]), popped := f.popped + [f.queue.value[0]])
    case Open => f.(queue := Some([]), popped := [])
    case Shut => f.(queue := None)
  }

  predicate FifoRuns(f: Fifo, events: seq<FifoEvent>)
    decreases |events|
  {
    events == [] || (FifoEnabled(f, events[0]) && FifoRuns(FifoApply(f, events[0]), events[1..]))
  }

  function FifoAfter(f: Fifo, events: seq<FifoEvent>): Fifo
    requires FifoRuns(f, events)
    decreases |events|
  {
    if events == [] then f else FifoAfter(FifoApply(f, events[0]), events[1..])
  }

  /** What channel `c` sees of an event: at most one step of its own. */
  function Seen(s: State, e: Event, c: nat): seq<FifoEvent> {
    match e
    case Push(r) => if r.channel == c then [Accept(r)] else []
    case Receive => if s.line != [] && s.line[0].request.channel == c then [Respond] else []
    case Read(d) => if d == c then [Take] else []
    case Reserve(d) => if d == c then [Open] else []
    case Release(d) => if d == c then [Shut] else []
    case _ => []
  }

  function SeenAll(s: State, events: seq<Event>, c: nat): seq<FifoEvent>
    requires Runs(s, events)
    decreases |events|
  {
    if events == [] then [] else Seen(s, events[0], c) + SeenAll(Apply(s, events[0]), events[1..], c)
  }

  /** `f` takes the step seen of an event, if any, and becomes `g`. */
  ghost predicate FollowsTo(f: Fifo, seen: seq<FifoEvent>, g: Fifo) {
    FifoRuns(f, seen) && FifoAfter(f, seen) == g
  }

  lemma OneFifoStep(f: Fifo, e: FifoEvent)
    ensures FifoEnabled(f, e) ==> FollowsTo(f, [e], FifoApply(f, e))
  {
    assert [e][1..] == [];
    if FifoEnabled(f, e) {
      assert FifoRuns(FifoApply(f, e), []);
    }
  }

  lemma PushRefinesFifo(s: State, r: Request, c: nat)
    requires Enabled(s, Push(r)) && c < |s.channels|
    ensures FollowsTo(Project(s, c), Seen(s, Push(r), c), Project(Apply(s, Push(r)), c))
  {
    PushAddsInFlight(s, r, c);
    OfOne(c, r);
    OneFifoStep(Project(s, c), Accept(r));
    hide Of;
    hide InFlight;
    var f := Project(s, c);
    assert f.pending + [] == f.pending;
  }

  lemma ReceiveRefinesFifo(s: State, c: nat)
    requires LineInv(s) && Enabled(s, Receive) && c < |s.channels|
    ensures FollowsTo(Project(s, c), Seen(s, Receive, c), Project(Apply(s, Receive), c))
  {
    var r, f, g := s.line[0].request, Project(s, c), Project(Apply(s, Receive), c);
    ReceiveTakesInFlight(s, c);
    OfOne(c, r);
    RoutedToItsChannel(s, c);
    hide Of;
    hide InFlight;
    assert f.pending == (if r.channel == c then [r] else []) + g.pending;
    if r.channel == c {
      assert f.pending[0] == r && f.pending[1..] == g.pending;
      OneFifoStep(f, Respond);
      hide Apply;
      assert FifoApply(f, Respond) == g;
    } else {
      assert [] + g.pending == g.pending;
    }
  }

  /** An event of the pipeline is, for channel `c`, exactly the step it sees of it, or nothing. */
  lemma PipelineRefinesFifo(s: State, e: Event, c: nat)
    requires Inv(s) && Enabled(s, e) && c < |s.channels|
    ensures c < |Apply(s, e).channels|
    ensures FollowsTo(Project(s, c), Seen(s, e, c), Project(Apply(s, e), c))
  {
    StepKeepsWorkerInv(s, e);
    if e.Receive? {
      ReceiveRefinesFifo(s, c);
    } else if e.Push? {
      PushRefinesFifo(s, e.request, c);
    } else {
      StepOfChannel(s, e, c);
      hide Of;
      hide InFlight;
      assert InFlight(s, c) + [] == InFlight(s, c) && [] + InFlight(Apply(s, e), c) == InFlight(Apply(s, e), c);
      if Seen(s, e, c) != [] {
        OneFifoStep(Project(s, c), Seen(s, e, c)[0]);
      }
    }
  }

  lemma {:induction false} FifoRunsConcat(f: Fifo, a: seq<FifoEvent>, b: seq<FifoEvent>)
    requires FifoRuns(f, a) && FifoRuns(FifoAfter(f, a), b)
    ensures FifoRuns(f, a + b) && FifoAfter(f, a + b) == FifoAfter(FifoAfter(f, a), b)
    decreases |a|
  {
    if a == [] {
      assert a + b == b;
    } else {
      assert (a + b)[1..] == a[1..] + b;
      FifoRunsConcat(FifoApply(f, a[0]), a[1..], b);
    }
  }

  /**
   Every run of the pipeline is, for channel `c`, the run of the channel alone that consists of just the steps it
   sees: its own requests in the order they are pushed, its own answers, reads, reservations and releases.
   */
  lemma {:induction false} RunRefinesFifo(s: State, events: seq<Event>, c: nat)
    requires Inv(s) && Runs(s, events) && c < |s.channels|
    ensures c < |After(s, events).channels|
    ensures FollowsTo(Project(s, c), SeenAll(s, events, c), Project(After(s, events), c))
    decreases |events|
  {
    if events != [] {
      var e, next := events[0], Apply(s, events[0]);
      PipelineRefinesFifo(s, e, c);
      StepKeepsInv(s, e);
      hide Project;
      hide Seen;
      hide Inv;
      hide Apply;
      RunRefinesFifo(next, events[1..], c);
      FifoRunsConcat(Project(s, c), Seen(s, e, c), SeenAll(next, events[1..], c));
    }
  }

  function AcceptedBy(events: seq<FifoEvent>): seq<Request> {
    if events == [] then []
    else (if events[0].Accept? then [events[0].request] else []) + AcceptedBy(events[1..])
  }

  /** The data that was read, waits to be read, or is under way, in this order. */
  function Lined(f: Fifo): seq<Request> {
    f.popped + f.queue.GetOr([]) + Data(f.pending)
  }

  lemma FifoStepKeepsLine(f: Fifo, e: FifoEvent)
    requires FifoEnabled(f, e) && !e.Open?
    ensures var g := FifoApply(f, e);
            g.queue.Some? ==> f.queue.Some? && Lined(g) == Lined(f) + Data(if e.Accept? then [e.request] else [])
    ensures var g := FifoApply(f, e); g.queue.None? ==> g.popped == f.popped <= Lined(f)
  {
    match e {
      case Accept(r) => DataConcat(f.pending, [r]);
      case Respond =>
        assert f.pending == [f.pending[0]] + f.pending[1..];
        DataConcat([f.pending[0]], f.pending[1..]);
        DataOne(f.pending[0]);
      case _ =>
    }
    hide Data;
  }

  /** Within one session a channel alone delivers its data in the order it was accepted, and nothing else. */
  lemma {:induction false} FifoDeliversInOrder(f: Fifo, events: seq<FifoEvent>)
    requires FifoRuns(f, events) && Open !in events
    ensures FifoAfter(f, events).popped <= Lined(f) + Data(AcceptedBy(events))
    ensures FifoAfter(f, events).queue.Some? ==>
              f.queue.Some? && Lined(FifoAfter(f, events)) == Lined(f) + Data(AcceptedBy(events))
    decreases |events|
  {
    if events == [] {
      assert Lined(f) + [] == Lined(f);
    } else {
      var e, g := events[0], FifoApply(f, events[0]);
      var first := if e.Accept? then [e.request] else [];
      var others := AcceptedBy(events[1..]);
      assert forall x :: x in events[1..] ==> x in events;
      FifoStepKeepsLine(f, e);
      hide FifoApply;
      hide Lined;
      FifoDeliversInOrder(g, events[1..]);
      DataConcat(first, others);
      hide Data;
      if g.queue.Some? {
        assert Lined(f) + (Data(first) + Data(others)) == (Lined(f) + Data(first)) + Data(others);
      } else {
        ClosedStaysClosed(g, events[1..]);
      }
    }
  }

  lemma {:induction false} ClosedStaysClosed(f: Fifo, events: seq<FifoEvent>)
    requires FifoRuns(f, events) && Open !in events && f.queue.None?
    ensures FifoAfter(f, events).queue.None? && FifoAfter(f, events).popped == f.popped
    decreases |events|
  {
    if events != [] {
      assert forall x :: x in events[1..] ==> x in events;
      ClosedStaysClosed(FifoApply(f, events[0]), events[1..]);
    }
  }

  // ---------------------------------------------------------------------------
  // Bounds and what happens at them

  /** A push waits exactly while ten packets are in the device queue. */
  lemma PushWaitsIff(s: State, r: Request)
    requires Inv(s) && r.channel < |s.channels|
    ensures Enabled(s, Push(r)) <==> |s.queue| < 10
    ensures Enabled(s, Push(r)) ==> Apply(s, Push(r)).queue == s.queue + [r] && Apply(s, Push(r)).accepted == s.accepted + [r]
  {
    hide Inv;
  }

  /** At the send condition the worker sends exactly while it has a packet and fewer than three answers are owed. */
  lemma WorkerSendsIff(s: State)
    requires Inv(s) && s.pc.AtSendTest?
    ensures s.queue != [] ==> (Apply(s, SendTest).pc.AtPop? <==> s.inProgress < 3)
    ensures s.queue == [] ==> (Apply(s, SendTest).pc.AtPop? <==> s.inProgress == 0)
    ensures Apply(s, SendTest).pc.AtPop? || Apply(s, SendTest).pc.AtReceive?
  {
    hide Inv;
  }

  const SEND: seq<Event> := [SendTest, Pop, Write]

  /** One turn of the send loop. */
  lemma OneIsSent(s: State)
    requires WorkerInv(s) && s.pc.AtSendTest? && s.queue != [] && s.inProgress < 3
    ensures Runs(s, SEND)
    ensures After(s, SEND) == s.(queue := s.queue[1..], inProgress := s.inProgress + 1,
                                 chip := s.chip + [s.queue[0]], written := s.written + [s.queue[0]])
  {
    var s1 := Apply(s, SendTest);
    var s2 := Apply(s1, Pop);
    var s3 := Apply(s2, Write);
    assert s3 == s.(queue := s.queue[1..], inProgress := s.inProgress + 1,
                    chip := s.chip + [s.queue[0]], written := s.written + [s.queue[0]]);
    hide Apply;
    assert Runs(s3, []) && After(s3, []) == s3 by {
      NoEvents(s3);
    }
    RunsCons(s2, Write, []);
    RunsCons(s1, Pop, [Write] + []);
    RunsCons(s, SendTest, [Pop] + ([Write] + []));
    assert SEND == [SendTest] + ([Pop] + ([Write] + []));
    hide *;
  }

  lemma NoEvents(s: State)
    ensures Runs(s, []) && After(s, []) == s
  {
  }

  lemma {:induction false} RunsConcat(s: State, first: seq<Event>, second: seq<Event>)
    requires Runs(s, first) && Runs(After(s, first), second)
    ensures Runs(s, first + second) && After(s, first + second) == After(After(s, first), second)
    decreases |first|
  {
    if first == [] {
      assert first + second == second;
    } else {
      assert (first + second)[1..] == first[1..] + second;
      RunsConcat(Apply(s, first[0]), first[1..], second);
    }
  }

  /** With three packets waiting and none owed the worker writes all three before it takes any response. */
  lemma WindowIsFilled(s: State)
    requires WorkerInv(s) && s.pc.AtSendTest? && |s.queue| >= 3 && s.inProgress == 0
    ensures Runs(s, SEND + (SEND + SEND))
    ensures var t := After(s, SEND + (SEND + SEND));
            t.inProgress == 3 && t.written == s.written + s.queue[..3] && t.received == s.received && t.queue == s.queue[3..]
  {
    OneIsSent(s);
    var a := After(s, SEND);
    OneIsSent(a);
    var b := After(a, SEND);
    OneIsSent(b);
    var c := After(b, SEND);
    RunsConcat(a, SEND, SEND);
    RunsConcat(s, SEND, SEND + SEND);
    hide Runs;
    hide After;
    assert a.queue[1..] == s.queue[2..] && b.queue[1..] == s.queue[3..];
    assert c.written == s.written + [s.queue[0]] + [s.queue[1]] + [s.queue[2]];
    assert s.queue[..3] == [s.queue[0]] + [s.queue[1]] + [s.queue[2]];
  }

  /** Such a state is reached: three packets are pushed at the start. */
  lemma ThreeAreWaiting(channels: nat, a: Request, b: Request, c: Request)
    requires a.channel < channels && b.channel < channels && c.channel < channels
    ensures var events := [Push(a)] + ([Push(b)] + ([Push(c)] + []));
            && Runs(Init(channels), events)
            && var s := After(Init(channels), events);
               WorkerInv(s) && s.pc.AtSendTest? && s.queue == [a, b, c] && s.inProgress == 0
  {
    var s := Init(channels);
    InitInv(channels);
    PushWaitsIff(s, a);
    var s1 := Apply(s, Push(a));
    StepKeepsInv(s, Push(a));
    PushWaitsIff(s1, b);
    var s2 := Apply(s1, Push(b));
    StepKeepsInv(s1, Push(b));
    PushWaitsIff(s2, c);
    var s3 := Apply(s2, Push(c));
    StepKeepsInv(s2, Push(c));
    NoEvents(s3);
    RunsCons(s2, Push(c), []);
    RunsCons(s1, Push(b), [Push(c)] + []);
    RunsCons(s, Push(a), [Push(b)] + ([Push(c)] + []));
    assert s3.pc == s2.pc == s1.pc == s.pc && s3.inProgress == 0;
    hide Runs;
    hide After;
    hide Enabled;
    assert [] + [a] + [b] + [c] == [a, b, c];
  }

  /** Once a channel is released its reader takes nothing more until the next `reserve`. */
  lemma {:induction false} ReleasedChannelIsSilent(s: State, events: seq<Event>, c: nat)
    requires c < |s.channels| && s.channels[c].queue.None? && Runs(s, events) && KeepsSession(events, c)
    ensures c < |After(s, events).channels| && After(s, events).channels[c] == s.channels[c]
    decreases |events|
  {
    if events != [] {
      assert events[0] != Reserve(c);
      assert c < |Apply(s, events[0]).channels| && Apply(s, events[0]).channels[c] == s.channels[c];
      assert KeepsSession(events[1..], c);
      hide Apply;
      ReleasedChannelIsSilent(Apply(s, events[0]), events[1..], c);
    }
  }

  /** Releasing takes the queue away and leaves what was read, and every other channel, as they are. */
  lemma ReleaseShutsOne(s: State, c: nat)
    requires c < |s.channels|
    ensures var t := Apply(s, Release(c));
            && |t.channels| == |s.channels| && t.channels[c].queue.None? && t.channels[c].popped == s.channels[c].popped
            && forall d :: 0 <= d < |s.channels| && d != c ==> t.channels[d] == s.channels[d]
  {
  }

  /** The chip may answer a packet before earlier ones of other channels, but not before one of the same channel. */
  lemma AnswerIsNextOfItsChannel(s: State, i: nat)
    requires i < |s.chip|
    ensures Enabled(s, Answer(i, true)) <==> forall j :: 0 <= j < i ==> s.chip[j].channel != s.chip[i].channel
    ensures Enabled(s, Answer(i, false)) <==> Enabled(s, Answer(i, true)) && |s.channels| == 1
  {
  }
}
