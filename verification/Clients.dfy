/**
 All connections of a server together as a transition system, over arbitrary runs of connecting, messages, failing
 sends, ending readers and disconnecting.
 */
module Clients {
  import opened Bytes
  import opened Queue
  import opened Channels
  import opened Devices

  /** The channel a session is on: the device and the channel of it. */
  type Place = (nat, nat)

  /** `waiting`: the loop has found `run` true and is in `receiveMessage`, which it leaves with one more message. */
  datatype Client = Client(run: bool, waiting: bool, session: Option<Place>, reader: bool)

  datatype World = World(devices: seq<seq<ChannelView>>, clients: map<nat, Client>)

  /** `sent` tells whether the response could be sent; `NoMessage` is a null from `receiveMessage`. */
  datatype Message =
    | Request(codec: string, settings: Settings, sent: bool)
    | Renegotiation(settings: Settings, sent: bool)
    | Check(sent: bool)
    | ChannelData(data: seq<Byte>)
    | SpeechData(data: seq<Byte>)
    | Unexpected
    | NoMessage
  {
    /** The response could not be sent, which ends the connection. */
    predicate Failed() { (Request? || Renegotiation? || Check?) && !sent }

    /** The same message with its response sent. */
    function Answered(): Message {
      if Failed() then this.(sent := true) else this
    }
  }

  /**
   `Test` is the loop finding `run` true, `Exit` the loop finding it false, `ReaderStops` a reader that ends by itself,
   `Traffic` anything that happens in the queue of a busy channel.
   */
  datatype Event =
    | Connect(id: nat)
    | Test(id: nat)
    | Receive(id: nat, message: Message)
    | ReaderStops(id: nat)
    | Exit(id: nat)
    | Traffic(place: Place, queue: Option<QueueState<Delivery>>)

  predicate Exists(devices: seq<seq<ChannelView>>, p: Place) {
    p.0 < |devices| && p.1 < |devices[p.0]|
  }

  function ViewAt(devices: seq<seq<ChannelView>>, p: Place): ChannelView
    requires Exists(devices, p)
  {
    devices[p.0][p.1]
  }

  function SetAt(devices: seq<seq<ChannelView>>, p: Place, v: ChannelView): seq<seq<ChannelView>>
    requires Exists(devices, p)
  {
    devices[p.0 := devices[p.0][p.1 := v]]
  }

  /** The device loop of a Request: the first device that starts a session, from device `from` on. */
  function AllocateFrom(devices: seq<seq<ChannelView>>, from: nat, s: Settings): (seq<seq<ChannelView>>, Option<Place>)
    requires from <= |devices|
    decreases |devices| - from
  {
    if from == |devices| then (devices, None)
    else
      var r := Allocate(devices[from], s);
      var after := devices[from := r.channels];
      if r.session.Some? then (after, Some((from, r.session.value))) else AllocateFrom(after, from + 1, s)
  }

  /** `stopSession`: the channel is released, and the reader clears `run` before it is joined. */
  function SessionStopped(w: World, id: nat): World
    requires id in w.clients
  {
    match w.clients[id].session
    case None => w
    case Some(p) =>
      if !Exists(w.devices, p) then w
      else World(SetAt(w.devices, p, Released(ViewAt(w.devices, p))), w.clients[id := w.clients[id].(run := false, session := None, reader := false)])
  }

  /** The connection object is destroyed. */
  function Gone(w: World, id: nat): World
    requires id in w.clients
  {
    var stopped := SessionStopped(w, id);
    stopped.(clients := stopped.clients - {id})
  }

  function SessionStarted(w: World, id: nat, codec: string, s: Settings): World
    requires id in w.clients
  {
    if codec != CODEC then w
    else
      var r := AllocateFrom(w.devices, 0, s);
      World(r.0, w.clients[id := w.clients[id].(session := r.1, reader := r.1.Some?)])
  }

  /** A Renegotiation needs a session, and the index of a Request must fit an int. */
  predicate Handles(w: World, id: nat, m: Message) {
    && id in w.clients
    && (m.Renegotiation? ==> w.clients[id].session.Some?)
    && (m.Request? ==> !Negotiate(m.settings).TooLarge?)
  }

  predicate Enabled(w: World, e: Event) {
    match e
    case Connect(id) => id !in w.clients
    case Receive(id, m) =>
      Handles(w, id, m) && w.clients[id].waiting
    case Test(id) => id in w.clients && !w.clients[id].waiting && w.clients[id].run
    case ReaderStops(id) => id in w.clients && w.clients[id].reader
    case Exit(id) => id in w.clients && !w.clients[id].waiting && !w.clients[id].run
    case Traffic(p, _) => Exists(w.devices, p) && ViewAt(w.devices, p).busy
  }

  /** The loop has got its message. */
  function Received(w: World, id: nat): World
    requires id in w.clients
  {
    w.(clients := w.clients[id := w.clients[id].(waiting := false)])
  }

  function Handled(w: World, id: nat, m: Message): World
    requires id in w.clients
  {
    match m
    case Request(codec, settings, sent) =>
      var started := SessionStarted(SessionStopped(w, id), id, codec, settings);
      if sent then started else Gone(started, id)
    case Renegotiation(settings, sent) =>
      var p := w.clients[id].session.GetOr((0, 0));
      var changed := if Exists(w.devices, p) then
                   w.(devices := SetAt(w.devices, p, Negotiated(ViewAt(w.devices, p), settings))) else w;
      if sent then changed else Gone(changed, id)
    case Check(sent) => if sent then w else Gone(w, id)
    case ChannelData(_) => w
    case SpeechData(_) => w
    case Unexpected => w
    case NoMessage => w.(clients := w.clients[id := w.clients[id].(run := false)])
  }

  function Apply(w: World, e: Event): World
    requires Enabled(w, e)
  {
    match e
    case Connect(id) => w.(clients := w.clients[id := Client(true, false, None, false)])
    case Test(id) => w.(clients := w.clients[id := w.clients[id].(waiting := true)])
    case Receive(id, m) => Handled(Received(w, id), id, m)
    case ReaderStops(id) => w.(clients := w.clients[id := w.clients[id].(run := false)])
    case Exit(id) => Gone(w, id)
    case Traffic(p, queue) => w.(devices := SetAt(w.devices, p, ViewAt(w.devices, p).(queue := queue)))
  }

  predicate Runs(w: World, events: seq<Event>)
    decreases |events|
  {
    events == [] || (Enabled(w, events[0]) && Runs(Apply(w, events[0]), events[1..]))
  }

  function After(w: World, events: seq<Event>): World
    requires Runs(w, events)
    decreases |events|
  {
    if events == [] then w else After(Apply(w, events[0]), events[1..])
  }

  lemma {:induction false} RunsAppend(w: World, events: seq<Event>, e: Event)
    requires Runs(w, events) && Enabled(After(w, events), e)
    ensures Runs(w, events + [e]) && After(w, events + [e]) == Apply(After(w, events), e)
    decreases |events|
  {
    if events == [] {
      assert [e][1..] == [];
      assert Runs(Apply(w, e), []);
    } else {
      assert (events + [e])[1..] == events[1..] + [e];
      RunsAppend(Apply(w, events[0]), events[1..], e);
    }
  }

  /** A server with devices of the given numbers of channels and nobody connected. */
  function Init(sizes: seq<nat>): World {
    World(seq(|sizes|, d requires 0 <= d < |sizes| => seq(sizes[d], _ => ChannelView(false, None, NO_CODEC))), map[])
  }

  // ---------------------------------------------------------------------------
  // Conservation of channels

  ghost predicate Owns(w: World, id: nat, p: Place) {
    id in w.clients && w.clients[id].session == Some(p)
  }

  /** Sessions are on busy channels, have a reader, and no two share a channel. */
  ghost predicate SessionsInv(w: World) {
    && (forall id :: id in w.clients ==> (w.clients[id].session.Some? <==> w.clients[id].reader))
    && (forall id, p :: Owns(w, id, p) ==> Exists(w.devices, p) && ViewAt(w.devices, p).busy)
    && (forall i, j, p :: Owns(w, i, p) && Owns(w, j, p) ==> i == j)
  }

  /** A busy channel has an owner, and only a busy channel has a queue. */
  ghost predicate ChannelsInv(w: World) {
    forall p :: Exists(w.devices, p) ==>
      (ViewAt(w.devices, p).busy ==> exists id :: Owns(w, id, p)) && QueueOnlyIfBusy(ViewAt(w.devices, p))
  }

  ghost predicate Inv(w: World) { SessionsInv(w) && ChannelsInv(w) }

  lemma SetAtOther(devices: seq<seq<ChannelView>>, p: Place, v: ChannelView, q: Place)
    requires Exists(devices, p)
    ensures Exists(SetAt(devices, p, v), q) <==> Exists(devices, q)
    ensures Exists(devices, q) ==> ViewAt(SetAt(devices, p, v), q) == if q == p then v else ViewAt(devices, q)
  {
  }

  /** A change of an owned channel that leaves it busy keeps the accounts. */
  lemma BusyChangeKeepsInv(w: World, p: Place, v: ChannelView)
    requires Inv(w) && Exists(w.devices, p) && ViewAt(w.devices, p).busy && v.busy
    ensures Inv(w.(devices := SetAt(w.devices, p, v)))
  {
    var w' := w.(devices := SetAt(w.devices, p, v));
    forall q ensures Exists(w'.devices, q) <==> Exists(w.devices, q)
             ensures Exists(w.devices, q) ==> ViewAt(w'.devices, q) == if q == p then v else ViewAt(w.devices, q) {
      SetAtOther(w.devices, p, v, q);
    }
    hide SetAt;
    hide Exists;
    hide ViewAt;
    assert forall id, q :: Owns(w', id, q) <==> Owns(w, id, q);
  }

  lemma StopKeepsInv(w: World, id: nat)
    requires Inv(w) && id in w.clients
    ensures Inv(SessionStopped(w, id)) && SessionStopped(w, id).clients.Keys == w.clients.Keys
    ensures SessionStopped(w, id).clients[id].session.None?
    ensures w.clients[id].session.Some? ==>
              var p := w.clients[id].session.value;
              && Exists(w.devices, p) && Exists(SessionStopped(w, id).devices, p)
              && !ViewAt(SessionStopped(w, id).devices, p).busy && !SessionStopped(w, id).clients[id].run
  {
    var w' := SessionStopped(w, id);
    if w.clients[id].session.Some? {
      var p := w.clients[id].session.value;
      assert Owns(w, id, p);
      var v := Released(ViewAt(w.devices, p));
      forall q ensures Exists(w'.devices, q) <==> Exists(w.devices, q)
               ensures Exists(w.devices, q) ==> ViewAt(w'.devices, q) == if q == p then v else ViewAt(w.devices, q) {
        SetAtOther(w.devices, p, v, q);
      }
      hide SetAt;
      hide Exists;
      hide ViewAt;
      forall i, q ensures Owns(w', i, q) <==> Owns(w, i, q) && i != id {
      }
      forall q | Exists(w'.devices, q) && ViewAt(w'.devices, q).busy ensures exists i :: Owns(w', i, q) {
        var i :| Owns(w, i, q);
        assert Owns(w', i, q);
      }
    }
  }

  lemma {:induction false} AllocateFromTakesOne(devices: seq<seq<ChannelView>>, from: nat, s: Settings)
    requires from <= |devices|
    requires !Negotiate(s).TooLarge?
    requires forall p :: Exists(devices, p) ==> QueueOnlyIfBusy(ViewAt(devices, p))
    ensures match AllocateFrom(devices, from, s)
            case (after, None) => after == devices
            case (after, Some(p)) =>
              && Exists(devices, p) && Exists(after, p) && !ViewAt(devices, p).busy && ViewAt(after, p).busy
              && after == SetAt(devices, p, ViewAt(after, p))
    decreases |devices| - from
  {
    if from < |devices| {
      StartSessionTakesOne(devices[from], s);
      forall i | 0 <= i < |devices[from]| ensures QueueOnlyIfBusy(devices[from][i]) {
        assert Exists(devices, (from, i)) && ViewAt(devices, (from, i)) == devices[from][i];
      }
      var r := Allocate(devices[from], s);
      if r.session.None? {
        assert devices[from := r.channels] == devices;
        AllocateFromTakesOne(devices, from + 1, s);
      }
    }
  }

  lemma StartKeepsInv(w: World, id: nat, codec: string, s: Settings)
    requires Inv(w) && id in w.clients && w.clients[id].session.None? && !Negotiate(s).TooLarge?
    ensures Inv(SessionStarted(w, id, codec, s)) && SessionStarted(w, id, codec, s).clients.Keys == w.clients.Keys
  {
    if codec == CODEC {
      AllocateFromTakesOne(w.devices, 0, s);
      var r := AllocateFrom(w.devices, 0, s);
      var w' := SessionStarted(w, id, codec, s);
      if r.1.None? {
        assert w'.clients == w.clients;
      } else {
        NewOwnerKeepsInv(w, id, r.1.value, ViewAt(r.0, r.1.value));
      }
    }
  }

  lemma NewOwnerKeepsInv(w: World, id: nat, p: Place, v: ChannelView)
    requires Inv(w) && id in w.clients && w.clients[id].session.None?
    requires Exists(w.devices, p) && !ViewAt(w.devices, p).busy && v.busy
    ensures Inv(World(SetAt(w.devices, p, v), w.clients[id := w.clients[id].(session := Some(p), reader := true)]))
  {
    var w' := World(SetAt(w.devices, p, v), w.clients[id := w.clients[id].(session := Some(p), reader := true)]);
    forall q ensures Exists(w'.devices, q) <==> Exists(w.devices, q)
             ensures Exists(w.devices, q) ==> ViewAt(w'.devices, q) == if q == p then v else ViewAt(w.devices, q) {
      SetAtOther(w.devices, p, v, q);
    }
    hide SetAt;
    hide Exists;
    hide ViewAt;
    forall i, q ensures Owns(w', i, q) <==> if i == id then q == p else Owns(w, i, q) {
    }
    forall q | Exists(w'.devices, q) && ViewAt(w'.devices, q).busy ensures exists i :: Owns(w', i, q) {
      if q == p {
        assert Owns(w', id, q);
      } else {
        var i :| Owns(w, i, q);
        assert Owns(w', i, q);
      }
    }
  }

  lemma RemoveKeepsInv(w: World, id: nat)
    requires Inv(w) && id in w.clients && w.clients[id].session.None?
    ensures Inv(w.(clients := w.clients - {id}))
  {
    var w' := w.(clients := w.clients - {id});
    hide Exists;
    hide ViewAt;
    assert forall i, q :: Owns(w', i, q) <==> Owns(w, i, q);
  }

  lemma GoneKeepsInv(w: World, id: nat)
    requires Inv(w) && id in w.clients
    ensures Inv(Gone(w, id)) && Gone(w, id).clients.Keys == w.clients.Keys - {id}
  {
    StopKeepsInv(w, id);
    RemoveKeepsInv(SessionStopped(w, id), id);
  }

  /** A change of the loop's state or a new client without session does not touch the accounts. */
  lemma ClientChangeKeepsInv(w: World, id: nat, c: Client)
    requires Inv(w)
    requires if id in w.clients then c.session == w.clients[id].session && c.reader == w.clients[id].reader
             else c.session.None? && !c.reader
    ensures Inv(w.(clients := w.clients[id := c]))
  {
    var w' := w.(clients := w.clients[id := c]);
    hide Exists;
    hide ViewAt;
    assert forall i, q :: Owns(w', i, q) <==> Owns(w, i, q);
  }

  lemma HandledKeepsInv(w: World, id: nat, m: Message)
    requires Inv(w) && Handles(w, id, m)
    ensures Inv(Handled(w, id, m))
    ensures Handled(w, id, m).clients.Keys == (if m.Failed() then w.clients.Keys - {id} else w.clients.Keys)
  {
    match m {
      case Request(codec, settings, sent) =>
        StopKeepsInv(w, id);
        StartKeepsInv(SessionStopped(w, id), id, codec, settings);
        if !sent {
          GoneKeepsInv(SessionStarted(SessionStopped(w, id), id, codec, settings), id);
        }
      case Renegotiation(settings, sent) =>
        var p := w.clients[id].session.value;
        assert Owns(w, id, p);
        BusyChangeKeepsInv(w, p, Negotiated(ViewAt(w.devices, p), settings));
        if !sent {
          GoneKeepsInv(w.(devices := SetAt(w.devices, p, Negotiated(ViewAt(w.devices, p), settings))), id);
        }
      case Check(sent) =>
        if !sent {
          GoneKeepsInv(w, id);
        }
      case NoMessage =>
        ClientChangeKeepsInv(w, id, w.clients[id].(run := false));
      case _ =>
    }
  }

  lemma StepKeepsInv(w: World, e: Event)
    requires Inv(w) && Enabled(w, e)
    ensures Inv(Apply(w, e))
  {
    match e {
      case Connect(id) => ClientChangeKeepsInv(w, id, Client(true, false, None, false));
      case Test(id) => ClientChangeKeepsInv(w, id, w.clients[id].(waiting := true));
      case Receive(id, m) =>
        ClientChangeKeepsInv(w, id, w.clients[id].(waiting := false));
        HandledKeepsInv(Received(w, id), id, m);
      case ReaderStops(id) => ClientChangeKeepsInv(w, id, w.clients[id].(run := false));
      case Exit(id) => GoneKeepsInv(w, id);
      case Traffic(p, queue) => BusyChangeKeepsInv(w, p, ViewAt(w.devices, p).(queue := queue));
    }
  }

  lemma InitInv(sizes: seq<nat>)
    ensures Inv(Init(sizes))
  {
  }

  lemma {:induction false} RunKeepsInv(w: World, events: seq<Event>)
    requires Inv(w) && Runs(w, events)
    ensures Inv(After(w, events))
    decreases |events|
  {
    if events != [] {
      StepKeepsInv(w, events[0]);
      RunKeepsInv(Apply(w, events[0]), events[1..]);
    }
  }

  /**
   Over all runs of all clients: the busy channels are exactly those owned by live sessions, none has two owners,
   a session and its reader exist together, and a channel has a queue only while it is busy.
   */
  lemma ChannelsAreConserved(sizes: seq<nat>, events: seq<Event>)
    requires Runs(Init(sizes), events)
    ensures var w := After(Init(sizes), events);
            && (forall p :: Exists(w.devices, p) ==> (ViewAt(w.devices, p).busy <==> exists id :: Owns(w, id, p)))
            && (forall p :: Exists(w.devices, p) && ViewAt(w.devices, p).queue.Some? ==> ViewAt(w.devices, p).busy)
            && (forall i, j, p :: Owns(w, i, p) && Owns(w, j, p) ==> i == j)
            && (forall id :: id in w.clients ==> (w.clients[id].session.Some? <==> w.clients[id].reader))
  {
    InitInv(sizes);
    RunKeepsInv(Init(sizes), events);
  }

  /** What the handlers of one connection do to the clients leaves every other client as it is. */
  lemma OthersAreUntouched(w: World, id: nat, m: Message, i: nat)
    requires id in w.clients && i in w.clients && i != id
    ensures i in Handled(w, id, m).clients && Handled(w, id, m).clients[i] == w.clients[i]
  {
    hide AllocateFrom;
    hide SetAt;
    hide Negotiated;
    if m.Request? {
      var stopped := SessionStopped(w, id);
      assert i in stopped.clients && stopped.clients[i] == w.clients[i] && id in stopped.clients;
      hide SessionStopped;
      var started := SessionStarted(stopped, id, m.codec, m.settings);
      assert i in started.clients && started.clients[i] == w.clients[i];
    }
  }

  /** A client stays on its channel through any event that is not its own message or its own end. */
  lemma OthersKeepTheirs(w: World, e: Event, i: nat)
    requires Enabled(w, e) && i in w.clients && ((e.Receive? || e.Exit?) ==> e.id != i)
    ensures i in Apply(w, e).clients && Apply(w, e).clients[i].session == w.clients[i].session
  {
    if e.Receive? {
      OthersAreUntouched(Received(w, e.id), e.id, e.message, i);
    }
    hide Handled;
    hide SetAt;
  }

  /** However a connection ends, by leaving its loop or by a failing send, its channel is free afterwards. */
  lemma EveryEndFreesTheChannel(w: World, e: Event, id: nat)
    requires Inv(w) && Enabled(w, e) && id in w.clients && id !in Apply(w, e).clients
    ensures forall p :: Owns(w, id, p) && Exists(Apply(w, e).devices, p) ==> !ViewAt(Apply(w, e).devices, p).busy
  {
    var w' := Apply(w, e);
    StepKeepsInv(w, e);
    forall p | Owns(w, id, p) && Exists(w'.devices, p) ensures !ViewAt(w'.devices, p).busy {
      if ViewAt(w'.devices, p).busy {
        var i :| Owns(w', i, p);
        ClientsOnlyLeave(w, e, i);
        OthersKeepTheirs(w, e, i);
        assert Owns(w, i, p);
      }
    }
  }

  /** An event other than a connect adds no client. */
  lemma ClientsOnlyLeave(w: World, e: Event, i: nat)
    requires Inv(w) && Enabled(w, e) && i in Apply(w, e).clients && !e.Connect?
    ensures i in w.clients
  {
    match e {
      case Receive(id, m) =>
        ClientChangeKeepsInv(w, id, w.clients[id].(waiting := false));
        HandledKeepsInv(Received(w, id), id, m);
      case Exit(id) => GoneKeepsInv(w, id);
      case _ =>
    }
  }

  /** The messages of client `id` that are handled in the course of `events`. */
  function MessagesOf(events: seq<Event>, id: nat): seq<Message> {
    if events == [] then []
    else (if events[0].Receive? && events[0].id == id then [events[0].message] else []) + MessagesOf(events[1..], id)
  }

  lemma {:induction false} MessagesAppend(events: seq<Event>, e: Event, id: nat)
    ensures MessagesOf(events + [e], id) == MessagesOf(events, id) + (if e.Receive? && e.id == id then [e.message] else [])
  {
    if events == [] {
      assert [e][1..] == [] && [] + [e] == [e];
    } else {
      assert (events + [e])[1..] == events[1..] + [e];
      MessagesAppend(events[1..], e, id);
    }
  }

  ghost predicate NoConnect(events: seq<Event>, id: nat) {
    forall i :: 0 <= i < |events| ==> events[i] != Connect(id)
  }

  /** `run` stays false, and a message is handled only if the loop was already waiting for it. */
  lemma StoppedStep(w: World, e: Event, id: nat)
    requires id in w.clients && !w.clients[id].run && Enabled(w, e)
    ensures id in Apply(w, e).clients ==>
              !Apply(w, e).clients[id].run
              && (Apply(w, e).clients[id].waiting <==> w.clients[id].waiting && !(e.Receive? && e.id == id))
  {
    hide AllocateFrom;
    hide SetAt;
    hide Exists;
    hide Negotiate;
    hide Negotiated;
  }

  /** Once `run` is false the connection handles no message, or just the one it was already waiting for. */
  lemma {:induction false} OneMessageAfterStop(w: World, id: nat, events: seq<Event>)
    requires id in w.clients && !w.clients[id].run && Runs(w, events) && NoConnect(events, id)
    ensures |MessagesOf(events, id)| <= if w.clients[id].waiting then 1 else 0
    decreases |events|
  {
    if events != [] {
      var next := Apply(w, events[0]);
      StoppedStep(w, events[0], id);
      assert NoConnect(events[1..], id);
      if id in next.clients {
        OneMessageAfterStop(next, id, events[1..]);
      } else {
        GoneStaysGone(next, id, events[1..]);
      }
    }
  }

  lemma {:induction false} GoneStaysGone(w: World, id: nat, events: seq<Event>)
    requires id !in w.clients && Runs(w, events) && NoConnect(events, id)
    ensures id !in After(w, events).clients && MessagesOf(events, id) == []
    decreases |events|
  {
    if events != [] {
      assert id !in Apply(w, events[0]).clients;
      assert NoConnect(events[1..], id);
      GoneStaysGone(Apply(w, events[0]), id, events[1..]);
    }
  }

  /** A client that may go on can leave its loop with one more message. */
  lemma OneMoreMessage(w: World, id: nat)
    requires id in w.clients && w.clients[id].run && !w.clients[id].waiting
    ensures var more := [Test(id), Receive(id, NoMessage)];
            Runs(w, more) && NoConnect(more, id) && MessagesOf(more, id) == [NoMessage]
  {
    var test, receive := Test(id), Receive(id, NoMessage);
    var testing := Apply(w, test);
    assert [test, receive][1..] == [receive] && [receive][1..] == [];
    assert Enabled(testing, receive);
    assert Runs(Apply(testing, receive), []);
    assert Runs(testing, [receive]);
    assert MessagesOf([receive], id) == [NoMessage];
  }

  /**
   A Request is the last message its connection handles exactly when the connection already had a session, its reader
   had already ended it, or the response cannot be sent.
   */
  lemma RequestIsTheLastIff(w: World, id: nat, m: Message)
    requires Inv(w) && Enabled(w, Receive(id, m)) && m.Request?
    ensures (forall events | Runs(Apply(w, Receive(id, m)), events) && NoConnect(events, id) :: MessagesOf(events, id) == [])
       <==> w.clients[id].session.Some? || !w.clients[id].run || !m.sent
  {
    var ready, next := Received(w, id), Apply(w, Receive(id, m));
    ClientChangeKeepsInv(w, id, ready.clients[id]);
    HandledKeepsInv(ready, id, m);
    StopKeepsInv(ready, id);
    if w.clients[id].session.Some? || !w.clients[id].run || !m.sent {
      forall events | Runs(next, events) && NoConnect(events, id) ensures MessagesOf(events, id) == [] {
        if id in next.clients {
          assert !next.clients[id].run && !next.clients[id].waiting;
          OneMessageAfterStop(next, id, events);
        } else {
          GoneStaysGone(next, id, events);
        }
      }
    } else {
      assert id in next.clients && next.clients[id].run && !next.clients[id].waiting;
      OneMoreMessage(next, id);
      assert MessagesOf([Test(id), Receive(id, NoMessage)], id) != [];
    }
  }

  /**
   A Request on a connection that already has a session is the last message the connection handles: ending the old
   session makes the old reader clear `run`, although the new session has been confirmed to the client.
   */
  lemma SecondRequestIsTheLast(w: World, id: nat, m: Message, events: seq<Event>)
    requires Inv(w) && Enabled(w, Receive(id, m)) && m.Request? && w.clients[id].session.Some?
    requires Runs(Apply(w, Receive(id, m)), events) && NoConnect(events, id)
    ensures MessagesOf(events, id) == []
  {
    RequestIsTheLastIff(w, id, m);
  }

  /** The devices give out no session exactly when all their channels are busy or the index text is not a number. */
  lemma {:induction false} AllocateFromFailsIff(devices: seq<seq<ChannelView>>, from: nat, s: Settings)
    requires from <= |devices| && !Negotiate(s).TooLarge?
    ensures AllocateFrom(devices, from, s).1.None?
       <==> Negotiate(s).NotANumber? || forall p: Place :: Exists(devices, p) && p.0 >= from ==> ViewAt(devices, p).busy
    decreases |devices| - from
  {
    if from < |devices| {
      StartSessionFailsIff(devices[from], s);
      var r := Allocate(devices[from], s);
      hide Allocate;
      hide Negotiate;
      if r.session.None? {
        var after := devices[from := r.channels];
        AllocateFromFailsIff(after, from + 1, s);
        forall p: Place ensures p.0 > from ==> (Exists(after, p) <==> Exists(devices, p))
                 ensures p.0 > from && Exists(devices, p) ==> ViewAt(after, p) == ViewAt(devices, p) {
        }
        forall p: Place | Exists(devices, p) && p.0 == from && (forall i :: 0 <= i < |devices[from]| ==> devices[from][i].busy)
          ensures ViewAt(devices, p).busy {
        }
      } else {
        var i :| 0 <= i < |devices[from]| && !devices[from][i].busy;
        assert Exists(devices, (from, i)) && !ViewAt(devices, (from, i)).busy;
      }
    }
  }

  function FirstRequest(id: nat, s: Settings): seq<Event> {
    [Connect(id), Test(id), Receive(id, Request(CODEC, s, true)), Test(id)]
  }

  /** On a server with a channel a client gets a session, and may then send the second Request. */
  lemma SecondRequestIsReached(sizes: seq<nat>, d: nat, id: nat, s: Settings, m: Message)
    requires d < |sizes| && sizes[d] > 0 && !Negotiate(s).NotANumber? && !Negotiate(s).TooLarge?
    requires m.Request? && !Negotiate(m.settings).TooLarge?
    ensures Runs(Init(sizes), FirstRequest(id, s))
    ensures var w := After(Init(sizes), FirstRequest(id, s));
            Inv(w) && Enabled(w, Receive(id, m)) && w.clients[id].session.Some? && w.clients[id].run
  {
    var w := Init(sizes);
    var events := FirstRequest(id, s);
    AllocateFromFailsIff(w.devices, 0, s);
    assert Exists(w.devices, (d, 0)) && !ViewAt(w.devices, (d, 0)).busy;
    hide AllocateFrom;
    hide Negotiate;
    var w1 := Apply(w, events[0]);
    var w2 := Apply(w1, events[1]);
    var w3 := Apply(w2, events[2]);
    assert w1.clients[id] == Client(true, false, None, false) && w2.devices == w.devices;
    assert id in w3.clients && w3.clients[id].run && !w3.clients[id].waiting && w3.clients[id].session.Some?;
    var w4 := Apply(w3, events[3]);
    assert events[1..][0] == events[1] && events[1..][1..][0] == events[2] && events[1..][1..][1..] == [events[3]];
    assert [events[3]][1..] == [];
    hide Apply;
    assert Runs(w4, []) && Runs(w3, [events[3]]) && After(w3, [events[3]]) == w4;
    assert Runs(w2, events[1..][1..]) && After(w2, events[1..][1..]) == w4;
    assert Runs(w1, events[1..]) && After(w1, events[1..]) == w4;
    InitInv(sizes);
    RunKeepsInv(w, events);
  }

  /** A Renegotiation sets up the client's own channel, keeps its queue, and touches nothing else. */
  lemma RenegotiationChangesOneCodec(w: World, id: nat, settings: Settings, q: Place)
    requires Inv(w) && Enabled(w, Receive(id, Renegotiation(settings, true))) && Exists(w.devices, q)
    ensures var w' := Apply(w, Receive(id, Renegotiation(settings, true))); var p := w.clients[id].session.value;
            && Exists(w'.devices, q)
            && (q != p ==> ViewAt(w'.devices, q) == ViewAt(w.devices, q))
            && ViewAt(w'.devices, q).busy == ViewAt(w.devices, q).busy
            && ViewAt(w'.devices, q).queue == ViewAt(w.devices, q).queue
            && (q == p && Negotiate(settings).Configured? ==> ViewAt(w'.devices, q).codec == Negotiate(settings).codec)
            && w'.clients == w.clients[id := w.clients[id].(waiting := false)]
  {
    var p := w.clients[id].session.value;
    assert Owns(w, id, p);
    SetAtOther(w.devices, p, Negotiated(ViewAt(w.devices, p), settings), q);
    hide SetAt;
    hide Negotiate;
  }

  /** The first free channel of the first device that has one is taken, for the codec that was asked for. */
  lemma {:induction false} FirstFreePlaceIsTaken(devices: seq<seq<ChannelView>>, from: nat, s: Settings)
    requires from <= |devices| && !Negotiate(s).TooLarge? && AllocateFrom(devices, from, s).1.Some?
    ensures var (after, place) := AllocateFrom(devices, from, s); var p := place.value;
            && from <= p.0 && Exists(devices, p) && Exists(after, p)
            && (forall q: Place :: Exists(devices, q) && from <= q.0 && (q.0 < p.0 || (q.0 == p.0 && q.1 < p.1)) ==>
                  ViewAt(devices, q).busy)
            && ViewAt(after, p).queue == Some(QueueState([], 10, true))
            && (Negotiate(s).Configured? ==> ViewAt(after, p).codec == Negotiate(s).codec)
    decreases |devices| - from
  {
    if from < |devices| {
      var r := Allocate(devices[from], s);
      StartSessionFailsIff(devices[from], s);
      StartSessionTakesOne(devices[from], s);
      AllocateFromFailsIff(devices, from, s);
      if r.session.None? {
        var after := devices[from := r.channels];
        FirstFreePlaceIsTaken(after, from + 1, s);
        forall q: Place | Exists(devices, q) && q.0 > from ensures Exists(after, q) && ViewAt(after, q) == ViewAt(devices, q) {
        }
        hide Allocate;
        hide AllocateFrom;
      } else {
        assert FirstFree(devices[from]) == r.session.value;
      }
    }
  }

  /** A Request for a codec other than `ambe` gets no session and changes no channel but the client's old one. */
  lemma OtherCodecsGetNothing(w: World, id: nat, codec: string, settings: Settings)
    requires Inv(w) && id in w.clients && codec != "ambe"
    ensures var w' := Handled(w, id, Request(codec, settings, true));
            && id in w'.clients && w'.clients[id].session.None? && w'.devices == SessionStopped(w, id).devices
  {
    StopKeepsInv(w, id);
    hide Inv;
  }

  /** A reader that ends by itself, on an overflow or a failing send, ends the connection after at most one message. */
  lemma ReaderEndsConnection(w: World, id: nat, events: seq<Event>)
    requires Enabled(w, ReaderStops(id)) && Runs(Apply(w, ReaderStops(id)), events) && NoConnect(events, id)
    ensures |MessagesOf(events, id)| <= 1
  {
    OneMessageAfterStop(Apply(w, ReaderStops(id)), id, events);
  }

  /** The end of the stream ends the loop: nothing but its exit is left. */
  lemma EndOfStreamEndsLoop(w: World, id: nat)
    requires Enabled(w, Receive(id, NoMessage))
    ensures var w' := Apply(w, Receive(id, NoMessage));
            Enabled(w', Exit(id)) && !Enabled(w', Test(id)) && w'.devices == w.devices
  {
  }

  /** Checks, data and unexpected messages leave the connection in its loop and everything else as it is. */
  lemma OtherMessagesGoOn(w: World, id: nat, m: Message)
    requires Enabled(w, Receive(id, m)) && (m == Check(true) || m.ChannelData? || m.SpeechData? || m.Unexpected?)
    ensures var w' := Apply(w, Receive(id, m));
            && w'.devices == w.devices && w'.clients == w.clients[id := w.clients[id].(waiting := false)]
            && (w.clients[id].run ==> Enabled(w', Test(id)))
  {
  }
}
