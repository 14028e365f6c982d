/**
 One client connection as an object: its session, the reader of that session, the message handlers and the loop.
 Each handler is proved to be the transition of the same name in `Clients`, in any world the connection is part of.
 */
module ClientConnections {
  import opened Bytes
  import opened Queue
  import opened Channels
  import opened Devices
  import opened Clients

  /** No device is listed twice, and no channel belongs to two of them. */
  ghost predicate Separate(devices: seq<Device>)
    reads devices
  {
    forall i, j :: 0 <= i < |devices| && 0 <= j < |devices| && i != j ==> Apart(devices[i], devices[j])
  }

  ghost predicate Apart(d: Device, e: Device)
    reads d, e
  {
    d != e && forall c :: c in d.channels ==> c !in e.channels
  }

  /** The channels and request queues of all devices are among the given ones. */
  ghost predicate Covered(devices: seq<Device>, channels: set<Channel>, queues: set<RequestQueue>)
    reads devices
  {
    forall k :: 0 <= k < |devices| ==>
      (forall c :: c in devices[k].channels ==> c in channels) && devices[k].requests in queues
  }

  /** The devices with their channels and queues. */
  ghost function Reach(devices: seq<Device>): (objects: set<object?>)
    reads devices, set d, c | d in devices && c in d.channels :: c
    ensures forall d :: d in devices ==> d in objects
    ensures forall d, c :: d in devices && c in d.channels ==> c in objects && c.outQueue in objects
  {
    (set d: Device | d in devices :: d as object?)
    + (set d: Device, c: Channel | d in devices && c in d.channels :: c as object?)
    + (set d: Device, c: Channel | d in devices && c in d.channels :: c.outQueue as object?)
  }

  /** The channels of the device are as in `view`. */
  ghost predicate ShowsOne(d: Device, view: seq<ChannelView>)
    reads d, d.channels, set c | c in d.channels :: c.outQueue
  {
    d.Valid() && d.Views() == view
  }

  /** The channels of all devices are as in `views`. */
  ghost predicate Shows(devices: seq<Device>, views: seq<seq<ChannelView>>)
    reads Reach(devices)
  {
    |views| == |devices| && forall k :: 0 <= k < |devices| ==> ShowsOne(devices[k], views[k])
  }

  /** What starting or changing `session` adds to request queue `q`: its set-up request, if that is its queue. */
  function SetupFor(session: Channel?, q: RequestQueue, s: Settings): seq<seq<Byte>> {
    if session != null && session.requests == q && session.index <= 3 then SetupRequests(session.index, s) else []
  }

  class ClientConnection {
    const id: nat
    var run: bool
    /** The session, which is known by its channel. */
    var session: Channel?
    /** Whether the reader thread exists. */
    var reader: bool
    /** Where the channel of the session is. */
    ghost var place: Option<Place>

    /** The connection as it is outside `receiveMessage`. */
    ghost function Client(): Client
      reads this
    {
      Clients.Client(run, false, place, reader)
    }

    /** Session, reader and `place` belong together. */
    ghost predicate Linked(devices: seq<Device>)
      reads this, devices
    {
      && (session != null <==> reader) && (session != null <==> place.Some?)
      && (session != null ==> At(session, place.value, devices))
    }

    /** The connection and the devices are as in world `w`. */
    ghost predicate In(w: World, devices: seq<Device>)
      reads this, Reach(devices)
    {
      id in w.clients && w.clients[id] == Client() && Linked(devices) && Shows(devices, w.devices)
    }

    constructor (id: nat)
      ensures this.id == id && Client() == Clients.Client(true, false, None, false) && session == null
    {
      this.id := id;
      run := true;
      session := null;
      reader := false;
      place := None;
    }

    /** One turn of the reader's loop: an empty read or a failing send ends it. */
    method ReaderPass(sendOk: bool) returns (waits: bool)
      requires session != null && run
      modifies this`run, session.outQueue
      ensures session.outQueue == old(session.outQueue)
      ensures old(session.outQueue) == null ==> !waits && !run
      ensures var before := old(session.View());
              before.queue.Some? ==>
                var r := PopPass(before.queue.value);
                && session.View() == before.(queue := Some(r.0))
                && (waits <==> r.1.MustWait?)
                && (run <==> waits || (r.1.Taken? && Output(r.1.value) != [] && sendOk))
    {
      var output;
      waits, output := session.Read();
      if waits {
        return;
      }
      if output == [] {
        run := false;
        return;
      }
      if !sendOk {
        run := false;
      }
    }

    /** Waiting for the reader to end, once the session has been ended. */
    method JoinReader()
      requires session != null && session.outQueue == null
      modifies this`run
      ensures !run
    {
      while run
        decreases run
      {
        var waits := ReaderPass(true);
      }
    }

    /** Releases channel `c`, which is number `i` of device `d`. */
    method ReleaseOwn(c: Channel, ghost i: nat, ghost d: Device)
      requires d.Valid() && i < |d.channels| && c == d.channels[i]
      modifies c
      ensures c.outQueue == null
      ensures d.Valid() && d.Views() == old(d.Views())[i := Released(old(d.Views())[i])]
    {
      ghost var before := d.Views();
      assert before[i] == c.View();
      c.Release();
      assert c.View() == Released(before[i]);
      hide Released;
      forall j | 0 <= j < |d.channels| && j != i
        ensures d.channels[j].outQueue == old(d.channels[j].outQueue) && d.channels[j].View() == before[j]
      {
        assert d.channels[j] != c;
      }
      assert d.Views() == before[i := c.View()];
    }

    /** Sets up channel `c`, which is number `i` of device `d`. */
    method RenegotiateOwn(c: Channel, s: Settings, ghost i: nat, ghost d: Device)
      requires d.Valid() && i < |d.channels| && c == d.channels[i]
      modifies c, d.requests
      ensures c.outQueue == old(c.outQueue) && c.requests == d.requests && c.index <= 3
      ensures c.requests.accepted == old(c.requests.accepted) + SetupFor(c, c.requests, s)
      ensures d.Valid() && d.Views() == old(d.Views())[i := Negotiated(old(d.Views())[i], s)]
    {
      hide Negotiated;
      hide Negotiate;
      hide SetupRequests;
      ghost var before := d.Views();
      assert before[i] == c.View();
      var r := c.Renegotiate(s);
      forall j | 0 <= j < |d.channels| && j != i
        ensures d.channels[j].outQueue == old(d.channels[j].outQueue) && d.channels[j].View() == before[j]
      {
        assert d.channels[j] != c;
      }
      assert d.channels[i].outQueue == null || d.channels[i].outQueue == old(d.channels[i].outQueue);
      assert d.Views() == before[i := c.View()];
    }

    /** Releases channel `c`, which is at `p`; all others stay as they are. */
    method ReleaseAt(c: Channel, ghost p: Place, ghost devices: seq<Device>, ghost views: seq<seq<ChannelView>>)
      requires Separate(devices) && Shows(devices, views) && At(c, p, devices)
      modifies c
      ensures c.outQueue == null
      ensures Exists(views, p) && Shows(devices, SetAt(views, p, Released(ViewAt(views, p))))
    {
      ReleaseOwn(c, p.1, devices[p.0]);
      hide Released;
      hide ShowsOne;
      forall k | 0 <= k < |devices| && k != p.0 ensures ShowsOne(devices[k], views[k]) {
        assert c in devices[p.0].channels && Apart(devices[k], devices[p.0]);
        assert c !in devices[k].channels && old(ShowsOne(devices[k], views[k]));
      }
    }

    /** Sets up channel `c`, which is at `p`; all others stay as they are. */
    method RenegotiateAt(c: Channel, s: Settings, ghost p: Place, ghost devices: seq<Device>,
                         ghost views: seq<seq<ChannelView>>)
      requires Separate(devices) && Shows(devices, views) && At(c, p, devices)
      modifies c, devices[p.0].requests
      ensures c.outQueue == old(c.outQueue) && c.requests == devices[p.0].requests
      ensures c.requests.accepted == old(c.requests.accepted) + SetupFor(c, c.requests, s)
      ensures Exists(views, p) && Shows(devices, SetAt(views, p, Negotiated(ViewAt(views, p), s)))
    {
      RenegotiateOwn(c, s, p.1, devices[p.0]);
      hide Negotiated;
      hide ShowsOne;
      forall k | 0 <= k < |devices| && k != p.0 ensures ShowsOne(devices[k], views[k]) {
        assert c in devices[p.0].channels && Apart(devices[k], devices[p.0]);
        assert c !in devices[k].channels && old(ShowsOne(devices[k], views[k]));
      }
    }

    /** Ends the session, if there is one, and with it the reader. */
    method StopSession(ghost w: World, ghost devices: seq<Device>)
      requires In(w, devices) && Separate(devices)
      modifies this, session
      ensures In(SessionStopped(w, id), devices) && session == null
    {
      if session == null {
        return;
      }
      ReleaseAt(session, place.value, devices, w.devices);
      JoinReader();
      session := null;
      reader := false;
      place := None;
    }

    /** Asks device `i` for a session; the other devices stay as they are. */
    method TryDevice(devices: seq<Device>, i: nat, s: Settings, ghost views: seq<seq<ChannelView>>)
      returns (found: Channel?)
      requires !Negotiate(s).TooLarge? && Separate(devices) && Shows(devices, views) && i < |devices|
      modifies devices[i].channels, devices[i].requests
      ensures i < |views| && Shows(devices, views[i := Allocate(views[i], s).channels])
      ensures found == null <==> Allocate(views[i], s).session.None?
      ensures found != null ==> At(found, (i, Allocate(views[i], s).session.value), devices)
      ensures found != null ==> found.requests == devices[i].requests && found.index <= 3
      ensures devices[i].requests.accepted == old(devices[i].requests.accepted) + SetupFor(found, devices[i].requests, s)
    {
      hide Allocate;
      var threw;
      found, threw := devices[i].StartSession(s);
      forall k | 0 <= k < |devices| && k != i
        ensures devices[k].Valid() && devices[k].Views() == views[k]
      {
        var d := devices[k];
        assert Apart(d, devices[i]) && unchanged(d);
        assert old(d.Valid()) && old(d.Views()) == views[k] && d.channels == old(d.channels);
        forall j | 0 <= j < |d.channels|
          ensures unchanged(d.channels[j]) && (d.channels[j].outQueue != null ==> unchanged(d.channels[j].outQueue))
          ensures d.channels[j].index == j <= 3 && d.channels[j].requests == d.requests
        {
          assert d.channels[j] in d.channels;
          assert old(d.channels[j].index) == j;
        }
      }
    }

    /** The device loop of a Request: the first device that starts a session. */
    method FindSession(devices: seq<Device>, s: Settings, ghost views: seq<seq<ChannelView>>,
                       ghost channels: set<Channel>, ghost queues: set<RequestQueue>) returns (found: Channel?)
      requires !Negotiate(s).TooLarge? && Separate(devices) && Covered(devices, channels, queues)
      requires Shows(devices, views)
      modifies channels, queues
      ensures var r := AllocateFrom(views, 0, s);
              && Shows(devices, r.0)
              && (found == null <==> r.1.None?)
              && (found != null ==> At(found, r.1.value, devices))
      ensures forall q :: q in queues ==> q.accepted == old(q.accepted) + SetupFor(found, q, s)
    {
      assert |views| == |devices|;
      hide Shows;
      hide AllocateFrom;
      hide Allocate;
      ghost var now := views;
      found := null;
      for i := 0 to |devices|
        invariant found == null && |now| == |devices| && Shows(devices, now)
        invariant forall q :: q in queues ==> q.accepted == old(q.accepted)
        invariant AllocateFrom(now, i, s) == AllocateFrom(views, 0, s)
      {
        AllocateStep(now, i, s);
        found := TryDevice(devices, i, s, now);
        now := now[i := Allocate(now[i], s).channels];
        if found != null {
          return;
        }
      }
      AllocateEnd(now, s);
    }

    /** Takes over the session on channel `c`, which is at `p`, and starts its reader. */
    method StartSession(c: Channel, ghost p: Place, ghost devices: seq<Device>, ghost views: seq<seq<ChannelView>>)
      requires Shows(devices, views) && At(c, p, devices)
      modifies this
      ensures Linked(devices) && Shows(devices, views)
      ensures Client() == old(Client()).(session := Some(p), reader := true)
    {
      session := c;
      reader := true;
      place := Some(p);
    }

    /** Handles a Request; true when the response could not be sent. `devices` are those of codec `ambe`. */
    method ProcessRequest(devices: seq<Device>, codec: string, s: Settings, sent: bool, ghost w: World,
                          ghost channels: set<Channel>, ghost queues: set<RequestQueue>) returns (threw: bool)
      requires In(w, devices) && Separate(devices) && Covered(devices, channels, queues)
      requires !Negotiate(s).TooLarge?
      modifies this, channels, queues
      ensures In(Handled(w, id, Request(codec, s, true)), devices) && threw == !sent
      ensures forall q :: q in queues ==> q.accepted == old(q.accepted) + SetupFor(session, q, s)
    {
      RequestSteps(w, id, codec, s);
      ghost var stopped := SessionStopped(w, id);
      ghost var r := if codec == CODEC then AllocateFrom(stopped.devices, 0, s) else (stopped.devices, None);
      hide Handled;
      hide SessionStopped;
      hide AllocateFrom;
      StopSession(w, devices);
      hide Shows;
      var found: Channel? := null;
      if codec == CODEC {
        found := FindSession(devices, s, stopped.devices, channels, queues);
      }
      if found != null {
        StartSession(found, r.1.value, devices, r.0);
      }
      return !sent;
    }

    /** Handles a Renegotiation, which needs a session; exceptions of `renegotiate` are caught. */
    method ProcessRenegotiation(devices: seq<Device>, s: Settings, sent: bool, ghost w: World,
                                ghost channels: set<Channel>, ghost queues: set<RequestQueue>) returns (threw: bool)
      requires In(w, devices) && Separate(devices) && Covered(devices, channels, queues)
      requires session != null
      modifies channels, queues
      ensures In(Handled(w, id, Renegotiation(s, true)), devices) && threw == !sent
      ensures forall q :: q in queues ==> q.accepted == old(q.accepted) + SetupFor(session, q, s)
    {
      RenegotiateAt(session, s, place.value, devices, w.devices);
      return !sent;
    }

    /** Handles compressed data or speech: a request to the device, or nothing without a session. */
    method ProcessData(devices: seq<Device>, m: Message, ghost w: World,
                       ghost channels: set<Channel>, ghost queues: set<RequestQueue>)
      requires In(w, devices) && Covered(devices, channels, queues)
      requires m.ChannelData? || m.SpeechData?
      modifies queues
      ensures In(w, devices)
      ensures session != null ==>
                session.requests in queues && session.index <= 3
                && session.requests.accepted
                   == old(session.requests.accepted) + [if m.ChannelData? then DecodePacket(session.index, m.data)
                                                        else EncodePacket(session.index, m.data)]
      ensures forall q :: q in queues && (session == null || q != session.requests) ==> unchanged(q)
    {
      if session == null {
        return;
      }
      assert devices[place.value.0].Valid();
      hide DecodePacket;
      hide EncodePacket;
      if m.ChannelData? {
        session.Decode(m.data);
      } else {
        session.Encode(m.data);
      }
    }

    /** Handles a message; true when its response could not be sent. */
    method ProcessMessage(devices: seq<Device>, m: Message, ghost w: World,
                          ghost channels: set<Channel>, ghost queues: set<RequestQueue>) returns (threw: bool)
      requires In(w, devices) && Separate(devices) && Covered(devices, channels, queues)
      requires Handles(w, id, m)
      modifies this, channels, queues
      ensures In(Handled(w, id, m.Answered()), devices) && threw == m.Failed()
    {
      match m {
        case Request(codec, s, sent) =>
          threw := ProcessRequest(devices, codec, s, sent, w, channels, queues);
        case Renegotiation(s, sent) =>
          threw := ProcessRenegotiation(devices, s, sent, w, channels, queues);
        case Check(sent) =>
          threw := !sent;
        case NoMessage =>
          run := false;
          threw := false;
        case ChannelData(_) =>
          ProcessData(devices, m, w, channels, queues);
          threw := false;
        case SpeechData(_) =>
          ProcessData(devices, m, w, channels, queues);
          threw := false;
        case Unexpected =>
          threw := false;
      }
    }

    /**
     The life of a connection: messages are handled until `run` is false, a response cannot be sent, or a message
     cannot be handled (`aborted`); then the session is stopped. All of it is a run of the transition system, in which
     the connection handles its messages one by one and, when there are no more, the end of the stream.
     */
    method Serve(devices: seq<Device>, messages: seq<Message>, ghost w: World,
                 ghost channels: set<Channel>, ghost queues: set<RequestQueue>)
      returns (aborted: bool, ghost last: World, ghost events: seq<Event>)
      requires In(w, devices) && Separate(devices) && Covered(devices, channels, queues)
      requires forall m :: m in messages && m.Request? ==> !Negotiate(m.settings).TooLarge?
      modifies this, channels, queues
      ensures Runs(w, events) && last == After(w, events)
      ensures MessagesOf(events, id) <= messages + [NoMessage]
      ensures aborted ==> |MessagesOf(events, id)| < |messages| && messages[|MessagesOf(events, id)|].Renegotiation?
                          && session == null
      ensures !aborted ==> session == null && id !in last.clients && Shows(devices, last.devices)
    {
      hide Shows;
      hide Reach;
      hide Runs;
      hide MessagesOf;
      hide Handled;
      hide Negotiate;
      hide Separate;
      hide SessionStopped;
      assert Runs(w, []) && After(w, []) == w && MessagesOf([], id) == [] by {
        NothingHappens(w, id);
      }
      hide After;
      last, events := w, [];
      var rest := messages;
      ghost var all, n := messages + [NoMessage], 0;
      while run
        invariant In(last, devices) && Runs(w, events) && last == After(w, events)
        invariant Separate(devices) && Covered(devices, channels, queues)
        invariant n <= |all| && MessagesOf(events, id) == all[..n]
        invariant run ==> n <= |messages| && rest == messages[n..]
        decreases run, |rest|
      {
        var m := NoMessage;
        if rest != [] {
          m, rest := rest[0], rest[1..];
        }
        assert m == all[n] && (rest == [] || rest == messages[n + 1..]);
        if m.Renegotiation? && session == null {
          return true, last, events;
        }
        MessageStep(w, events, id, m);
        ghost var before := last;
        n := n + 1;
        assert all[..n] == all[..n - 1] + [m];
        last, events := Handled(last, id, m), events + [Test(id)] + [Receive(id, m)];
        NoMessageStops(before, id);
        var threw := ProcessMessage(devices, m, before, channels, queues);
        if threw {
          FailedIsGone(before, id, m);
          StopSession(Handled(before, id, m.Answered()), devices);
          return false, last, events;
        }
      }
      StopSession(last, devices);
      ExitStep(w, events, id);
      last, events := Gone(last, id), events + [Exit(id)];
      aborted := false;
    }
  }

  /** Testing `run`, waiting for a message and handling it. */
  lemma MessageStep(w: World, events: seq<Event>, id: nat, m: Message)
    requires Runs(w, events) && Handles(After(w, events), id, m)
    requires After(w, events).clients[id].run && !After(w, events).clients[id].waiting
    ensures var more := events + [Test(id)] + [Receive(id, m)];
            && Runs(w, more) && After(w, more) == Handled(After(w, events), id, m)
            && MessagesOf(more, id) == MessagesOf(events, id) + [m]
  {
    var now := After(w, events);
    RunsAppend(w, events, Test(id));
    var testing := Apply(now, Test(id));
    assert Received(testing, id).clients == now.clients;
    RunsAppend(w, events + [Test(id)], Receive(id, m));
    MessagesAppend(events, Test(id), id);
    MessagesAppend(events + [Test(id)], Receive(id, m), id);
  }

  lemma NoMessageStops(w: World, id: nat)
    requires id in w.clients
    ensures id in Handled(w, id, NoMessage).clients && !Handled(w, id, NoMessage).clients[id].run
  {
  }

  /** Leaving the loop. */
  lemma ExitStep(w: World, events: seq<Event>, id: nat)
    requires Runs(w, events) && id in After(w, events).clients
    requires !After(w, events).clients[id].run && !After(w, events).clients[id].waiting
    ensures Runs(w, events + [Exit(id)]) && After(w, events + [Exit(id)]) == Gone(After(w, events), id)
    ensures MessagesOf(events + [Exit(id)], id) == MessagesOf(events, id)
  {
    RunsAppend(w, events, Exit(id));
    MessagesAppend(events, Exit(id), id);
  }

  lemma NothingHappens(w: World, id: nat)
    ensures Runs(w, []) && After(w, []) == w && MessagesOf([], id) == []
  {
  }

  /** A response that could not be sent ends the connection after the message was handled. */
  lemma FailedIsGone(w: World, id: nat, m: Message)
    requires Handles(w, id, m) && m.Failed()
    ensures id in Handled(w, id, m.Answered()).clients
    ensures Handled(w, id, m) == Gone(Handled(w, id, m.Answered()), id)
  {
    hide AllocateFrom;
  }

  ghost predicate At(c: Channel, p: Place, devices: seq<Device>)
    reads devices
  {
    p.0 < |devices| && p.1 < |devices[p.0].channels| && c == devices[p.0].channels[p.1]
  }

  /** Handling a Request is stopping the old session and taking what the devices allocate. */
  lemma RequestSteps(w: World, id: nat, codec: string, s: Settings)
    requires id in w.clients && (w.clients[id].session.None? ==> !w.clients[id].reader)
    ensures var stopped := SessionStopped(w, id); var after := Handled(w, id, Request(codec, s, true));
            var r := if codec == CODEC then AllocateFrom(stopped.devices, 0, s) else (stopped.devices, None);
            && id in stopped.clients && id in after.clients && after.devices == r.0
            && after.clients[id].run == stopped.clients[id].run && after.clients[id].waiting == stopped.clients[id].waiting
            && (codec == CODEC ==> after.clients[id].session == r.1 && after.clients[id].reader == r.1.Some?)
            && (codec != CODEC ==> after.clients[id] == stopped.clients[id])
  {
    hide AllocateFrom;
  }

  lemma AllocateStep(devices: seq<seq<ChannelView>>, from: nat, s: Settings)
    requires from < |devices|
    ensures AllocateFrom(devices, from, s)
         == (var r := Allocate(devices[from], s);
             var after := devices[from := r.channels];
             if r.session.Some? then (after, Some((from, r.session.value))) else AllocateFrom(after, from + 1, s))
  {
  }

  lemma AllocateEnd(devices: seq<seq<ChannelView>>, s: Settings)
    ensures AllocateFrom(devices, |devices|, s) == (devices, None)
  {
  }
}
