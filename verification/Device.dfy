/** A device: its channels, the allocation of one to a session, and the routing of received packets. */
module Devices {
  import opened Bytes
  import opened Protocol
  import opened Packets
  import opened Channels
  import opened Queue
  import Pipeline
  import Text

  /** The only codec a device has. */
  const CODEC: string := "ambe"

  /** The position of the first channel that is not busy; the number of channels when all are. */
  function FirstFree(channels: seq<ChannelView>): (i: nat)
    ensures i <= |channels|
    ensures forall j :: 0 <= j < i ==> channels[j].busy
    ensures i < |channels| ==> !channels[i].busy
  {
    if channels == [] || !channels[0].busy then 0 else 1 + FirstFree(channels[1..])
  }

  datatype Started = Started(channels: seq<ChannelView>, session: Option<nat>)

  /**
   `startSession`: the first free channel, given back if the index text is not a number. An index that does not fit
   an int is an exception that leaves the channel reserved.
   */
  function Allocate(channels: seq<ChannelView>, s: Settings): (r: Started)
    ensures |r.channels| == |channels|
    ensures r.session.Some? ==> r.session.value < |channels|
  {
    var i := FirstFree(channels);
    if i == |channels| then Started(channels, None)
    else
      var v := Negotiated(Reserved(channels[i]), s);
      match Negotiate(s)
      case NotANumber => Started(channels[i := Released(v)], None)
      case TooLarge => Started(channels[i := v], None)
      case _ => Started(channels[i := v], Some(i))
  }

  /** `startSession` ends with the exception. */
  predicate Throws(channels: seq<ChannelView>, s: Settings) {
    Negotiate(s).TooLarge? && FirstFree(channels) < |channels|
  }

  /** The number of channels the product id stands for. */
  function ChannelCount(prodId: string): nat {
    if "AMBE3000" <= prodId then 1 else if "AMBE3003" <= prodId then 3 else 0
  }

  /** Where a data packet goes; `None` when the assertion on the channel number fails. */
  function Destination(channels: nat, kind: Kind, fields: seq<Field>): Option<nat> {
    var n := ChannelOf(kind, fields).GetOr(0);
    if 0 <= n < channels then Some(n) else None
  }

  class Device {
    const requests: RequestQueue
    var channels: seq<Channel>

    /** Channels know their number and their device. */
    ghost predicate Numbered()
      reads this
    {
      && (forall i :: 0 <= i < |channels| ==> channels[i].index == i <= 3 && channels[i].requests == requests)
      && (forall i, j :: 0 <= i < j < |channels| ==> channels[i] != channels[j])
    }

    /** No two channels share an output queue. */
    ghost predicate Valid()
      reads this, channels
    {
      && Numbered()
      && (forall i, j :: 0 <= i < j < |channels| && channels[i].outQueue != null ==>
            channels[i].outQueue != channels[j].outQueue)
    }

    ghost function Views(): (views: seq<ChannelView>)
      reads this, channels, set c | c in channels :: c.outQueue
      ensures |views| == |channels|
    {
      seq(|channels|, i requires 0 <= i < |channels| reads this, channels, set c | c in channels :: c.outQueue
                      => channels[i].View())
    }

    constructor (prodId: string)
      ensures Valid() && fresh(requests) && (forall c :: c in channels ==> fresh(c))
      ensures requests.accepted == []
      ensures Views() == seq(ChannelCount(prodId), _ => ChannelView(false, None, NO_CODEC))
    {
      requests := new RequestQueue();
      channels := [];
      new;
      for i := 0 to ChannelCount(prodId)
        invariant |channels| == i && Valid() && (forall c :: c in channels ==> fresh(c))
        invariant fresh(requests) && requests.accepted == []
        invariant forall c :: c in channels ==> c.View() == ChannelView(false, None, NO_CODEC)
      {
        var c := new Channel(i, requests);
        channels := channels + [c];
      }
    }

    /** Reserves channel `i` and sets it up; gives it back when the index text is not a number. */
    method StartOn(i: nat, s: Settings) returns (session: Channel?, threw: bool)
      requires Valid() && i < |channels|
      modifies channels[i], requests
      ensures Valid() && channels == old(channels)
      ensures var v := Negotiated(Reserved(old(Views())[i]), s);
              Views() == old(Views())[i := if Negotiate(s).NotANumber? then Released(v) else v]
      ensures threw == Negotiate(s).TooLarge?
      ensures session == if Negotiate(s).NotANumber? || threw then null else channels[i]
      ensures requests.accepted == old(requests.accepted) + SetupRequests(i, s)
    {
      hide Negotiated;
      hide SetupRequests;
      ghost var before := Views();
      var channel := channels[i];
      assert before[i] == channel.View();
      channel.Reserve();
      var r := channel.Renegotiate(s);
      ghost var v := Negotiated(Reserved(before[i]), s);
      assert channel.View() == v;
      session := channel;
      threw := false;
      if r.NotANumber? {
        channel.Release();
        session := null;
      } else if r.TooLarge? {
        session := null;
        threw := true;
      }
      assert channel.View() == if r.NotANumber? then Released(v) else v;
      assert channel.outQueue == null || fresh(channel.outQueue);
      hide Released;
      hide Reserved;
      hide Negotiate;
      forall j | 0 <= j < |channels| && j != i
        ensures channels[j].outQueue == old(channels[j].outQueue) && channels[j].View() == before[j]
      {
        assert channels[j] != channel;
      }
      assert Views() == before[i := channel.View()];
    }

    method StartSession(s: Settings) returns (session: Channel?, threw: bool)
      requires Valid()
      modifies channels, requests
      ensures Valid() && channels == old(channels)
      ensures Views() == Allocate(old(Views()), s).channels
      ensures threw <==> Throws(old(Views()), s)
      ensures session == null <==> Allocate(old(Views()), s).session.None?
      ensures session != null ==> session == channels[Allocate(old(Views()), s).session.value]
      ensures requests.accepted == old(requests.accepted)
                                 + (if session == null then [] else SetupRequests(session.index, s))
    {
      ghost var before := Views();
      for i := 0 to |channels|
        invariant forall j :: 0 <= j < i ==> before[j].busy
        invariant Views() == before && Valid() && requests.accepted == old(requests.accepted)
      {
        assert before[i] == channels[i].View();
        if !channels[i].busy {
          assert FirstFree(before) == i;
          hide FirstFree;
          session, threw := StartOn(i, s);
          return;
        }
      }
      return null, false;
    }

    /** The channel a packet is for; false when the assertion on it fails. */
    method GetChannelNumber(p: Packet) returns (number: Option<nat>)
      requires p.Valid() && p.stored == Slots(Scan(p.kind, p.data[4..]).fields, 4)
      ensures number == Destination(|channels|, p.kind, Scan(p.kind, p.data[4..]).fields)
    {
      var c := p.GetChannel();
      var n := c.GetOr(0);
      if n < 0 || n >= |channels| {
        return None;
      }
      return Some(n);
    }

    /** The call of `receive` on channel `i`. */
    method DeliverTo(i: nat, d: Delivery)
      requires Valid() && i < |channels|
      modifies channels[i], channels[i].outQueue
      ensures channels == old(channels) && Valid()
      ensures Views() == old(Views())[i := Offered(old(Views())[i], d)]
    {
      hide Offered;
      ghost var before := Views();
      var channel := channels[i];
      assert before[i] == channel.View();
      channel.Receive(d);
      forall j | 0 <= j < |channels| && j != i
        ensures channels[j].outQueue == old(channels[j].outQueue) && channels[j].View() == before[j]
      {
        assert channels[j] != channel;
      }
      assert Views() == before[i := channel.View()];
    }

    /** Hands a data packet to its channel; control packets are only logged. */
    method ReceivePacket(p: Packet) returns (aborted: bool)
      requires Valid() && p.Valid() && p.stored == Slots(Scan(p.kind, p.data[4..]).fields, 4)
      modifies channels, set c | c in channels :: c.outQueue
      ensures channels == old(channels) && Valid()
      ensures var fields := Scan(p.kind, p.data[4..]).fields;
              var to := Destination(|channels|, p.kind, fields);
              if p.kind.Control? then !aborted && Views() == old(Views())
              else if to.None? then aborted && Views() == old(Views())
              else !aborted && Views()
                   == old(Views())[to.value := Offered(old(Views())[to.value], Delivery(p.kind, DataOf(p.kind, fields)))]
    {
      if p.kind.Control? {
        return false;
      }
      var to := GetChannelNumber(p);
      if to.None? {
        return true;
      }
      var delivery := Delivery(p.kind, DataOf(p.kind, Scan(p.kind, p.data[4..]).fields));
      DeliverTo(to.value, delivery);
      return false;
    }
  }

  // ---------------------------------------------------------------------------
  // Allocation

  /** A channel has an output queue only while it is busy. */
  predicate QueueOnlyIfBusy(v: ChannelView) { v.queue.Some? ==> v.busy }

  /** No session is given out exactly when all channels are busy or the index text is not a number that fits an int. */
  lemma StartSessionFailsIff(channels: seq<ChannelView>, s: Settings)
    ensures Allocate(channels, s).session.None?
       <==> (forall i :: 0 <= i < |channels| ==> channels[i].busy) || Negotiate(s).NotANumber? || Negotiate(s).TooLarge?
  {
  }

  /**
   A session is on a channel that was free and now is not; all other channels are untouched. Without a session all
   channels are as before, exactly when no exception was thrown: the exception leaves a channel busy that nobody has.
   */
  lemma StartSessionTakesOne(channels: seq<ChannelView>, s: Settings)
    ensures match Allocate(channels, s).session
            case None => (forall i :: 0 <= i < |channels| ==> QueueOnlyIfBusy(channels[i])) ==>
                           (Allocate(channels, s).channels == channels <==> !Throws(channels, s))
            case Some(i) =>
              var after := Allocate(channels, s).channels;
              && !Throws(channels, s)
              && i < |channels| == |after| && !channels[i].busy && after[i].busy && after[i].queue == Some(Fresh())
              && after == channels[i := after[i]]
              && after[i].codec == (if Negotiate(s).Configured? then Negotiate(s).codec else channels[i].codec)
  {
    var i := FirstFree(channels);
    if i < |channels| && Negotiate(s).NotANumber? {
      assert Released(Reserved(channels[i])) == channels[i].(queue := None);
    }
    if Throws(channels, s) {
      assert Allocate(channels, s).channels[i].busy;
    }
  }

  /** A new device of a known kind, asked for an index that does not fit an int, keeps a channel reserved for nobody. */
  lemma ExceptionIsReached(prodId: string, directions: seq<int>)
    requires ChannelCount(prodId) > 0
    ensures var channels := seq(ChannelCount(prodId), _ => ChannelView(false, None, NO_CODEC));
            var s := Settings(directions, map["index" := "2147483648"]);
            && Throws(channels, s) && Allocate(channels, s).session.None?
            && Allocate(channels, s).channels[0].busy
  {
    Text.TooLargeForInt();
    hide Text.Stoi;
  }

  // ---------------------------------------------------------------------------
  // Routing

  /** A compressed-data packet for channel `c` is routed to channel `c`, with its data, if the device has that channel. */
  lemma ChannelPacketIsRouted(n: nat, c: nat, data: seq<Byte>, bits: Byte)
    requires c <= 2 && c < n && BytesFor(bits) <= |data|
    ensures var p := Parse(Sealed(ChannelPacket(c, data, bits)));
            && p.Accepted? && p.kind == Ambe
            && Destination(n, Ambe, p.fields) == Some(c) && DataOf(Ambe, p.fields) == data[..BytesFor(bits)]
  {
    ChannelPacketRoundTrip(c, data, bits);
    var b := ChannelPacket(c, data, bits);
    var d := Field(ChanD, [CHANNEL_CHAND, bits] + data[..BytesFor(bits)]);
    hide Parse;
    hide Parity;
    hide ChannelPacket;
    assert d.raw[2..] == data[..BytesFor(bits)];
    ThreeFieldsAreRouted(n, Ambe, c, d, Field(Checksum, [PARITY_BYTE, Parity(b)]));
    hide DataOf;
    hide Destination;
  }

  /** The same for speech. */
  lemma SpeechPacketIsRouted(n: nat, c: nat, data: seq<Byte>, samples: Byte)
    requires c <= 2 && c < n && SpeechBytes(samples) <= |data|
    ensures var p := Parse(Sealed(SpeechPacket(c, data, samples)));
            && p.Accepted? && p.kind == Audio
            && Destination(n, Audio, p.fields) == Some(c) && DataOf(Audio, p.fields) == data[..SpeechBytes(samples)]
  {
    SpeechPacketRoundTrip(c, data, samples);
    var b := SpeechPacket(c, data, samples);
    var d := Field(SpeechD, [SPEECH_SPEECHD, samples] + data[..SpeechBytes(samples)]);
    hide Parse;
    hide Parity;
    hide SpeechPacket;
    assert d.raw[2..] == data[..SpeechBytes(samples)];
    ThreeFieldsAreRouted(n, Audio, c, d, Field(Checksum, [PARITY_BYTE, Parity(b)]));
    hide DataOf;
    hide Destination;
  }

  lemma ThreeFieldsAreRouted(n: nat, kind: Kind, c: nat, d: Field, k: Field)
    requires !kind.Control? && c <= 2 && c < n && k.tag == Checksum && |d.raw| >= 2
    requires d.tag == if kind.Ambe? then ChanD else SpeechD
    ensures var fields := [Field(Protocol.Channel, [ChannelByte(c)]), d, k];
            Destination(n, kind, fields) == Some(c) && DataOf(kind, fields) == d.raw[2..]
  {
    var f := Field(Protocol.Channel, [ChannelByte(c)]);
    DataOfThree(kind, f, d, k);
    ChannelOfThree(kind, f, d, k);
  }

  lemma ChannelOfThree(kind: Kind, f: Field, d: Field, k: Field)
    requires !kind.Control? && f.tag == Protocol.Channel && f.raw != []
    requires d.tag != Protocol.Channel && k.tag != Protocol.Channel
    ensures ChannelOf(kind, [f, d, k]) == Some(f.raw[0] - CHANNEL_BASE)
  {
    assert [f, d, k][..2] == [f, d] && [f, d][..1] == [f];
    assert LastOf([f], Protocol.Channel) == Some(f);
    assert LastOf([f, d], Protocol.Channel) == Some(f);
  }

  /** A data packet without channel field is routed to channel 0. */
  lemma UntaggedPacketIsRouted(n: nat, kind: Kind, fields: seq<Field>)
    requires n > 0 && !kind.Control? && forall f :: f in fields ==> f.tag != Protocol.Channel
    ensures Destination(n, kind, fields) == Some(0)
  {
    LastOfIsLast(fields, Protocol.Channel);
  }

  /** A packet that names a channel the device does not have fails the assertion, and no other packet does. */
  lemma OnlyOtherChannelsAbort(n: nat, kind: Kind, fields: seq<Field>)
    requires n > 0
    ensures Destination(n, kind, fields).None?
       <==> ChannelOf(kind, fields).Some? && !(0 <= ChannelOf(kind, fields).value < n)
  {
    hide ChannelOf;
  }

  /** One channel for product ids that begin with AMBE3000, three for AMBE3003, none for others. */
  lemma ChannelsOfProducts(rest: string, other: string)
    requires !("AMBE3000" <= other) && !("AMBE3003" <= other)
    ensures ChannelCount("AMBE3000" + rest) == 1 && ChannelCount("AMBE3003" + rest) == 3 && ChannelCount(other) == 0
  {
    assert ("AMBE3003" + rest)[7] == '3';
  }

  // ---------------------------------------------------------------------------
  // The queue of a channel, here and in the pipeline

  /** The queue of a channel as the pipeline has it, with what is delivered for each request. */
  function Shown(queue: Option<seq<Pipeline.Request>>, of: Pipeline.Request -> Delivery): Option<QueueState<Delivery>> {
    match queue
    case None => None
    case Some(q) => Some(QueueState(seq(|q|, i requires 0 <= i < |q| => of(q[i])), 10, true))
  }

  /** What the pipeline does with the answer to a data request is what `receive` does with its delivery. */
  lemma PipelineOffersTheSame(v: ChannelView, queue: Option<seq<Pipeline.Request>>, r: Pipeline.Request,
                              of: Pipeline.Request -> Delivery)
    requires v.queue == Shown(queue, of)
    ensures Offered(v, of(r)) == v.(queue := Shown(Pipeline.Offer(queue, r), of))
  {
    if queue.Some? && |queue.value| < 10 {
      var before, after := Shown(queue, of).value.items, Shown(Pipeline.Offer(queue, r), of).value.items;
      assert after == before + [of(r)];
    }
  }

  /** A response is routed in the pipeline as its packet is here, with a channel field and without. */
  lemma PipelineRoutesTheSame(n: nat, r: Pipeline.Request, data: seq<Byte>, count: Byte, untagged: seq<Field>)
    requires r.channel <= 2 && r.channel < n && SpeechBytes(count) <= |data| && BytesFor(count) <= |data|
    requires forall f :: f in untagged ==> f.tag != Protocol.Channel
    ensures var target := Some(Pipeline.Target(Pipeline.Response(r, true)));
            var ambe := Parse(Sealed(ChannelPacket(r.channel, data, count)));
            var audio := Parse(Sealed(SpeechPacket(r.channel, data, count)));
            && ambe.Accepted? && Destination(n, Ambe, ambe.fields) == target
            && audio.Accepted? && Destination(n, Audio, audio.fields) == target
    ensures Destination(n, Ambe, untagged) == Destination(n, Audio, untagged)
         == Some(Pipeline.Target(Pipeline.Response(r, false)))
  {
    ChannelPacketIsRouted(n, r.channel, data, count);
    SpeechPacketIsRouted(n, r.channel, data, count);
    UntaggedPacketIsRouted(n, Ambe, untagged);
    UntaggedPacketIsRouted(n, Audio, untagged);
    hide Parse;
    hide Destination;
    hide DataOf;
  }
}
