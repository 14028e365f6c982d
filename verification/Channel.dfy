/** One channel of a device: reservation, codec selection, framing, and the packets in both directions. */
module Channels {
  import opened Bytes
  import opened Protocol
  import opened Packets
  import opened Queue
  import opened RateP
  import opened Text

  const QUEUE_SIZE: nat := 10

  /** A received data packet: its class and the bytes of its data field. */
  datatype Delivery = Delivery(kind: Kind, data: seq<Byte>)

  /** The codec a channel was last set up for: a rate index, or six control words. */
  datatype Codec = Codec(index: Byte, ratep: Option<seq<int>>)

  datatype ChannelView = ChannelView(busy: bool, queue: Option<QueueState<Delivery>>, codec: Codec)

  /** Directions by their number (0 is ENCODE, 1 is DECODE), and the free-form arguments. */
  datatype Settings = Settings(directions: seq<int>, args: map<string, string>)

  const DIRECTION_ENCODE: Byte := 1
  const DIRECTION_DECODE: Byte := 2

  const NO_CODEC: Codec := Codec(0, None)

  function Fresh(): QueueState<Delivery> { QueueState([], QUEUE_SIZE, true) }

  function Reserved(v: ChannelView): ChannelView { v.(busy := true, queue := Some(Fresh())) }

  function Released(v: ChannelView): ChannelView { v.(busy := false, queue := None) }

  /** What `renegotiate` does with its settings; the last two are the exceptions of `stoi`. */
  datatype Negotiation = Configured(codec: Codec) | Ignored | NotANumber | TooLarge

  function Negotiate(s: Settings): Negotiation {
    if "index" in s.args then
      match Stoi(s.args["index"])
      case InvalidArgument => NotANumber
      case OutOfRange => TooLarge
      case Parsed(n) => Configured(Codec(n % 0x100, None))
    else if "ratep" in s.args then
      match ParseRateP(s.args["ratep"])
      case None => Ignored
      case Some(words) => Configured(Codec(0, Some(words)))
    else Ignored
  }

  /** The settings ask for encoding, decoding, or both. */
  function DirectionBits(directions: seq<int>): Byte {
    (if 0 in directions then DIRECTION_ENCODE else 0) + (if 1 in directions then DIRECTION_DECODE else 0)
  }

  function SetupPacket(channel: nat, codec: Codec, direction: Byte): seq<Byte>
    requires channel <= 3 && (codec.ratep.Some? ==> |codec.ratep.value| == 6)
  {
    match codec.ratep
    case None => SetupIndexPacket(channel, codec.index, direction)
    case Some(words) => SetupRatePPacket(channel, words, direction)
  }

  function Negotiated(v: ChannelView, s: Settings): ChannelView {
    match Negotiate(s)
    case Configured(codec) => v.(codec := codec)
    case _ => v
  }

  /** The set-up request the settings lead to, if any. */
  function SetupRequests(channel: nat, s: Settings): seq<seq<Byte>>
    requires channel <= 3
  {
    match Negotiate(s)
    case Configured(codec) => [SetupPacket(channel, codec, DirectionBits(s.directions))]
    case _ => []
  }

  /** The bits of a frame for the rate indices that have a hint. */
  const INDEX_HINTS: map<int, Byte> := map[33 := 72, 34 := 49, 59 := 144]

  const DSTAR: seq<int> := [0x0130, 0x0763, 0x4000, 0x0000, 0x0000, 0x0048]
  const YSF_VW: seq<int> := [0x0558, 0x086b, 0x1030, 0x0000, 0x0000, 0x0190]

  /** `getFramingBits`; the second comparison covers `sizeof(short) & 6` bytes, which is just the first word. */
  function FramingBits(codec: Codec): Byte {
    if codec.index == 33 then 72
    else if codec.index == 34 then 49
    else if codec.index == 59 then 144
    else
      match codec.ratep
      case None => 0
      case Some(words) => if words == DSTAR then 72 else if words != [] && words[0] == YSF_VW[0] then 144 else 0
  }

  /** `receive`: dropped without a queue; a refused push shuts the queue down. */
  function Offered(v: ChannelView, d: Delivery): ChannelView {
    match v.queue
    case None => v
    case Some(q) =>
      var r := PushPass(q, d, false);
      v.(queue := if r.1.Refused? then None else Some(r.0))
  }

  /** The bytes a client gets to see of a received packet. */
  function Output(d: Delivery): seq<Byte> {
    if d.kind.Audio? then HostImage(BigEndianValues(d.data)) else d.data
  }

  /** The device queue as seen from a channel: the packets it accepted, before their parity is written. */
  class RequestQueue {
    var accepted: seq<seq<Byte>>

    constructor ()
      ensures accepted == []
    {
      accepted := [];
    }

    method WritePacket(packet: seq<Byte>)
      modifies this
      ensures accepted == old(accepted) + [packet]
    {
      accepted := accepted + [packet];
    }
  }

  class Channel {
    const index: nat
    const requests: RequestQueue
    var busy: bool
    var codecIndex: Byte
    var ratep: Option<seq<int>>
    var outQueue: BlockingQueue?<Delivery>

    function View(): ChannelView
      reads this, outQueue
    {
      ChannelView(busy, if outQueue == null then None else Some(outQueue.State()), Codec(codecIndex, ratep))
    }

    constructor (index: nat, requests: RequestQueue)
      ensures this.index == index && this.requests == requests
      ensures View() == ChannelView(false, None, NO_CODEC) && outQueue == null
    {
      this.index := index;
      this.requests := requests;
      busy := false;
      codecIndex := 0;
      ratep := None;
      outQueue := null;
    }

    method Reserve()
      modifies this
      ensures View() == Reserved(old(View())) && fresh(outQueue)
    {
      busy := true;
      outQueue := new BlockingQueue(QUEUE_SIZE);
    }

    method Release()
      modifies this
      ensures View() == Released(old(View())) && outQueue == null
    {
      if outQueue != null {
        outQueue := null;
      }
      busy := false;
    }

    method SetupIndex(index: Byte, direction: Byte)
      requires this.index <= 3
      modifies this`codecIndex, this`ratep, requests
      ensures View() == old(View()).(codec := Codec(index, None))
      ensures requests.accepted == old(requests.accepted) + [SetupIndexPacket(this.index, index, direction)]
    {
      codecIndex := index;
      ratep := None;
      var p := NewSetupIndex(this.index, index, direction);
      requests.WritePacket(p.data[..]);
    }

    method SetupRateP(words: seq<int>, direction: Byte)
      requires index <= 3 && |words| == 6
      modifies this`codecIndex, this`ratep, requests
      ensures View() == old(View()).(codec := Codec(0, Some(words)))
      ensures requests.accepted == old(requests.accepted) + [SetupRatePPacket(index, words, direction)]
    {
      codecIndex := 0;
      ratep := Some(words);
      var p := NewSetupRateP(index, words, direction);
      requests.WritePacket(p.data[..]);
    }

    /** The session's `renegotiate`: which branch was taken, or which exception was thrown. */
    method Renegotiate(s: Settings) returns (r: Negotiation)
      requires index <= 3
      modifies this`codecIndex, this`ratep, requests
      ensures r == Negotiate(s)
      ensures View() == Negotiated(old(View()), s)
      ensures requests.accepted == old(requests.accepted) + SetupRequests(index, s)
    {
      var direction := Directions(s.directions);
      assert requests.accepted + [] == requests.accepted;
      if "index" in s.args {
        match Stoi(s.args["index"]) {
          case InvalidArgument => return NotANumber;
          case OutOfRange => return TooLarge;
          case Parsed(n) =>
            SetupIndex(n % 0x100, direction);
            return Configured(Codec(n % 0x100, None));
        }
      } else if "ratep" in s.args {
        var words := ParseRatePString(s.args["ratep"]);
        if words.None? {
          return Ignored;
        }
        SetupRateP(words.value, direction);
        return Configured(Codec(0, words));
      }
      return Ignored;
    }

    method GetFramingBits() returns (bits: Byte)
      ensures bits == FramingBits(Codec(codecIndex, ratep))
      ensures codecIndex in INDEX_HINTS ==> bits == INDEX_HINTS[codecIndex]
      ensures codecIndex !in INDEX_HINTS && ratep.None? ==> bits == 0
      ensures codecIndex !in INDEX_HINTS && ratep.Some? && ratep.value in {DSTAR, YSF_VW} ==> bits == IntendedBits(ratep.value)
    {
      if codecIndex == 33 {
        return 72;
      } else if codecIndex == 34 {
        return 49;
      } else if codecIndex == 59 {
        return 144;
      }
      if ratep.Some? {
        if ratep.value == DSTAR {
          return 72;
        }
        if ratep.value != [] && ratep.value[0] == YSF_VW[0] {
          return 144;
        }
      }
      return 0;
    }

    method Decode(input: seq<Byte>)
      requires index <= 3
      modifies requests
      ensures requests.accepted == old(requests.accepted) + [DecodePacket(index, input)]
    {
      var p := NewChannelPacket(index, input, 8 * |input| % 0x100);
      requests.WritePacket(p.data[..]);
    }

    method Encode(input: seq<Byte>)
      requires index <= 3
      modifies requests
      ensures requests.accepted == old(requests.accepted) + [EncodePacket(index, input)]
    {
      var p := NewSpeechPacket(index, input, |input| / 2 % 0x100);
      requests.WritePacket(p.data[..]);
    }

    method Receive(d: Delivery)
      modifies this`outQueue, outQueue
      ensures View() == Offered(old(View()), d)
      ensures outQueue == null || outQueue == old(outQueue)
    {
      if outQueue == null {
        return;
      }
      var r := outQueue.Push(d, false);
      if r.Refused? {
        outQueue := null;
      }
    }

    /** One read; `waits` when the queue is open and empty, so that the caller would be put to sleep. */
    method Read() returns (waits: bool, output: seq<Byte>)
      modifies outQueue
      ensures outQueue == old(outQueue)
      ensures waits <==> old(View()).queue.Some? && PopPass(old(View()).queue.value).1.MustWait?
      ensures old(View()).queue.None? ==> output == [] && View() == old(View())
      ensures old(View()).queue.Some? ==>
                var r := PopPass(old(View()).queue.value);
                && View() == old(View()).(queue := Some(r.0))
                && output == (if r.1.Taken? then Output(r.1.value) else [])
    {
      if outQueue == null {
        return false, [];
      }
      var r := outQueue.Pop();
      match r {
        case Taken(d) => return false, Output(d);
        case MustWait => return true, [];
        case _ => return false, [];
      }
    }
  }

  /** The direction flags, accumulated over the list. */
  method Directions(directions: seq<int>) returns (bits: Byte)
    ensures bits == DirectionBits(directions)
  {
    var encode, decode := false, false;
    for i := 0 to |directions|
      invariant encode <==> 0 in directions[..i]
      invariant decode <==> 1 in directions[..i]
    {
      if directions[i] == 0 {
        encode := true;
      } else if directions[i] == 1 {
        decode := true;
      }
    }
    assert directions[..|directions|] == directions;
    bits := (if encode then DIRECTION_ENCODE else 0) + (if decode then DIRECTION_DECODE else 0);
  }

  // ---------------------------------------------------------------------------
  // Framing

  /** `decode`: the bit count is cut to eight bits. */
  function DecodePacket(channel: nat, input: seq<Byte>): seq<Byte>
    requires channel <= 3
  {
    ChannelPacket(channel, input, 8 * |input| % 0x100)
  }

  /** `encode`: the sample count is cut to eight bits. */
  function EncodePacket(channel: nat, input: seq<Byte>): seq<Byte>
    requires channel <= 3
  {
    SpeechPacket(channel, input, |input| / 2 % 0x100)
  }

  /** The data bytes a receiver of the sealed packet gets out of it. */
  function Delivered(kind: Kind, packet: seq<Byte>): seq<Byte>
    requires |packet| >= 4
  {
    match Parse(Sealed(packet))
    case Accepted(k, fields) => if k == kind then DataOf(kind, fields) else []
    case _ => []
  }

  lemma DataOfThree(kind: Kind, c: Field, d: Field, k: Field)
    requires !kind.Control? && c.tag == Protocol.Channel && k.tag == Checksum && |d.raw| >= 2
    requires d.tag == if kind.Ambe? then ChanD else SpeechD
    ensures DataOf(kind, [c, d, k]) == d.raw[2..]
  {
    assert [c, d, k][..2] == [c, d];
    assert LastOf([c, d], d.tag) == Some(d);
  }

  lemma ChannelPacketDelivers(channel: nat, data: seq<Byte>, bits: Byte)
    requires channel <= 2 && BytesFor(bits) <= |data|
    ensures Delivered(Ambe, ChannelPacket(channel, data, bits)) == data[..BytesFor(bits)]
  {
    ChannelPacketRoundTrip(channel, data, bits);
    var b := ChannelPacket(channel, data, bits);
    var d := Field(ChanD, [CHANNEL_CHAND, bits] + data[..BytesFor(bits)]);
    hide Parse;
    hide Parity;
    hide ChannelPacket;
    assert d.raw[2..] == data[..BytesFor(bits)];
    DataOfThree(Ambe, Field(Protocol.Channel, [ChannelByte(channel)]), d, Field(Checksum, [PARITY_BYTE, Parity(b)]));
  }

  lemma SpeechPacketDelivers(channel: nat, data: seq<Byte>, samples: Byte)
    requires channel <= 2 && SpeechBytes(samples) <= |data|
    ensures Delivered(Audio, SpeechPacket(channel, data, samples)) == data[..SpeechBytes(samples)]
  {
    SpeechPacketRoundTrip(channel, data, samples);
    var b := SpeechPacket(channel, data, samples);
    var d := Field(SpeechD, [SPEECH_SPEECHD, samples] + data[..SpeechBytes(samples)]);
    hide Parse;
    hide Parity;
    hide SpeechPacket;
    assert d.raw[2..] == data[..SpeechBytes(samples)];
    DataOfThree(Audio, Field(Protocol.Channel, [ChannelByte(channel)]), d, Field(Checksum, [PARITY_BYTE, Parity(b)]));
  }

  lemma CutCounts(n: nat)
    ensures BytesFor(8 * n % 0x100) == n % 32
    ensures SpeechBytes(n / 2 % 0x100) == n / 2 % 0x100 * 2 <= n
  {
    assert 8 * n % 0x100 == 8 * (n % 32);
  }

  lemma PrefixIsWhole(s: seq<Byte>, n: nat)
    requires n <= |s|
    ensures s[..n] == s <==> n == |s|
  {
    assert n < |s| ==> |s[..n]| < |s|;
  }

  /** Compressed data arrives whole exactly when it is at most 31 bytes long. */
  lemma DecodeInputSurvivesIff(channel: nat, input: seq<Byte>)
    requires channel <= 2
    ensures Delivered(Ambe, DecodePacket(channel, input)) == input <==> |input| <= 31
  {
    CutCounts(|input|);
    ChannelPacketDelivers(channel, input, 8 * |input| % 0x100);
    PrefixIsWhole(input, |input| % 32);
    assert |input| % 32 == |input| <==> |input| <= 31;
    hide Delivered;
    hide ChannelPacket;
    hide BytesFor;
  }

  /** Speech arrives whole exactly when its size is even and at most 510 bytes. */
  lemma EncodeInputSurvivesIff(channel: nat, input: seq<Byte>)
    requires channel <= 2
    ensures Delivered(Audio, EncodePacket(channel, input)) == input <==> |input| % 2 == 0 && |input| <= 510
  {
    CutCounts(|input|);
    SpeechPacketDelivers(channel, input, |input| / 2 % 0x100);
    PrefixIsWhole(input, |input| / 2 % 0x100 * 2);
    assert |input| / 2 % 0x100 * 2 == |input| <==> |input| % 2 == 0 && |input| <= 510;
    hide Delivered;
    hide SpeechPacket;
    hide SpeechBytes;
  }

  /** The two forms of `setup`. */
  datatype Setup = ByIndex(index: Byte) | ByRateP(words: seq<int>)

  function AfterSetup(codec: Codec, op: Setup): Codec {
    match op
    case ByIndex(index) => Codec(index, None)
    case ByRateP(words) => Codec(0, Some(words))
  }

  function AfterSetups(codec: Codec, ops: seq<Setup>): Codec {
    if ops == [] then codec else AfterSetup(AfterSetups(codec, ops[..|ops| - 1]), ops[|ops| - 1])
  }

  /** The framing hint: bits and bytes of a compressed frame, samples and bytes of a speech frame. */
  datatype Hint = Hint(channelBits: Byte, channelBytes: nat, audioSamples: nat, audioBytes: nat)

  function Framing(codec: Codec): Option<Hint> {
    var bits := FramingBits(codec);
    if bits == 0 then None else Some(Hint(bits, BytesFor(bits), 160, 320))
  }

  /** After any sequence of set-ups at most one selection is active, and the hint is that of the last one alone. */
  lemma HintIsOfLastSetup(ops: seq<Setup>)
    ensures var codec := AfterSetups(NO_CODEC, ops);
            && (codec.index == 0 || codec.ratep.None?)
            && Framing(codec) == (if ops == [] then None else Framing(AfterSetup(NO_CODEC, ops[|ops| - 1])))
  {
    hide FramingBits;
    if ops == [] {
      assert FramingBits(NO_CODEC) == 0 by {
        NoCodecNoHint();
      }
    }
  }

  lemma NoCodecNoHint()
    ensures FramingBits(NO_CODEC) == 0
  {
  }

  /** Frames of the sizes hinted after any sequence of set-ups reach the chip whole in both directions. */
  lemma HintsAreSufficient(ops: seq<Setup>, channel: nat, frame: seq<Byte>, speech: seq<Byte>)
    requires channel <= 2 && Framing(AfterSetups(NO_CODEC, ops)).Some?
    requires |frame| == Framing(AfterSetups(NO_CODEC, ops)).value.channelBytes
    requires |speech| == Framing(AfterSetups(NO_CODEC, ops)).value.audioBytes
    ensures Delivered(Ambe, DecodePacket(channel, frame)) == frame
    ensures Delivered(Audio, EncodePacket(channel, speech)) == speech
  {
    HintSizes(AfterSetups(NO_CODEC, ops));
    DecodeInputSurvivesIff(channel, frame);
    EncodeInputSurvivesIff(channel, speech);
    hide Delivered;
    hide DecodePacket;
    hide EncodePacket;
    hide FramingBits;
  }

  lemma HintSizes(codec: Codec)
    ensures Framing(codec).Some? ==> Framing(codec).value.channelBytes <= 31 && Framing(codec).value.audioBytes == 320
  {
    assert BytesFor(72) == 9 && BytesFor(49) == 7 && BytesFor(144) == 18;
    assert FramingBits(codec) in {0, 49, 72, 144};
  }

  // ---------------------------------------------------------------------------
  // Set-up requests

  ghost predicate Settable(codec: Codec) {
    match codec.ratep
    case None => true
    case Some(words) => codec.index == 0 && |words| == 6 && forall i :: 0 <= i < 6 ==> -0x8000 <= words[i] < 0x8000
  }

  lemma WordsAreCarried(words: seq<int>, others: seq<int>)
    requires |words| == 6 && |others| == 6 && WordBytes(words) == WordBytes(others)
    requires forall i :: 0 <= i < 6 ==> -0x8000 <= words[i] < 0x8000 && -0x8000 <= others[i] < 0x8000
    ensures words == others
  {
    forall i | 0 <= i < 6 ensures words[i] == others[i] {
      assert WordBytes(words)[2 * i..2 * i + 2] == WordBytes(others)[2 * i..2 * i + 2];
      NetworkOrderRoundTrip(words[i]);
      NetworkOrderRoundTrip(others[i]);
    }
  }

  /** A set-up request determines the channel, the codec and the direction it is for. */
  lemma SetupRequestsAreDistinct(c1: nat, codec1: Codec, d1: Byte, c2: nat, codec2: Codec, d2: Byte)
    requires c1 <= 3 && c2 <= 3 && Settable(codec1) && Settable(codec2)
    requires SetupPacket(c1, codec1, d1) == SetupPacket(c2, codec2, d2)
    ensures c1 == c2 && codec1 == codec2 && d1 == d2
  {
    var p, q := SetupPacket(c1, codec1, d1), SetupPacket(c2, codec2, d2);
    assert |p| == (if codec1.ratep.None? then 11 else 22) && |q| == (if codec2.ratep.None? then 11 else 22);
    assert p[4] == ChannelByte(c1) && q[4] == ChannelByte(c2);
    if codec1.ratep.None? {
      assert p[6] == codec1.index && q[6] == codec2.index && p[8] == d1 && q[8] == d2;
    } else {
      assert p[19] == d1 && q[19] == d2;
      assert p[6..18] == WordBytes(codec1.ratep.value) && q[6..18] == WordBytes(codec2.ratep.value);
      WordsAreCarried(codec1.ratep.value, codec2.ratep.value);
    }
  }

  /**
   From the client's text to the wire: the request for an accepted `ratep` text carries just the bytes its digits
   stand for, exactly when each word is four hexadecimal digits and not above 0x7fff.
   */
  lemma RatePTextReachesTheWireIff(channel: nat, s: Settings, direction: Byte)
    requires channel <= 3 && "index" !in s.args && "ratep" in s.args && ParseRateP(s.args["ratep"]).Some?
    ensures Negotiate(s).Configured? && |s.args["ratep"]| == 29
    ensures var text := s.args["ratep"]; var packet := SetupPacket(channel, Negotiate(s).codec, direction);
            && |packet| == 22
            && (forall k :: 0 <= k < 6 ==> GoesOut(packet[6 + 2 * k..8 + 2 * k], Piece(text, k)))
            && ((forall k :: 0 <= k < 6 ==> Carries(packet[6 + 2 * k..8 + 2 * k], Piece(text, k)))
                <==> forall k :: 0 <= k < 6 ==> IsHexText(Piece(text, k)) && Value(Piece(text, k), 16) < 0x8000)
  {
    var text := s.args["ratep"];
    TextToWire(text);
    var words := ParseRateP(text).value;
    var bytes := WordBytes(words);
    var packet := SetupPacket(channel, Negotiate(s).codec, direction);
    assert packet[6..18] == bytes;
    forall k | 0 <= k < 6 ensures packet[6 + 2 * k..8 + 2 * k] == bytes[2 * k..2 * k + 2] {
      assert packet[6 + 2 * k..8 + 2 * k] == packet[6..18][2 * k..2 * k + 2];
    }
    hide WordBytes;
    hide GoesOut;
    hide Carries;
    hide Value;
    hide SetupPacket;
    assert forall k :: 0 <= k < 6 ==> GoesOut(bytes[2 * k..2 * k + 2], Piece(text, k));
  }

  // ---------------------------------------------------------------------------
  // The hint for control words

  /** The hint the table of known control words stands for. */
  function IntendedBits(words: seq<int>): Byte {
    if words == DSTAR then 72 else if words == YSF_VW then 144 else 0
  }

  /** The hint for control words is the intended one except when just the first word is that of the second entry. */
  lemma RatePHintIsIntendedIff(words: seq<int>)
    requires |words| == 6
    ensures FramingBits(Codec(0, Some(words))) == IntendedBits(words) <==> words[0] != YSF_VW[0] || words == YSF_VW
  {
    assert DSTAR[0] != YSF_VW[0];
  }

  /** A set of words the second entry does not mean but is taken for. */
  lemma RatePHintCounterexample()
    ensures var words := [0x0558, 0, 0, 0, 0, 0];
            FramingBits(Codec(0, Some(words))) == 144 && IntendedBits(words) == 0
  {
    var words := [0x0558, 0, 0, 0, 0, 0];
    assert words[1] != YSF_VW[1] && words[0] != DSTAR[0];
  }

  // ---------------------------------------------------------------------------
  // What a reader gets

  datatype Use = Arrives(d: Delivery) | Reads

  /** A channel in use: what arrived while it had a queue, and what its reader took. */
  datatype Log = Log(view: ChannelView, arrived: seq<Delivery>, read: seq<Delivery>)

  function Used(log: Log, use: Use): Log {
    match use
    case Arrives(d) =>
      Log(Offered(log.view, d), if log.view.queue.Some? then log.arrived + [d] else log.arrived, log.read)
    case Reads =>
      match log.view.queue
      case None => log
      case Some(q) =>
        var r := PopPass(q);
        Log(log.view.(queue := Some(r.0)), log.arrived, if r.1.Taken? then log.read + [r.1.value] else log.read)
  }

  function UsedAll(log: Log, uses: seq<Use>): Log {
    if uses == [] then log else Used(UsedAll(log, uses[..|uses| - 1]), uses[|uses| - 1])
  }

  /**
   After a reservation everything that arrives is read or waits to be read, in the order it arrived. The queue closes
   exactly when something arrives while ten deliveries are unread: that one and those ten are lost, the others were
   read in order.
   */
  lemma {:induction false} ReadersGetWhatArrives(v: ChannelView, uses: seq<Use>)
    ensures var log := UsedAll(Log(Reserved(v), [], []), uses);
            && log.view.busy && log.view.codec == v.codec
            && log.read <= log.arrived
            && (log.view.queue.Some? ==>
                  log.view.queue.value.run && log.arrived == log.read + log.view.queue.value.items)
            && (log.view.queue.Some? <==> |log.arrived| <= |log.read| + 10)
            && |log.arrived| <= |log.read| + 11
            && (log.view.queue.Some? ==> log.view.queue.value.maxSize == 10)
  {
    if uses != [] {
      var n := |uses| - 1;
      ReadersGetWhatArrives(v, uses[..n]);
      var before := UsedAll(Log(Reserved(v), [], []), uses[..n]);
      assert UsedAll(Log(Reserved(v), [], []), uses) == Used(before, uses[n]);
      hide UsedAll;
      hide Reserved;
      UseKeepsLog(before, uses[n]);
    }
  }

  ghost predicate LogInv(log: Log) {
    && log.read <= log.arrived && |log.arrived| <= |log.read| + 11
    && (log.view.queue.Some? <==> |log.arrived| <= |log.read| + 10)
    && (log.view.queue.Some? ==>
          var q := log.view.queue.value; q.run && q.maxSize == 10 && log.arrived == log.read + q.items)
  }

  lemma UseKeepsLog(log: Log, use: Use)
    requires LogInv(log)
    ensures LogInv(Used(log, use)) && Used(log, use).view.busy == log.view.busy && Used(log, use).view.codec == log.view.codec
  {
  }

  /** A delivery reaches a waiting reader: it is what the next read takes. */
  lemma DeliveryReachesReader(v: ChannelView, d: Delivery)
    ensures var log := UsedAll(Log(Reserved(v), [], []), [Arrives(d), Reads]);
            log.read == [d] && log.view == Reserved(v)
  {
    assert [Arrives(d), Reads][..1] == [Arrives(d)] && [Arrives(d)][..0] == [];
    var start := Log(Reserved(v), [], []);
    assert UsedAll(start, []) == start;
    assert UsedAll(start, [Arrives(d)]) == Used(start, Arrives(d));
    assert ([] + [d])[1..] == [];
  }

  /** The bytes of compressed data come out as they arrived, those of speech with each pair swapped. */
  lemma OutputBytes(d: Delivery)
    ensures !d.kind.Audio? ==> Output(d) == d.data
    ensures d.kind.Audio? ==>
              && |Output(d)| == 2 * (|d.data| / 2)
              && forall i :: 0 <= i < |d.data| / 2 ==> Output(d)[2 * i] == d.data[2 * i + 1] && Output(d)[2 * i + 1] == d.data[2 * i]
  {
    if d.kind.Audio? {
      var values := BigEndianValues(d.data);
      forall i | 0 <= i < |d.data| / 2
        ensures Output(d)[2 * i] == d.data[2 * i + 1] && Output(d)[2 * i + 1] == d.data[2 * i]
      {
        SwapPair(d.data[2 * i], d.data[2 * i + 1]);
        assert HostImage(values)[2 * i] == HostOrder(values[i])[0];
      }
    }
  }

  // ---------------------------------------------------------------------------
  // From the client's settings to the chip

  /** Flag 1 stands for encoding, flag 2 for decoding. */
  lemma DirectionFlags(directions: seq<int>)
    ensures DirectionBits(directions) < 4
    ensures DirectionBits(directions) % 2 == 1 <==> 0 in directions
    ensures DirectionBits(directions) / 2 == 1 <==> 1 in directions
  {
  }

  /** A decimal index is sent modulo 256, whatever else the settings hold, with the flags of the directions. */
  lemma IndexTextReachesTheWire(channel: nat, s: Settings)
    requires channel <= 3 && "index" in s.args
    requires s.args["index"] != "" && AllDigits(s.args["index"], 10) && Value(s.args["index"], 10) < 0x8000_0000
    ensures var n := Value(s.args["index"], 10); var direction := DirectionBits(s.directions);
            SetupRequests(channel, s)
            == [[0x61, 0, 7, 0, 0x40 + channel, 0x09, n % 256, 0x0b, direction, 0x2f, 0]]
  {
    DigitsAreRead(s.args["index"]);
    var n := Value(s.args["index"], 10);
    hide Value;
    hide Stoi;
    SetupIndexBytes(channel, n % 256, DirectionBits(s.directions));
    hide SetupIndexPacket;
  }

  /** Without an index an accepted `ratep` text is sent as its six words, with the flags of the directions. */
  lemma RatePReachesTheWire(channel: nat, s: Settings)
    requires channel <= 3 && "index" !in s.args && "ratep" in s.args && ParseRateP(s.args["ratep"]).Some?
    ensures var words := ParseRateP(s.args["ratep"]).value; var direction := DirectionBits(s.directions);
            SetupRequests(channel, s)
            == [[0x61, 0, 18, 0, 0x40 + channel, 0x0a] + WordBytes(words) + [0x0b, direction, 0x2f, 0]]
  {
    SetupRatePBytes(channel, ParseRateP(s.args["ratep"]).value, DirectionBits(s.directions));
    hide SetupRatePPacket;
    hide ParseRateP;
  }

  /** Settings send nothing and change no codec exactly when they hold neither a usable index nor, without index, usable words. */
  lemma OtherSettingsDoNothing(channel: nat, v: ChannelView, s: Settings)
    requires channel <= 3
    ensures SetupRequests(channel, s) == []
       <==> if "index" in s.args then !Stoi(s.args["index"]).Parsed?
            else "ratep" in s.args ==> ParseRateP(s.args["ratep"]).None?
    ensures SetupRequests(channel, s) == [] ==> Negotiated(v, s) == v
    ensures Negotiated(v, s).busy == v.busy && Negotiated(v, s).queue == v.queue
  {
    hide Stoi;
    hide ParseRateP;
    hide SetupIndexPacket;
    hide SetupRatePPacket;
  }

  /** The hints: 72, 49 and 144 bits for the indices 33, 34 and 59 and the two known sets of words. */
  lemma KnownHints(index: Byte)
    ensures FramingBits(Codec(index, None))
         == if index == 33 then 72 else if index == 34 then 49 else if index == 59 then 144 else 0
    ensures FramingBits(Codec(0, Some([0x0130, 0x0763, 0x4000, 0x0000, 0x0000, 0x0048]))) == 72
    ensures FramingBits(Codec(0, Some([0x0558, 0x086b, 0x1030, 0x0000, 0x0000, 0x0190]))) == 144
  {
    assert [0x0558, 0x086b, 0x1030, 0x0000, 0x0000, 0x0190][0] != DSTAR[0];
  }

  /** A hint names the least number of bytes that hold its bits, and 20 milliseconds of speech. */
  lemma HintFitsItsBits(codec: Codec)
    ensures Framing(codec).None? <==> FramingBits(codec) == 0
    ensures Framing(codec).Some? ==>
              var h := Framing(codec).value;
              && h.channelBits == FramingBits(codec)
              && 8 * (h.channelBytes - 1) < h.channelBits <= 8 * h.channelBytes
              && h.audioSamples == 160 && h.audioBytes == 2 * h.audioSamples
  {
    hide FramingBits;
  }
}
