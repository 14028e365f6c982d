/**
 Reading packets from the serial line. The line is the byte stream still to come and, for each coming call
 of `read`, how many bytes it delivers at most; a timeout is a read of no bytes.
 */
module Serial {
  import opened Bytes
  import opened Protocol
  import opened Packets

  /** How often header and payload are each tried before giving up. */
  const TRIES: nat := 10

  datatype LineState = LineState(stream: seq<Byte>, arrivals: seq<nat>)

  /** What the memory of a fresh allocation happens to hold. */
  type Memory = nat -> Byte

  datatype Received = NoPacket | BadLength | Got(bytes: seq<Byte>)

  function Min(a: nat, b: nat): nat { if a < b then a else b }

  /** The bytes one `read` asked for `n` of them delivers. */
  function Delivered(l: LineState, n: nat): nat {
    if l.arrivals == [] then 0 else Min(Min(n, l.arrivals[0]), |l.stream|)
  }

  function AfterRead(l: LineState, n: nat): LineState {
    LineState(l.stream[Delivered(l, n)..], if l.arrivals == [] then [] else l.arrivals[1..])
  }

  /** Reading until `need` bytes are there or `tries` reads are used up. */
  function Fill(l: LineState, need: nat, tries: nat): (r: (seq<Byte>, LineState))
    ensures |r.0| <= need && |l.stream| == |r.0| + |r.1.stream|
    decreases tries
  {
    if tries == 0 then ([], l)
    else
      var k := Delivered(l, need);
      var next := AfterRead(l, need);
      if k == need then (l.stream[..k], next)
      else
        var (more, last) := Fill(next, need - k, tries - 1);
        (l.stream[..k] + more, last)
  }

  /** A buffer of `size` bytes of which only the first ones have been written. */
  function Padded(written: seq<Byte>, size: nat, stale: Memory): (b: seq<Byte>)
    requires |written| <= size
    ensures |b| == size
  {
    written + seq(size - |written|, i requires 0 <= i => stale(|written| + i))
  }

  /** One `receiveFrom`, up to the call of `parse`. */
  function Receive(l: LineState, stale: Memory, tries: nat): (Received, LineState) {
    var (header, l1) := Fill(l, 4, tries);
    if |header| < 4 || header[0] != START_BYTE then (NoPacket, l1)
    else
      var length := FromNetwork(header[1], header[2]);
      if length < 0 then (BadLength, l1)
      else
        var (payload, l2) := Fill(l1, length, tries);
        (Got(Padded(header + payload, 4 + length, stale)), l2)
  }

  class Line {
    var stream: seq<Byte>
    var arrivals: seq<nat>

    function State(): LineState
      reads this
    {
      LineState(stream, arrivals)
    }

    constructor (stream: seq<Byte>, arrivals: seq<nat>)
      ensures State() == LineState(stream, arrivals)
    {
      this.stream := stream;
      this.arrivals := arrivals;
    }

    method Read(n: nat) returns (chunk: seq<Byte>)
      modifies this
      ensures chunk == old(stream)[..Delivered(old(State()), n)] && State() == AfterRead(old(State()), n)
    {
      var k := Delivered(State(), n);
      chunk := stream[..k];
      stream := stream[k..];
      arrivals := if arrivals == [] then [] else arrivals[1..];
    }
  }

  /** One more read of a loop that has `tries` left. */
  lemma FillStep(l: LineState, need: nat, tries: nat)
    requires tries > 0
    ensures var k := Delivered(l, need); var r := Fill(AfterRead(l, need), need - k, tries - 1);
            Fill(l, need, tries) == if k == need then (l.stream[..k], AfterRead(l, need)) else (l.stream[..k] + r.0, r.1)
  {
  }

  /** A read loop meant to end in `goal` that has `got` some bytes and has `tries` left. */
  ghost predicate Filling(goal: (seq<Byte>, LineState), got: seq<Byte>, l: LineState, need: nat, tries: nat) {
    goal == (got + Fill(l, need, tries).0, Fill(l, need, tries).1)
  }

  lemma FillingStep(goal: (seq<Byte>, LineState), got: seq<Byte>, l: LineState, need: nat, tries: nat)
    requires tries > 0 && Filling(goal, got, l, need, tries)
    ensures var k := Delivered(l, need); var next := got + l.stream[..k];
            && (k == need ==> goal == (next, AfterRead(l, need)))
            && (k < need ==> Filling(goal, next, AfterRead(l, need), need - k, tries - 1))
  {
    FillStep(l, need, tries);
    var k := Delivered(l, need);
    var r := Fill(AfterRead(l, need), need - k, tries - 1);
    hide Fill;
    assert got + (l.stream[..k] + r.0) == got + l.stream[..k] + r.0;
  }

  lemma FillingStarts(l: LineState, need: nat, tries: nat)
    ensures Filling(Fill(l, need, tries), [], l, need, tries)
  {
    var r := Fill(l, need, tries);
    hide Fill;
    assert [] + r.0 == r.0;
  }

  lemma FillingEnds(goal: (seq<Byte>, LineState), got: seq<Byte>, l: LineState, need: nat)
    requires Filling(goal, got, l, need, 0)
    ensures goal == (got, l)
  {
    assert got + [] == got;
  }

  /** The read loop of `receiveFrom`: at most ten reads into `b` at `at`; `remain` bytes stay missing. */
  method FillBuffer(line: Line, b: array<Byte>, at: nat, need: nat) returns (remain: nat)
    requires at + need <= b.Length
    modifies line, b
    ensures var r := Fill(old(line.State()), need, TRIES);
            && remain == need - |r.0| && line.State() == r.1
            && b[..] == Splice(old(b[..]), at, r.0)
  {
    hide Fill;
    remain := need;
    ghost var goal := Fill(line.State(), need, TRIES);
    ghost var got: seq<Byte> := [];
    FillingStarts(line.State(), need, TRIES);
    assert b[..] == Splice(b[..], at, []);
    hide Splice;
    hide Filling;
    var i := 0;
    while i < TRIES
      invariant 0 <= i <= TRIES && |got| == need - remain <= need
      invariant b[..] == Splice(old(b[..]), at, got)
      invariant Filling(goal, got, line.State(), remain, TRIES - i)
      decreases TRIES - i
    {
      FillingStep(goal, got, line.State(), remain, TRIES - i);
      var chunk := line.Read(remain);
      SpliceTwice(old(b[..]), at, got, chunk);
      CopyInto(b, at + (need - remain), chunk);
      remain := remain - |chunk|;
      got := got + chunk;
      i := i + 1;
      if remain == 0 {
        return;
      }
    }
    FillingEnds(goal, got, line.State(), remain);
  }

  lemma PaddedIsSpliced(b: seq<Byte>, header: seq<Byte>, payload: seq<Byte>, stale: Memory)
    requires |header| == 4 && 4 + |payload| <= |b| && forall i :: 0 <= i < |b| ==> b[i] == stale(i)
    ensures Splice(Splice(b, 0, header), 4, payload) == Padded(header + payload, |b|, stale)
  {
  }

  /** The reading half of `receiveFrom`; `stale` is what the allocator hands out. */
  method ReceiveBytes(line: Line, stale: Memory) returns (b: array?<Byte>, ghost outcome: Received)
    modifies line
    ensures (outcome, line.State()) == Receive(old(line.State()), stale, TRIES)
    ensures b != null <==> outcome.Got?
    ensures b != null ==> fresh(b) && b.Length >= 4 && b[..] == outcome.bytes
  {
    hide Fill;
    ghost var h := Fill(line.State(), 4, TRIES);
    var header := new Byte[4];
    var remain := FillBuffer(line, header, 0, 4);
    if remain > 0 || header[0] != START_BYTE {
      return null, NoPacket;
    }
    assert header[..] == h.0;
    var length := FromNetwork(header[1], header[2]);
    if length < 0 {
      return null, BadLength;
    }
    b := new Byte[length + 4](i => stale(i));
    ghost var blank := b[..];
    assert forall i :: 0 <= i < |blank| ==> blank[i] == stale(i);
    CopyInto(b, 0, header[..]);
    ghost var payload := Fill(h.1, length, TRIES).0;
    PaddedIsSpliced(blank, h.0, payload, stale);
    hide Splice;
    hide Padded;
    remain := FillBuffer(line, b, 4, length);
    outcome := Got(b[..]);
  }

  /** Receives one packet: null when nothing complete arrived or it did not parse. */
  method ReceiveFrom(line: Line, stale: Memory) returns (p: Packet?, ghost outcome: Received)
    modifies line
    ensures (outcome, line.State()) == Receive(old(line.State()), stale, TRIES)
    ensures p != null <==> outcome.Got? && |outcome.bytes| >= 4 && Parse(outcome.bytes).Accepted?
    ensures p != null ==> fresh(p) && p.Valid() && p.data[..] == outcome.bytes && p.kind == Parse(outcome.bytes).kind
                          && p.stored == Slots(Parse(outcome.bytes).fields, 4)
  {
    hide Receive;
    var b;
    b, outcome := ReceiveBytes(line, stale);
    if b == null {
      return null, outcome;
    }
    hide Parse;
    var aborted;
    p, aborted := ParsePacket(b);
  }

  // ---------------------------------------------------------------------------
  // Reassembly

  /** The reads left over once `need` bytes were completed within `tries` of them, if they were. */
  function Takes(arrivals: seq<nat>, need: nat, tries: nat): Option<seq<nat>>
    decreases tries
  {
    if tries == 0 then None
    else if arrivals == [] then (if need == 0 then Some([]) else None)
    else if arrivals[0] >= need then Some(arrivals[1..])
    else Takes(arrivals[1..], need - arrivals[0], tries - 1)
  }

  lemma TakeMore(s: seq<Byte>, k: nat, n: nat)
    requires k <= n <= |s|
    ensures s[..k] + s[k..][..n - k] == s[..n] && s[k..][n - k..] == s[n..]
  {
  }

  lemma {:induction false} FillTakes(l: LineState, need: nat, tries: nat)
    requires |l.stream| >= need && (tries > 0 || need > 0)
    ensures var t := Takes(l.arrivals, need, tries);
            && (t.Some? ==> Fill(l, need, tries) == (l.stream[..need], LineState(l.stream[need..], t.value)))
            && (t.None? ==> |Fill(l, need, tries).0| < need)
    decreases tries
  {
    var k := Delivered(l, need);
    if tries == 0 {
    } else if l.arrivals == [] && need > 0 {
      NoReadsLeft(l, need, tries);
    } else if k == need {
      FillStep(l, need, tries);
    } else {
      var next := AfterRead(l, need);
      FillTakes(next, need - k, tries - 1);
      FillStep(l, need, tries);
      hide Fill;
      var t := Takes(l.arrivals, need, tries);
      assert t == Takes(next.arrivals, need - k, tries - 1);
      hide Takes;
      TakeMore(l.stream, k, need);
    }
  }

  lemma {:induction false} NoReadsLeft(l: LineState, need: nat, tries: nat)
    requires l.arrivals == [] && need > 0
    ensures Fill(l, need, tries).0 == []
    decreases tries
  {
    if tries > 0 {
      NoReadsLeft(AfterRead(l, need), need, tries - 1);
    }
  }

  /** A packet whose length bytes tell its length. */
  predicate Framed(b: seq<Byte>) {
    |b| >= 4 && b[0] == START_BYTE && FromNetwork(b[1], b[2]) == |b| - 4
  }

  /** The reads left after header and payload of a packet of `size` bytes were each completed in `tries` reads. */
  function TakesPacket(arrivals: seq<nat>, size: nat, tries: nat): Option<seq<nat>>
    requires size >= 4
  {
    match Takes(arrivals, 4, tries)
    case None => None
    case Some(rest) => Takes(rest, size - 4, tries)
  }

  /** One call yields the packet at the front and nothing beyond it exactly when both parts complete in time. */
  lemma ReceiveOne(l: LineState, b: seq<Byte>, beyond: seq<Byte>, stale: Memory, tries: nat)
    requires Framed(b) && l.stream == b + beyond && tries > 0
    ensures Receive(l, stale, tries).1.stream == beyond && Receive(l, stale, tries).0 == Got(b)
       <==> TakesPacket(l.arrivals, |b|, tries).Some?
    ensures TakesPacket(l.arrivals, |b|, tries).Some? ==>
              Receive(l, stale, tries).1 == LineState(beyond, TakesPacket(l.arrivals, |b|, tries).value)
  {
    hide Fill;
    hide Takes;
    FillTakes(l, 4, tries);
    var (header, l1) := Fill(l, 4, tries);
    if Takes(l.arrivals, 4, tries).Some? {
      assert header == b[..4] && l1.stream == b[4..] + beyond;
      assert header[0] == b[0] && header[1] == b[1] && header[2] == b[2];
      var need := |b| - 4;
      hide FromNetwork;
      FillTakes(l1, need, tries);
      var (payload, l2) := Fill(l1, need, tries);
      if Takes(l1.arrivals, need, tries).Some? {
        assert payload == b[4..];
        PaddedFull(b[..4], b[4..], stale);
        hide Padded;
        assert l2.stream == beyond;
      } else {
        assert |l2.stream| > |beyond|;
      }
    } else {
      assert |header| < 4;
    }
  }

  /** A header that does not begin with 0x61 is thrown away, and nothing beyond it; so is one that is not complete. */
  lemma WrongHeaderIsRefused(l: LineState, stale: Memory, tries: nat)
    requires tries > 0 && |l.stream| >= 4
    ensures Takes(l.arrivals, 4, tries).None? ==> Receive(l, stale, tries).0 == NoPacket
    ensures Takes(l.arrivals, 4, tries).Some? && l.stream[0] != 0x61 ==>
              Receive(l, stale, tries) == (NoPacket, LineState(l.stream[4..], Takes(l.arrivals, 4, tries).value))
  {
    hide Fill;
    hide Takes;
    FillTakes(l, 4, tries);
    var (header, l1) := Fill(l, 4, tries);
    if Takes(l.arrivals, 4, tries).Some? {
      assert header[0] == l.stream[0];
    }
  }

  lemma {:induction false} TakesAfterTimeouts(arrivals: seq<nat>, n: nat, need: nat, tries: nat)
    requires need > 0 && (forall i :: 0 <= i < n <= |arrivals| ==> arrivals[i] == 0) && n < |arrivals| && arrivals[n] >= need
    ensures Takes(arrivals, need, tries) == if n < tries then Some(arrivals[n + 1..]) else None
    decreases n
  {
    if n > 0 && tries > 0 {
      TakesAfterTimeouts(arrivals[1..], n - 1, need, tries - 1);
      assert arrivals[1..][n..] == arrivals[n + 1..];
    }
  }

  /** Bytes that come after nine reads without any are in time, after ten they are not. */
  lemma TenReadsAreMade(arrivals: seq<nat>, n: nat, need: nat)
    requires need > 0 && n < |arrivals| && (forall i :: 0 <= i < n ==> arrivals[i] == 0) && arrivals[n] >= need
    ensures Takes(arrivals, need, TRIES).Some? <==> n <= 9
  {
    TakesAfterTimeouts(arrivals, n, need, TRIES);
    hide Takes;
  }

  lemma PaddedFull(header: seq<Byte>, payload: seq<Byte>, stale: Memory)
    ensures Padded(header + payload, |header| + |payload|, stale) == header + payload
  {
  }

  function Joined(packets: seq<seq<Byte>>): seq<Byte> {
    if packets == [] then [] else packets[0] + Joined(packets[1..])
  }

  function ReceiveAll(l: LineState, n: nat, stale: Memory, tries: nat): (seq<Received>, LineState)
    decreases n
  {
    if n == 0 then ([], l)
    else
      var r := Receive(l, stale, tries);
      var others := ReceiveAll(r.1, n - 1, stale, tries);
      ([r.0] + others.0, others.1)
  }

  /** However the stream is split into reads, each header and each payload completes within `tries` of them. */
  ghost predicate InTime(packets: seq<seq<Byte>>, arrivals: seq<nat>, tries: nat)
  {
    packets == [] ||
    (|packets[0]| >= 4 && TakesPacket(arrivals, |packets[0]|, tries).Some? &&
     InTime(packets[1..], TakesPacket(arrivals, |packets[0]|, tries).value, tries))
  }

  /** Repeated calls yield exactly the packets that were joined, in order, and leave what follows untouched. */
  lemma {:induction false} StreamReassembly(packets: seq<seq<Byte>>, beyond: seq<Byte>, arrivals: seq<nat>,
                                            stale: Memory, tries: nat)
    requires forall i :: 0 <= i < |packets| ==> Framed(packets[i])
    requires tries > 0 && InTime(packets, arrivals, tries)
    ensures var r := ReceiveAll(LineState(Joined(packets) + beyond, arrivals), |packets|, stale, tries);
            && r.1.stream == beyond && |r.0| == |packets|
            && forall i :: 0 <= i < |packets| ==> r.0[i] == Got(packets[i])
  {
    if packets == [] {
      assert Joined(packets) + beyond == beyond;
    } else {
      var b, others := packets[0], packets[1..];
      var l := LineState(Joined(packets) + beyond, arrivals);
      assert l.stream == b + (Joined(others) + beyond);
      ReceiveOne(l, b, Joined(others) + beyond, stale, tries);
      var left := TakesPacket(arrivals, |b|, tries).value;
      hide Receive;
      hide TakesPacket;
      StreamReassembly(others, beyond, left, stale, tries);
    }
  }

  /** A data packet for one of the channels 0 to 2: its class, the data handed to the builder, and how much of it counts. */
  datatype Sent = Sent(kind: Kind, channel: nat, data: seq<Byte>, count: Byte)

  predicate Sendable(p: Sent) {
    !p.kind.Control? && p.channel <= 2 && DataBytes(p.kind, p.count) <= |p.data|
  }

  /** The packet as it is built. */
  function Unsealed(p: Sent): (b: seq<Byte>)
    requires Sendable(p)
    ensures |b| >= 4
  {
    if p.kind.Ambe? then ChannelPacket(p.channel, p.data, p.count) else SpeechPacket(p.channel, p.data, p.count)
  }

  function Wire(packets: seq<Sent>): seq<seq<Byte>>
    requires forall p :: p in packets ==> Sendable(p)
  {
    seq(|packets|, i requires 0 <= i < |packets| => Sealed(Unsealed(packets[i])))
  }

  /** The parsed packet has just the channel, the count and the data that were sent, and the right parity. */
  ghost predicate Matches(p: Sent, r: Parsed)
    requires Sendable(p)
  {
    r == Accepted(p.kind, [Field(Tag.Channel, [ChannelByte(p.channel)]),
                           Field(if p.kind.Ambe? then ChanD else SpeechD,
                                 [if p.kind.Ambe? then CHANNEL_CHAND else SPEECH_SPEECHD, p.count]
                                 + p.data[..DataBytes(p.kind, p.count)]),
                           Field(Checksum, [PARITY_BYTE, Parity(Unsealed(p))])])
  }

  lemma SentIsFramedAndParses(p: Sent)
    requires Sendable(p)
    ensures Framed(Sealed(Unsealed(p))) && Matches(p, Parse(Sealed(Unsealed(p))))
  {
    if p.kind.Ambe? {
      ChannelPacketRoundTrip(p.channel, p.data, p.count);
    } else {
      SpeechPacketRoundTrip(p.channel, p.data, p.count);
    }
    hide Parse;
    hide Parity;
  }

  /** Data packets written one after the other are received and parsed as just those packets, in order. */
  lemma SentIsReceived(packets: seq<Sent>, beyond: seq<Byte>, arrivals: seq<nat>, stale: Memory, tries: nat)
    requires forall p :: p in packets ==> Sendable(p)
    requires tries > 0 && InTime(Wire(packets), arrivals, tries)
    ensures var r := ReceiveAll(LineState(Joined(Wire(packets)) + beyond, arrivals), |packets|, stale, tries);
            && r.1.stream == beyond && |r.0| == |packets|
            && forall i :: 0 <= i < |packets| ==>
                 r.0[i].Got? && |r.0[i].bytes| >= 4 && Matches(packets[i], Parse(r.0[i].bytes))
  {
    forall i | 0 <= i < |packets|
      ensures Framed(Wire(packets)[i]) && Matches(packets[i], Parse(Wire(packets)[i]))
    {
      SentIsFramedAndParses(packets[i]);
    }
    hide Matches;
    hide Parse;
    hide Framed;
    hide ReceiveAll;
    StreamReassembly(Wire(packets), beyond, arrivals, stale, tries);
  }

  /** Every packet a builder makes, sealed or not, is framed. */
  lemma BuiltPacketsAreFramed(kind: Byte, payload: seq<Byte>)
    requires |payload| < 0x8000
    ensures Framed(Frame(kind, payload)) && (payload != [] ==> Framed(Sealed(Frame(kind, payload))))
  {
    FrameLength(kind, payload);
  }
}
