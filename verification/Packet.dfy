/**
 Packets as the driver holds them: a byte buffer, and one member pointer for each class of field.
 Every method is proved against the value functions of `Protocol`.
 */
module Packets {
  import opened Bytes
  import opened Protocol

  /** The octets of a signed short in the memory of a little-endian host. */
  function HostOrder(n: int): (s: seq<Byte>)
    ensures |s| == 2
  {
    var u := n % 0x10000;
    [u % 256, u / 256]
  }

  /** What `getSpeechData` leaves in the client's buffer. */
  function HostImage(values: seq<int>): (s: seq<Byte>)
    ensures |s| == 2 * |values|
    ensures forall i :: 0 <= i < |values| ==> s[2 * i] == HostOrder(values[i])[0] && s[2 * i + 1] == HostOrder(values[i])[1]
  {
    if values == [] then []
    else
      HostImage(values[..|values| - 1]) + HostOrder(values[|values| - 1])
  }

  lemma SwapPair(hi: Byte, lo: Byte)
    ensures HostOrder(FromNetwork(hi, lo)) == [lo, hi]
  {
    assert FromNetwork(hi, lo) % 0x10000 == hi * 256 + lo;
  }

  /** Byte pairs read as big-endian signed shorts. */
  function BigEndianValues(data: seq<Byte>): (values: seq<int>)
    ensures |values| == |data| / 2
    ensures forall i :: 0 <= i < |values| ==> values[i] == FromNetwork(data[2 * i], data[2 * i + 1])
  {
    seq(|data| / 2, i requires 0 <= i < |data| / 2 => FromNetwork(data[2 * i], data[2 * i + 1]))
  }

  /**
   Speech bytes go to the chip as they are and come back byte-swapped, because only the way back converts.
   An echo reproduces the client's bytes exactly when both bytes of every pair are the same.
   */
  lemma EchoSwapsBytes(data: seq<Byte>)
    requires |data| % 2 == 0
    ensures var echo := HostImage(BigEndianValues(data));
            && |echo| == |data|
            && (forall i :: 0 <= i < |data| / 2 ==> echo[2 * i] == data[2 * i + 1] && echo[2 * i + 1] == data[2 * i])
            && (echo == data <==> forall i :: 0 <= i < |data| / 2 ==> data[2 * i] == data[2 * i + 1])
  {
    var values := BigEndianValues(data);
    var echo := HostImage(values);
    forall i | 0 <= i < |data| / 2 ensures echo[2 * i] == data[2 * i + 1] && echo[2 * i + 1] == data[2 * i] {
      SwapPair(data[2 * i], data[2 * i + 1]);
      assert echo[2 * i] == HostOrder(values[i])[0] && echo[2 * i + 1] == HostOrder(values[i])[1];
    }
    hide HostImage;
    hide BigEndianValues;
    if forall i :: 0 <= i < |data| / 2 ==> data[2 * i] == data[2 * i + 1] {
      forall j | 0 <= j < |data| ensures echo[j] == data[j] {
        var i := j / 2;
        assert data[2 * i] == data[2 * i + 1];
        assert j == 2 * i || j == 2 * i + 1;
      }
    }
    if echo == data {
      forall i | 0 <= i < |data| / 2 ensures data[2 * i] == data[2 * i + 1] {
        assert echo[2 * i] == data[2 * i + 1];
      }
    }
  }

  /** Control packets keep the channel in a pointer of their own. */
  function ChannelTag(kind: Kind): Tag { if kind.Control? then ChannelStatus else Channel }

  /** The number in the last channel field. */
  function ChannelOf(kind: Kind, fields: seq<Field>): Option<int> {
    match LastOf(fields, ChannelTag(kind))
    case None => None
    case Some(f) => if f.raw == [] then None else Some(f.raw[0] - CHANNEL_BASE)
  }

  /** The bytes the last data field of a packet carries. */
  function DataOf(kind: Kind, fields: seq<Field>): seq<Byte> {
    match LastOf(fields, if kind.Ambe? then ChanD else SpeechD)
    case None => []
    case Some(f) => if |f.raw| < 2 then [] else f.raw[2..]
  }

  function DataBytes(kind: Kind, count: Byte): nat {
    if kind.Ambe? then BytesFor(count) else SpeechBytes(count)
  }

  lemma Within(b: seq<Byte>, at: nat, raw: seq<Byte>)
    requires raw != [] && at + |raw| <= |b| && b[at..at + |raw|] == raw
    ensures b[at] == raw[0]
    ensures |raw| >= 2 ==> b[at + 1] == raw[1] && b[at + 2..at + |raw|] == raw[2..]
  {
    assert raw[0] == b[at..at + |raw|][0];
    if |raw| >= 2 {
      assert raw[1] == b[at..at + |raw|][1];
    }
  }

  /** A channel field that starts at `at` holds one of the three channel numbers. */
  lemma ChannelFieldRead(kind: Kind, f: Field, b: seq<Byte>, at: nat)
    requires f.tag == ChannelTag(kind) && f.raw != [] && at + |f.raw| <= |b| && b[at..at + |f.raw|] == f.raw
    requires Fits(kind, f, b[at..])
    ensures b[at] == f.raw[0] && CHANNEL_BASE <= b[at] <= CHANNEL_BASE + 2
  {
    DataFieldShape(kind, f, b[at..]);
    Within(b, at, f.raw);
  }

  /** `getChannel` reads at the offset of the channel pointer. */
  lemma ChannelRead(kind: Kind, b: seq<Byte>)
    requires |b| >= 4
    ensures var tag := ChannelTag(kind);
            var fields := Scan(kind, b[4..]).fields; var slots := Slots(fields, 4);
            && (tag !in slots ==> ChannelOf(kind, fields) == None)
            && (tag in slots ==> slots[tag] < |b| && CHANNEL_BASE <= b[slots[tag]] <= CHANNEL_BASE + 2
                                 && ChannelOf(kind, fields) == Some(b[slots[tag]] - CHANNEL_BASE))
  {
    hide Fits;
    hide Scan;
    hide Slots;
    hide LastOf;
    var tag := ChannelTag(kind);
    var fields := Scan(kind, b[4..]).fields;
    var slots := Slots(fields, 4);
    SlotHoldsLast(kind, b, tag);
    if tag in slots {
      ChannelFieldRead(kind, LastOf(fields, tag).value, b, slots[tag]);
    }
  }

  /** A data field that starts at `at` has its bytes behind tag and count byte. */
  lemma DataFieldRead(kind: Kind, f: Field, b: seq<Byte>, at: nat)
    requires !kind.Control? && f.tag == (if kind.Ambe? then ChanD else SpeechD)
    requires f.raw != [] && at + |f.raw| <= |b| && b[at..at + |f.raw|] == f.raw && Fits(kind, f, b[at..])
    ensures |f.raw| >= 2 && |f.raw| == 2 + DataBytes(kind, b[at + 1])
    ensures f.raw[2..] == b[at + 2..at + 2 + DataBytes(kind, b[at + 1])]
  {
    DataFieldShape(kind, f, b[at..]);
    Within(b, at, f.raw);
  }

  /** `getChannelData` and `getSpeechData` copy what follows tag and count byte at the offset of the pointer. */
  lemma DataRead(kind: Kind, b: seq<Byte>)
    requires |b| >= 4 && !kind.Control?
    ensures var tag := if kind.Ambe? then ChanD else SpeechD;
            var fields := Scan(kind, b[4..]).fields; var slots := Slots(fields, 4);
            && (tag !in slots ==> DataOf(kind, fields) == [])
            && (tag in slots ==>
                  var at := slots[tag];
                  && at + 2 <= |b| && at + 2 + DataBytes(kind, b[at + 1]) <= |b|
                  && DataOf(kind, fields) == b[at + 2..at + 2 + DataBytes(kind, b[at + 1])])
  {
    hide Fits;
    hide Scan;
    hide Slots;
    hide LastOf;
    var tag := if kind.Ambe? then ChanD else SpeechD;
    var fields := Scan(kind, b[4..]).fields;
    var slots := Slots(fields, 4);
    SlotHoldsLast(kind, b, tag);
    if tag in slots {
      DataFieldRead(kind, LastOf(fields, tag).value, b, slots[tag]);
    }
  }

  /** A scan of packet `b` that has stored the fields `done` in `slots` and goes on at `current`. */
  ghost predicate Progress(kind: Kind, b: seq<Byte>, done: seq<Field>, current: nat, slots: map<Tag, nat>) {
    && 4 <= current <= |b| && current == 4 + |Flatten(done)| && slots == Slots(done, 4)
    && var r := Scan(kind, b[current..]);
       Scan(kind, b[4..]) == r.(fields := done + r.fields)
  }

  lemma ScanBegins(kind: Kind, b: seq<Byte>)
    requires |b| >= 4
    ensures Progress(kind, b, [], 4, map[])
  {
    assert [] + Scan(kind, b[4..]).fields == Scan(kind, b[4..]).fields;
  }

  lemma ScanAdvances(kind: Kind, b: seq<Byte>, done: seq<Field>, current: nat, slots: map<Tag, nat>, f: Build)
    requires Progress(kind, b, done, current, slots) && current < |b|
    requires f == BuildField(kind, b[current..]) && f.Built? && 0 < f.len <= |b| - current
    ensures Progress(kind, b, done + [Field(f.tag, b[current..][..f.len])], current + f.len, slots[f.tag := current])
  {
    hide BuildField;
    var field := Field(f.tag, b[current..][..f.len]);
    assert b[current..][f.len..] == b[current + f.len..];
    var tail := Scan(kind, b[current + f.len..]);
    assert Scan(kind, b[current..]) == tail.(fields := [field] + tail.fields);
    assert done + ([field] + tail.fields) == done + [field] + tail.fields;
    FlattenConcat(done, [field]);
    assert [field][1..] == [];
    SlotsAppend(done, field, 4);
  }

  lemma ScanHalts(kind: Kind, b: seq<Byte>, done: seq<Field>, current: nat, slots: map<Tag, nat>, stop: Stop)
    requires Progress(kind, b, done, current, slots) && StopsAt(kind, b[current..], stop)
    ensures var r := Scan(kind, b[4..]); r.stop == stop && slots == Slots(r.fields, 4)
    ensures Checksum in slots ==> slots[Checksum] + 1 < |b|
  {
    assert done + [] == done;
    SlotsInside(kind, b);
  }

  class Packet {
    const kind: Kind
    const data: array<Byte>
    /** The offset each member pointer (`checksum`, `channel`, `chanD`, `ready`, ...) refers to; absent when null. */
    var stored: map<Tag, nat>

    /** A length byte or pointer that is used later lies inside the buffer. */
    ghost predicate Valid()
      reads this, data
    {
      && data.Length >= 4
      && (Checksum in stored ==> stored[Checksum] + 1 < data.Length)
    }

    /** Takes over a received buffer. */
    constructor Wrap(kind: Kind, data: array<Byte>)
      requires data.Length >= 4
      ensures Valid() && this.kind == kind && this.data == data && stored == map[]
    {
      this.kind := kind;
      this.data := data;
      this.stored := map[];
    }

    /** A zeroed buffer of `size` bytes with start byte, length and type filled in. */
    constructor Blank(size: nat, kind: Kind, kindByte: Byte)
      requires 4 <= size
      ensures Valid() && fresh(data) && stored == map[] && this.kind == kind && data.Length == size
      ensures data[..] == Frame(kindByte, seq(size - 4, _ => 0))
    {
      var b := new Byte[size](_ => 0);
      var length := NetworkOrder(size - 4);
      b[0] := START_BYTE;
      b[1] := length[0];
      b[2] := length[1];
      b[3] := kindByte;
      this.kind := kind;
      this.data := b;
      this.stored := map[];
      new;
      assert data[..] == Frame(kindByte, seq(size - 4, _ => 0));
    }

    /** Builds the fields of the payload one after the other and stores each in its member pointer. */
    method ScanFields() returns (stop: Stop)
      requires Valid() && stored == map[]
      modifies this`stored
      ensures stop == Scan(kind, data[4..]).stop
      ensures stored == Slots(Scan(kind, data[4..]).fields, 4)
      ensures Valid()
    {
      hide Progress;
      hide Scan;
      hide Slots;
      hide BuildField;
      var current := 4;
      var remaining := data.Length - 4;
      ghost var b := data[..];
      ghost var done: seq<Field> := [];
      stop := AtEnd;
      ScanBegins(kind, b);
      while remaining > 0
        invariant 0 <= remaining && current + remaining == data.Length && b == data[..]
        invariant stop == AtEnd
        invariant Progress(kind, b, done, current, stored)
        decreases remaining
      {
        assert data[current..] == b[current..];
        EveryFieldHasALength(kind, b[current..]);
        var f := BuildField(kind, data[current..]);
        if f.NoField? {
          stop := AtUnknownTag;
          break;
        } else if f.BadStatus? {
          stop := AtBadStatus;
          break;
        }
        if f.len > remaining {
          stop := AtOverlongField;
          break;
        }
        ScanAdvances(kind, b, done, current, stored, f);
        done := done + [Field(f.tag, b[current..][..f.len])];
        stored := stored[f.tag := current];
        current := current + f.len;
        remaining := remaining - f.len;
      }
      ScanHalts(kind, b, done, current, stored, stop);
      assert b[4..] == data[4..];
    }

    method GetChecksum() returns (parity: Byte)
      requires Valid()
      ensures parity == Parity(data[..])
      ensures forall k: nat :: Bit(parity, k) == Ones(data[1..data.Length - 1], k) % 2
    {
      parity := 0;
      for i := 0 to data.Length - 2
        invariant parity == XorAll(data[1..1 + i])
      {
        assert data[1..1 + (i + 1)] == data[1..1 + i] + [data[i + 1]];
        parity := ByteXor(parity, data[i + 1]);
      }
      assert data[..][1..data.Length - 1] == data[1..data.Length - 1];
      forall k: nat ensures Bit(parity, k) == Ones(data[1..data.Length - 1], k) % 2 {
        ParityOfBits(data[1..data.Length - 1], k);
      }
    }

    method UpdateChecksum()
      requires Valid()
      modifies data
      ensures Checksum !in stored ==> data[..] == old(data[..])
      ensures Checksum in stored ==> data[..] == old(data[..])[stored[Checksum] + 1 := Parity(old(data[..]))]
      ensures Checksum in stored && stored[Checksum] == data.Length - 2 ==> XorAll(data[1..]) == 0
    {
      SealedCancels(data[..]);
      hide XorAll;
      if Checksum !in stored {
        return;
      }
      var parity := GetChecksum();
      data[stored[Checksum] + 1] := parity;
      assert data[..][1..] == data[1..];
    }

    method IsChecksumValid() returns (valid: bool)
      requires Valid()
      ensures valid == ChecksumValid(data[..], stored)
    {
      if Checksum !in stored {
        return true;
      }
      var parity := GetChecksum();
      return data[stored[Checksum] + 1] == parity;
    }

    /** Sends the packet: the parity is brought up to date first. */
    method WriteTo() returns (sent: seq<Byte>)
      requires Valid()
      modifies data
      ensures sent == data[..]
      ensures Checksum in stored ==> sent == old(data[..])[stored[Checksum] + 1 := Parity(old(data[..]))]
      ensures Checksum in stored && stored[Checksum] == data.Length - 2 ==> sent == Sealed(old(data[..]))
      ensures Checksum !in stored ==> sent == old(data[..])
    {
      UpdateChecksum();
      sent := data[..];
    }

    /** The channel number of a received packet, if it carries one. */
    method GetChannel() returns (channel: Option<int>)
      requires Valid() && stored == Slots(Scan(kind, data[4..]).fields, 4)
      ensures channel == ChannelOf(kind, Scan(kind, data[4..]).fields)
      ensures channel.Some? ==> 0 <= channel.value <= 2
    {
      hide Scan;
      hide Slots;
      hide ChannelOf;
      var tag := ChannelTag(kind);
      hide ChannelTag;
      assert data[..][4..] == data[4..];
      ChannelRead(kind, data[..]);
      channel := if tag in stored then Some(data[stored[tag]] - CHANNEL_BASE) else None;
    }

    /** The bytes of a compressed-data field; nothing when there is none. */
    method GetChannelData() returns (output: seq<Byte>)
      requires Valid() && kind.Ambe? && stored == Slots(Scan(kind, data[4..]).fields, 4)
      ensures output == DataOf(kind, Scan(kind, data[4..]).fields)
    {
      assert data[..][4..] == data[4..];
      DataRead(kind, data[..]);
      hide Scan;
      hide Slots;
      hide DataOf;
      if ChanD !in stored {
        return [];
      }
      var at := stored[ChanD];
      var size := BytesFor(data[at + 1]);
      output := data[at + 2..at + 2 + size];
      assert output == data[..][at + 2..at + 2 + size];
    }

    /** The samples of a speech field, converted from network order one by one. */
    method GetSpeechData() returns (output: seq<int>)
      requires Valid() && kind.Audio? && stored == Slots(Scan(kind, data[4..]).fields, 4)
      ensures output == BigEndianValues(DataOf(kind, Scan(kind, data[4..]).fields))
    {
      assert data[..][4..] == data[4..];
      DataRead(kind, data[..]);
      hide Scan;
      hide Slots;
      hide DataOf;
      if SpeechD !in stored {
        return [];
      }
      var at := stored[SpeechD];
      output := ReadSamples(data, at + 2, data[at + 1]);
    }
  }

  /** `ntohs` applied to `samples` shorts in memory. */
  method ReadSamples(b: array<Byte>, at: nat, samples: nat) returns (output: seq<int>)
    requires at + SpeechBytes(samples) <= b.Length
    ensures output == BigEndianValues(b[..][at..at + SpeechBytes(samples)])
  {
    output := [];
    for j := 0 to samples
      invariant |output| == j
      invariant forall i :: 0 <= i < j ==> output[i] == FromNetwork(b[at + 2 * i], b[at + 2 * i + 1])
    {
      output := output + [FromNetwork(b[at + 2 * j], b[at + 2 * j + 1])];
    }
  }

  lemma SlotsAppend(fields: seq<Field>, f: Field, at: nat)
    ensures Slots(fields + [f], at) == Slots(fields, at)[f.tag := at + |Flatten(fields)|]
  {
    assert (fields + [f])[..|fields|] == fields;
  }

  /** Parses a received buffer; null for an unknown type, a wrong parity or a failed assertion. */
  method ParsePacket(b: array<Byte>) returns (p: Packet?, aborted: bool)
    requires b.Length >= 4
    ensures p != null <==> Parse(b[..]).Accepted?
    ensures aborted <==> Parse(b[..]).Aborted?
    ensures p != null ==> fresh(p) && p.Valid() && p.data == b && p.kind == Parse(b[..]).kind
                          && p.stored == Slots(Parse(b[..]).fields, 4)
                          && Parse(b[..]).fields == Scan(p.kind, b[4..]).fields
  {
    assert b[..][4..] == b[4..];
    var kind := KindOf(b[3]);
    if kind.None? {
      return null, false;
    }
    var q := new Packet.Wrap(kind.value, b);
    var stop := q.ScanFields();
    if stop.AtBadStatus? {
      return null, true;
    }
    var valid := q.IsChecksumValid();
    if !valid {
      return null, false;
    }
    return q, false;
  }

  /** A buffer after `bytes` were copied into it at `at`. */
  function Splice(b: seq<Byte>, at: nat, bytes: seq<Byte>): seq<Byte>
    requires at + |bytes| <= |b|
  {
    b[..at] + bytes + b[at + |bytes|..]
  }

  lemma SpliceTwice(b: seq<Byte>, at: nat, first: seq<Byte>, second: seq<Byte>)
    requires at + |first| + |second| <= |b|
    ensures Splice(Splice(b, at, first), at + |first|, second) == Splice(b, at, first + second)
  {
  }

  lemma SpliceByte(b: seq<Byte>, at: nat, bytes: seq<Byte>, i: nat)
    requires at + |bytes| <= |b| && i < |bytes|
    ensures Splice(b, at, bytes[..i])[at + i := bytes[i]] == Splice(b, at, bytes[..i + 1])
  {
  }

  /** `memcpy` of `bytes` into `b` at `at`. */
  method CopyInto(b: array<Byte>, at: nat, bytes: seq<Byte>)
    requires at + |bytes| <= b.Length
    modifies b
    ensures b[..] == Splice(old(b[..]), at, bytes)
  {
    for i := 0 to |bytes|
      invariant b[..] == Splice(old(b[..]), at, bytes[..i])
    {
      SpliceByte(old(b[..]), at, bytes, i);
      hide Splice;
      b[at + i] := bytes[i];
    }
    assert bytes[..|bytes|] == bytes;
  }

  /** A request whose payload is the channel byte, the given fields and an open parity field. */
  method BuildPacket(kind: Kind, kindByte: Byte, channel: nat, fields: seq<Byte>) returns (p: Packet)
    requires channel <= 3
    ensures fresh(p) && fresh(p.data) && p.Valid() && p.kind == kind
    ensures p.data[..] == Frame(kindByte, [ChannelByte(channel)] + fields + NO_PARITY)
    ensures p.stored == map[Channel := 4, Checksum := p.data.Length - 2]
  {
    p := new Packet.Blank(1 + |fields| + 2 + 4, kind, kindByte);
    var b := p.data;
    ghost var head := b[..4];
    CopyInto(b, 4, [ChannelByte(channel)]);
    assert b[..5] == head + [ChannelByte(channel)];
    CopyInto(b, 5, fields);
    assert b[..5 + |fields|] == head + [ChannelByte(channel)] + fields;
    CopyInto(b, 5 + |fields|, NO_PARITY);
    assert b[..] == head + [ChannelByte(channel)] + fields + NO_PARITY;
    p.stored := map[Channel := 4, Checksum := 5 + |fields|];
    assert b[..] == Frame(kindByte, [ChannelByte(channel)] + fields + NO_PARITY);
  }

  method NewChannelPacket(channel: nat, data: seq<Byte>, bits: Byte) returns (p: Packet)
    requires channel <= 3 && BytesFor(bits) <= |data|
    ensures fresh(p) && fresh(p.data) && p.Valid()
    ensures p.data[..] == ChannelPacket(channel, data, bits)
    ensures p.stored == map[Channel := 4, ChanD := 5, Checksum := p.data.Length - 2]
  {
    p := BuildPacket(Ambe, TYPE_AMBE, channel, [CHANNEL_CHAND, bits] + data[..BytesFor(bits)]);
    p.stored := p.stored[ChanD := 5];
  }

  method NewSpeechPacket(channel: nat, data: seq<Byte>, samples: Byte) returns (p: Packet)
    requires channel <= 3 && SpeechBytes(samples) <= |data|
    ensures fresh(p) && fresh(p.data) && p.Valid()
    ensures p.data[..] == SpeechPacket(channel, data, samples)
    ensures p.stored == map[Channel := 4, SpeechD := 5, Checksum := p.data.Length - 2]
  {
    p := BuildPacket(Audio, TYPE_AUDIO, channel, [SPEECH_SPEECHD, samples] + data[..SpeechBytes(samples)]);
    p.stored := p.stored[SpeechD := 5];
  }

  method NewSetupIndex(channel: nat, index: Byte, direction: Byte) returns (p: Packet)
    requires channel <= 3
    ensures fresh(p) && fresh(p.data) && p.Valid()
    ensures p.data[..] == SetupIndexPacket(channel, index, direction) && p.data.Length == 11
    ensures p.stored == map[Channel := 4, Checksum := p.data.Length - 2]
  {
    p := BuildPacket(Control, TYPE_CONTROL, channel, [CONTROL_RATET, index, CONTROL_INIT, direction]);
    assert [ChannelByte(channel)] + [CONTROL_RATET, index, CONTROL_INIT, direction]
        == [ChannelByte(channel), CONTROL_RATET, index, CONTROL_INIT, direction];
  }

  /** The control words of a rate, written in network order by a loop. */
  method RatePField(words: seq<int>) returns (field: seq<Byte>)
    requires |words| == 6
    ensures field == [CONTROL_RATEP] + WordBytes(words)
  {
    field := [CONTROL_RATEP];
    for i := 0 to 6
      invariant field == [CONTROL_RATEP] + WordBytes(words[..i])
    {
      assert words[..i + 1][..i] == words[..i];
      field := field + NetworkOrder(words[i]);
    }
    assert words[..6] == words;
  }

  method NewSetupRateP(channel: nat, words: seq<int>, direction: Byte) returns (p: Packet)
    requires channel <= 3 && |words| == 6
    ensures fresh(p) && fresh(p.data) && p.Valid()
    ensures p.data[..] == SetupRatePPacket(channel, words, direction) && p.data.Length == 22
    ensures p.stored == map[Channel := 4, Checksum := p.data.Length - 2]
  {
    var field := RatePField(words);
    p := BuildPacket(Control, TYPE_CONTROL, channel, field + [CONTROL_INIT, direction]);
    assert [ChannelByte(channel)] + (field + [CONTROL_INIT, direction])
        == [ChannelByte(channel), CONTROL_RATEP] + WordBytes(words) + [CONTROL_INIT, direction];
  }
}
