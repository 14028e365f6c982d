/**
 The AMBE-3000 packet format as values: which field a payload starts with, how a payload is cut into
 fields, what a received packet is parsed into, and the bytes of the packets that are built.
 The class `Packet` computes all of it in place.
 */
module Protocol {
  import opened Bytes

  const START_BYTE: Byte := 0x61
  const PARITY_BYTE: Byte := 0x2f

  const TYPE_CONTROL: Byte := 0x00
  const TYPE_AMBE: Byte := 0x01
  const TYPE_AUDIO: Byte := 0x02

  const CONTROL_RATET: Byte := 0x09
  const CONTROL_RATEP: Byte := 0x0A
  const CONTROL_INIT: Byte := 0x0B
  const CONTROL_PRODID: Byte := 0x30
  const CONTROL_VERSTRING: Byte := 0x31
  const CONTROL_READY: Byte := 0x39

  const CHANNEL_BASE: Byte := 0x40
  const CHANNEL_CHAND: Byte := 0x01
  const SPEECH_SPEECHD: Byte := 0x00

  /** The three packet classes the first type byte selects. */
  datatype Kind = Control | Ambe | Audio

  /** One per field class, which is also one per member pointer a packet keeps. */
  datatype Tag = Checksum | Ready | ProdId | Version | RateT | RateP | Init | ChannelStatus | Channel | ChanD | SpeechD

  /** What `buildField` makes of a payload: nothing, a failed assertion, or a field that claims `len` bytes. */
  datatype Build = NoField | BadStatus | Built(tag: Tag, len: nat)

  datatype Field = Field(tag: Tag, raw: seq<Byte>)

  datatype Stop = AtEnd | AtUnknownTag | AtOverlongField | AtBadStatus

  datatype ScanResult = ScanResult(fields: seq<Field>, rest: seq<Byte>, stop: Stop)

  /** `Rejected` is the null result, `Aborted` a failed assertion in a response field. */
  datatype Parsed = Rejected | Aborted | Accepted(kind: Kind, fields: seq<Field>)

  /** The index of the first NUL, or the length when there is none. */
  function NulAt(s: seq<Byte>): (n: nat)
    ensures n <= |s|
    ensures forall i :: 0 <= i < n ==> s[i] != 0
    ensures n < |s| ==> s[n] == 0
  {
    if s == [] || s[0] == 0 then 0 else 1 + NulAt(s[1..])
  }

  lemma NulAtBeyond(s: seq<Byte>, t: seq<Byte>)
    ensures NulAt(s) < |s| ==> NulAt(s + t) == NulAt(s)
    ensures NulAt(s) == |s| ==> NulAt(s + t) >= |s|
  {
    assert forall i :: 0 <= i < |s| ==> (s + t)[i] == s[i];
  }

  lemma NulAtIs(s: seq<Byte>, n: nat)
    requires n < |s| && s[n] == 0 && 0 !in s[..n]
    ensures NulAt(s) == n
  {
    assert forall i :: 0 <= i < n ==> s[i] == s[..n][i];
  }

  /** A response field whose second byte must be a zero status. */
  function BuildStatus(tag: Tag, p: seq<Byte>): Build
    requires p != []
  {
    if |p| >= 2 && p[1] != 0 then BadStatus else Built(tag, 2)
  }

  /** The bytes that hold `bits` bits. */
  function BytesFor(bits: nat): nat { (bits + 7) / 8 }

  /** The bytes that hold `samples` samples. */
  function SpeechBytes(samples: nat): nat { 2 * samples }

  /** The fields every packet class knows. */
  function BuildCommon(p: seq<Byte>): Build
    requires p != []
  {
    if p[0] == PARITY_BYTE then Built(Checksum, 2)
    else if CHANNEL_BASE <= p[0] <= CHANNEL_BASE + 2 then Built(Channel, 1)
    else NoField
  }

  /** The virtual `buildField`; where a length byte or NUL is missing, the length claimed exceeds `p`. */
  function BuildField(kind: Kind, p: seq<Byte>): Build
    requires p != []
  {
    match kind
    case Control =>
      if p[0] == CONTROL_READY then Built(Ready, 1)
      else if p[0] == CONTROL_PRODID then
        (var n := NulAt(p[1..]); if n < |p| - 1 then Built(ProdId, n + 2) else Built(ProdId, |p| + 1))
      else if p[0] == CONTROL_VERSTRING then Built(Version, 49)
      else if p[0] == CONTROL_RATET then BuildStatus(RateT, p)
      else if p[0] == CONTROL_RATEP then BuildStatus(RateP, p)
      else if p[0] == CONTROL_INIT then BuildStatus(Init, p)
      else if CHANNEL_BASE <= p[0] <= CHANNEL_BASE + 2 then BuildStatus(ChannelStatus, p)
      else BuildCommon(p)
    case Ambe =>
      if p[0] == CHANNEL_CHAND then Built(ChanD, if |p| < 2 then 2 else 2 + BytesFor(p[1]))
      else BuildCommon(p)
    case Audio =>
      if p[0] == SPEECH_SPEECHD then Built(SpeechD, if |p| < 2 then 2 else 2 + SpeechBytes(p[1]))
      else BuildCommon(p)
  }

  /** Cutting a payload into fields until it is used up or the scanner has to stop. */
  function Scan(kind: Kind, p: seq<Byte>): ScanResult
    decreases |p|
  {
    if p == [] then ScanResult([], p, AtEnd)
    else
      match BuildField(kind, p)
      case NoField => ScanResult([], p, AtUnknownTag)
      case BadStatus => ScanResult([], p, AtBadStatus)
      case Built(tag, len) =>
        if len > |p| then ScanResult([], p, AtOverlongField)
        else if len == 0 then ScanResult([], p, AtOverlongField)  // excluded by EveryFieldHasALength
        else
          var r := Scan(kind, p[len..]);
          r.(fields := [Field(tag, p[..len])] + r.fields)
  }

  function Flatten(fields: seq<Field>): seq<Byte> {
    if fields == [] then [] else fields[0].raw + Flatten(fields[1..])
  }

  /** Where each member pointer ends up when `fields` are stored in turn and the first lies at `at`. */
  function Slots(fields: seq<Field>, at: nat): map<Tag, nat> {
    if fields == [] then map[]
    else
      var init, f := fields[..|fields| - 1], fields[|fields| - 1];
      Slots(init, at)[f.tag := at + |Flatten(init)|]
  }

  function KindOf(b: Byte): Option<Kind> {
    if b == TYPE_CONTROL then Some(Control)
    else if b == TYPE_AUDIO then Some(Audio)
    else if b == TYPE_AMBE then Some(Ambe)
    else None
  }

  /** The parity `getChecksum` computes: all bytes but the start byte and the last one. */
  function Parity(b: seq<Byte>): Byte
    requires |b| >= 2
  {
    XorAll(b[1..|b| - 1])
  }

  /** Whether the parity a packet carries, if any, is the right one. */
  predicate ChecksumValid(b: seq<Byte>, slots: map<Tag, nat>)
    requires |b| >= 4
    requires Checksum in slots ==> slots[Checksum] + 1 < |b|
  {
    Checksum in slots ==> b[slots[Checksum] + 1] == Parity(b)
  }

  function Parse(b: seq<Byte>): Parsed
    requires |b| >= 4
  {
    match KindOf(b[3])
    case None => Rejected
    case Some(kind) =>
      var r := Scan(kind, b[4..]);
      SlotsInside(kind, b);
      if r.stop.AtBadStatus? then Aborted
      else if !ChecksumValid(b, Slots(r.fields, 4)) then Rejected
      else Accepted(kind, r.fields)
  }

  // ---------------------------------------------------------------------------
  // Scanning: termination and tiling

  lemma EveryFieldHasALength(kind: Kind, p: seq<Byte>)
    ensures p != [] && BuildField(kind, p).Built? ==> BuildField(kind, p).len >= 1
  {
  }

  /**
   A field that claims more than the payload holds claims more than that whatever bytes follow, unless
   a status byte found there fails the assertion: nothing past the payload turns it into a stored field.
   */
  lemma CutOffFieldStaysOverlong(kind: Kind, p: seq<Byte>, beyond: seq<Byte>)
    requires p != [] && BuildField(kind, p).Built? && BuildField(kind, p).len > |p|
    ensures var f := BuildField(kind, p + beyond);
            f.BadStatus? || (f.Built? && f.tag == BuildField(kind, p).tag && f.len > |p|)
  {
    if kind.Control? && p[0] == CONTROL_PRODID {
      assert (p + beyond)[1..] == p[1..] + beyond;
      NulAtBeyond(p[1..], beyond);
    }
  }

  /** Field `f` is what the scanner builds at the start of `p`. */
  ghost predicate Fits(kind: Kind, f: Field, p: seq<Byte>) {
    f.raw != [] && f.raw <= p && BuildField(kind, p) == Built(f.tag, |f.raw|)
  }

  ghost predicate StopsAt(kind: Kind, rest: seq<Byte>, stop: Stop) {
    match stop
    case AtEnd => rest == []
    case AtUnknownTag => rest != [] && BuildField(kind, rest).NoField?
    case AtBadStatus => rest != [] && BuildField(kind, rest).BadStatus?
    case AtOverlongField => rest != [] && BuildField(kind, rest).Built? && BuildField(kind, rest).len > |rest|
  }

  ghost predicate FitsAt(kind: Kind, r: ScanResult, i: nat)
    requires i < |r.fields|
  {
    Fits(kind, r.fields[i], Flatten(r.fields[i..]) + r.rest)
  }

  /** The fields lie end to end from the start of `p`, none is empty, and the scan may not go on after them. */
  ghost predicate IsTiling(kind: Kind, p: seq<Byte>, r: ScanResult) {
    && p == Flatten(r.fields) + r.rest
    && (forall i: nat | i < |r.fields| :: FitsAt(kind, r, i))
    && StopsAt(kind, r.rest, r.stop)
  }

  /** A tiling of what follows a fitting field extends to one that starts with it, and back. */
  lemma TilingCons(kind: Kind, f: Field, tail: ScanResult, p: seq<Byte>)
    requires f.raw != []
    ensures IsTiling(kind, f.raw + p, tail.(fields := [f] + tail.fields))
      <==> Fits(kind, f, f.raw + p) && IsTiling(kind, p, tail)
  {
    hide Fits;
    hide StopsAt;
    var r := tail.(fields := [f] + tail.fields);
    assert r.fields[1..] == tail.fields;
    assert r.fields[0..] == r.fields;
    assert forall i: nat | i < |tail.fields| :: r.fields[i + 1..] == tail.fields[i..];
    assert forall i: nat | i < |tail.fields| :: FitsAt(kind, r, i + 1) == FitsAt(kind, tail, i);
    assert Flatten(r.fields) + r.rest == f.raw + (Flatten(tail.fields) + r.rest);
    if IsTiling(kind, f.raw + p, r) {
      assert FitsAt(kind, r, 0);
      assert p == (f.raw + p)[|f.raw|..] == Flatten(tail.fields) + r.rest;
      forall i: nat | i < |tail.fields| ensures FitsAt(kind, tail, i) {
        assert FitsAt(kind, r, i + 1);
      }
    }
    if Fits(kind, f, f.raw + p) && IsTiling(kind, p, tail) {
      forall i: nat | i < |r.fields| ensures FitsAt(kind, r, i) {
        if i > 0 {
          assert FitsAt(kind, tail, i - 1);
          assert FitsAt(kind, r, i - 1 + 1);
        }
      }
    }
  }

  lemma {:induction false} ScanTiles(kind: Kind, p: seq<Byte>)
    ensures IsTiling(kind, p, Scan(kind, p))
    decreases |p|
  {
    EveryFieldHasALength(kind, p);
    hide BuildField;
    var r := Scan(kind, p);
    if p != [] && BuildField(kind, p).Built? && 0 < BuildField(kind, p).len <= |p| {
      var len := BuildField(kind, p).len;
      var f := Field(BuildField(kind, p).tag, p[..len]);
      ScanTiles(kind, p[len..]);
      assert p == f.raw + p[len..];
      TilingCons(kind, f, Scan(kind, p[len..]), p[len..]);
    }
  }

  lemma {:induction false} TilingIsScan(kind: Kind, p: seq<Byte>, r: ScanResult)
    requires IsTiling(kind, p, r)
    ensures r == Scan(kind, p)
    decreases |r.fields|
  {
    hide BuildField;
    if r.fields == [] {
      assert p == r.rest;
    } else {
      var f := r.fields[0];
      assert FitsAt(kind, r, 0) && r.fields[0..] == r.fields;
      var tail := r.(fields := r.fields[1..]);
      assert r == tail.(fields := [f] + tail.fields);
      var q := p[|f.raw|..];
      assert p == f.raw + q;
      TilingCons(kind, f, tail, q);
      TilingIsScan(kind, q, tail);
      ScanStep(kind, f, q);
    }
  }

  /** The scan of a payload is the one and only tiling of it. */
  lemma ScanIsTheTiling(kind: Kind, p: seq<Byte>, r: ScanResult)
    ensures IsTiling(kind, p, r) <==> r == Scan(kind, p)
  {
    ScanTiles(kind, p);
    if IsTiling(kind, p, r) {
      TilingIsScan(kind, p, r);
    }
  }

  lemma {:induction false} FlattenConcat(f: seq<Field>, g: seq<Field>)
    ensures Flatten(f + g) == Flatten(f) + Flatten(g)
  {
    if f == [] {
      assert f + g == g;
    } else {
      assert (f + g)[1..] == f[1..] + g;
      FlattenConcat(f[1..], g);
    }
  }

  // ---------------------------------------------------------------------------
  // Member pointers

  /** The position in `fields` a member pointer refers to: the last field of its class. */
  ghost predicate IsLast(fields: seq<Field>, tag: Tag, i: nat) {
    i < |fields| && fields[i].tag == tag && forall j :: i < j < |fields| ==> fields[j].tag != tag
  }

  lemma {:induction false} SlotsKeepTheLast(fields: seq<Field>, at: nat, tag: Tag)
    ensures tag in Slots(fields, at) <==> exists i: nat :: IsLast(fields, tag, i)
    ensures forall i: nat :: IsLast(fields, tag, i) ==> Slots(fields, at)[tag] == at + |Flatten(fields[..i])|
  {
    if fields != [] {
      var n := |fields| - 1;
      var init := fields[..n];
      SlotsKeepTheLast(init, at, tag);
      hide Flatten;
      if fields[n].tag == tag {
        assert IsLast(fields, tag, n);
      } else {
        forall i: nat ensures IsLast(fields, tag, i) <==> IsLast(init, tag, i) {
          LastOfInit(fields, tag, i);
        }
        forall i: nat | IsLast(init, tag, i) ensures fields[..i] == init[..i] {
        }
      }
    }
  }

  lemma LastOfInit(fields: seq<Field>, tag: Tag, i: nat)
    requires fields != [] && fields[|fields| - 1].tag != tag
    ensures IsLast(fields, tag, i) <==> IsLast(fields[..|fields| - 1], tag, i)
  {
    var init := fields[..|fields| - 1];
    assert forall j :: 0 <= j < |init| ==> init[j] == fields[j];
  }

  /** Where the field at position `i` of a scan lies in the payload. */
  lemma FieldPosition(kind: Kind, p: seq<Byte>, i: nat)
    requires i < |Scan(kind, p).fields|
    ensures var fields := Scan(kind, p).fields; var at := |Flatten(fields[..i])|;
            && fields[i].raw != [] && at + |fields[i].raw| <= |p| && p[at..at + |fields[i].raw|] == fields[i].raw
            && Fits(kind, fields[i], p[at..])
  {
    var r := Scan(kind, p);
    ScanTiles(kind, p);
    hide StopsAt;
    hide BuildField;
    hide Scan;
    assert FitsAt(kind, r, i);
    assert r.fields == r.fields[..i] + r.fields[i..];
    FlattenConcat(r.fields[..i], r.fields[i..]);
    var here := Flatten(r.fields[i..]) + r.rest;
    assert p == Flatten(r.fields[..i]) + here;
    assert p[|Flatten(r.fields[..i])|..] == here;
  }

  /** Every member pointer of a scanned packet has its whole field inside the packet. */
  lemma SlotPointsAtField(kind: Kind, b: seq<Byte>, tag: Tag) returns (i: nat)
    requires |b| >= 4
    requires tag in Slots(Scan(kind, b[4..]).fields, 4)
    ensures var fields := Scan(kind, b[4..]).fields; var at := Slots(fields, 4)[tag];
            && IsLast(fields, tag, i) && at == 4 + |Flatten(fields[..i])|
            && fields[i].raw != [] && at + |fields[i].raw| <= |b| && b[at..at + |fields[i].raw|] == fields[i].raw
            && Fits(kind, fields[i], b[at..])
  {
    hide Fits;
    hide Scan;
    var fields := Scan(kind, b[4..]).fields;
    SlotsKeepTheLast(fields, 4, tag);
    i :| IsLast(fields, tag, i);
    FieldPosition(kind, b[4..], i);
    TailSlice(b, |Flatten(fields[..i])|, |fields[i].raw|);
  }

  lemma TailSlice(b: seq<Byte>, at: nat, n: nat)
    requires 4 + at + n <= |b|
    ensures b[4..][at..] == b[4 + at..] && b[4..][at..at + n] == b[4 + at..4 + at + n]
  {
  }

  /** The last field of a class, which is the one its member pointer refers to. */
  function LastOf(fields: seq<Field>, tag: Tag): Option<Field> {
    if fields == [] then None
    else
      var n := |fields| - 1;
      if fields[n].tag == tag then Some(fields[n]) else LastOf(fields[..n], tag)
  }

  lemma {:induction false} LastOfIsLast(fields: seq<Field>, tag: Tag)
    ensures LastOf(fields, tag).Some? <==> exists i: nat :: IsLast(fields, tag, i)
    ensures forall i: nat :: IsLast(fields, tag, i) ==> LastOf(fields, tag) == Some(fields[i])
  {
    if fields != [] {
      var n := |fields| - 1;
      LastOfIsLast(fields[..n], tag);
      if fields[n].tag == tag {
        assert IsLast(fields, tag, n);
      } else {
        forall i: nat ensures IsLast(fields, tag, i) <==> IsLast(fields[..n], tag, i) {
          LastOfInit(fields, tag, i);
        }
      }
    }
  }

  /** A member pointer is set exactly when there is such a field, and then refers to the last one's bytes. */
  lemma SlotHoldsLast(kind: Kind, b: seq<Byte>, tag: Tag)
    requires |b| >= 4
    ensures var fields := Scan(kind, b[4..]).fields; var slots := Slots(fields, 4); var f := LastOf(fields, tag);
            && (tag in slots <==> f.Some?)
            && (tag in slots ==>
                  var at := slots[tag]; var raw := f.value.raw;
                  && f.value.tag == tag && raw != [] && at + |raw| <= |b| && b[at..at + |raw|] == raw
                  && Fits(kind, f.value, b[at..]))
  {
    hide Fits;
    hide Scan;
    var fields := Scan(kind, b[4..]).fields;
    SlotsKeepTheLast(fields, 4, tag);
    LastOfIsLast(fields, tag);
    if tag in Slots(fields, 4) {
      var i := SlotPointsAtField(kind, b, tag);
    }
  }

  /** The bytes a data field carries after its tag and count byte. */
  lemma DataFieldShape(kind: Kind, f: Field, p: seq<Byte>)
    requires Fits(kind, f, p)
    ensures kind.Ambe? && f.tag.ChanD? ==> |f.raw| >= 2 && |f.raw| == 2 + BytesFor(f.raw[1])
    ensures kind.Audio? && f.tag.SpeechD? ==> |f.raw| >= 2 && |f.raw| == 2 + SpeechBytes(f.raw[1])
    ensures f.tag.Checksum? ==> |f.raw| == 2
    ensures f.tag.Channel? || f.tag.ChannelStatus? ==> CHANNEL_BASE <= f.raw[0] <= CHANNEL_BASE + 2
  {
    assert p[0] == f.raw[0];
    if |f.raw| >= 2 {
      assert p[1] == f.raw[1];
    }
  }

  lemma SlotsInside(kind: Kind, b: seq<Byte>)
    requires |b| >= 4
    ensures var slots := Slots(Scan(kind, b[4..]).fields, 4);
            Checksum in slots ==> slots[Checksum] + 1 < |b|
  {
    var fields := Scan(kind, b[4..]).fields;
    SlotHoldsLast(kind, b, Checksum);
    hide Scan;
    hide Slots;
    hide LastOf;
    if Checksum in Slots(fields, 4) {
      DataFieldShape(kind, LastOf(fields, Checksum).value, b[Slots(fields, 4)[Checksum]..]);
    }
  }

  // ---------------------------------------------------------------------------
  // Parity

  /** The scan of `b` ends up with its parity field in the last two bytes. */
  ghost predicate ParityLast(b: seq<Byte>)
    requires |b| >= 4
  {
    KindOf(b[3]).Some? &&
    var slots := Slots(Scan(KindOf(b[3]).value, b[4..]).fields, 4);
    Checksum in slots && slots[Checksum] == |b| - 2
  }

  /** With the parity field last, a packet is accepted exactly when all bytes after the first cancel out. */
  lemma ParityIsXor(b: seq<Byte>)
    requires |b| >= 4 && ParityLast(b) && !Parse(b).Aborted?
    ensures Parse(b).Accepted? <==> XorAll(b[1..]) == 0
  {
    var n := |b| - 1;
    assert b[1..][..n - 1] == b[1..n];
    assert XorAll(b[1..]) == ByteXor(XorAll(b[1..n]), b[n]);
    XorZero(Parity(b), b[n]);
    SlotsInside(KindOf(b[3]).value, b);
  }

  /** Any one wrong byte after the first is noticed, as long as the parity field is still found last. */
  lemma OneWrongByteIsRejected(b: seq<Byte>, i: nat, v: Byte)
    requires |b| >= 4 && ParityLast(b) && Parse(b).Accepted?
    requires 1 <= i < |b| && v != b[i] && ParityLast(b[i := v])
    ensures !Parse(b[i := v]).Accepted?
  {
    var c := b[i := v];
    ParityIsXor(b);
    if Parse(c).Accepted? {
      ParityIsXor(c);
      assert c[1..] == b[1..][i - 1 := v];
      XorAllDetectsChange(b[1..], i - 1, v);
    }
  }

  // ---------------------------------------------------------------------------
  // Packets as they are built

  /** Start byte, payload length in network order, type, payload. */
  function Frame(kind: Byte, payload: seq<Byte>): (b: seq<Byte>)
    ensures |b| == 4 + |payload|
  {
    [START_BYTE] + NetworkOrder(|payload|) + [kind] + payload
  }

  const NO_PARITY: seq<Byte> := [PARITY_BYTE, 0]

  function ChannelByte(channel: nat): Byte
    requires channel <= 3
  {
    CHANNEL_BASE + channel
  }

  /** Compressed data for one channel: the first `BytesFor(bits)` bytes of `data`. */
  function ChannelPacket(channel: nat, data: seq<Byte>, bits: Byte): seq<Byte>
    requires channel <= 3 && BytesFor(bits) <= |data|
  {
    Frame(TYPE_AMBE, [ChannelByte(channel)] + ([CHANNEL_CHAND, bits] + data[..BytesFor(bits)]) + NO_PARITY)
  }

  /** Speech for one channel: `samples` pairs of bytes of `data`, in the order they are in. */
  function SpeechPacket(channel: nat, data: seq<Byte>, samples: Byte): seq<Byte>
    requires channel <= 3 && SpeechBytes(samples) <= |data|
  {
    Frame(TYPE_AUDIO, [ChannelByte(channel)] + ([SPEECH_SPEECHD, samples] + data[..SpeechBytes(samples)]) + NO_PARITY)
  }

  function SetupIndexPacket(channel: nat, index: Byte, direction: Byte): seq<Byte>
    requires channel <= 3
  {
    Frame(TYPE_CONTROL, [ChannelByte(channel), CONTROL_RATET, index, CONTROL_INIT, direction] + NO_PARITY)
  }

  /** The control words in network order, one after the other. */
  function WordBytes(words: seq<int>): (s: seq<Byte>)
    ensures |s| == 2 * |words|
    ensures forall i :: 0 <= i < |words| ==> s[2 * i..2 * i + 2] == NetworkOrder(words[i])
  {
    if words == [] then []
    else
      var w := words[|words| - 1];
      var init := WordBytes(words[..|words| - 1]);
      assert forall i :: 0 <= i < |words| - 1 ==> (init + NetworkOrder(w))[2 * i..2 * i + 2] == init[2 * i..2 * i + 2];
      init + NetworkOrder(w)
  }

  function SetupRatePPacket(channel: nat, words: seq<int>, direction: Byte): seq<Byte>
    requires channel <= 3 && |words| == 6
  {
    Frame(TYPE_CONTROL,
      [ChannelByte(channel), CONTROL_RATEP] + WordBytes(words) + [CONTROL_INIT, direction] + NO_PARITY)
  }

  /** `updateChecksum` of a packet whose parity field is last. */
  function Sealed(b: seq<Byte>): seq<Byte>
    requires |b| >= 4
  {
    b[|b| - 1 := Parity(b)]
  }

  /** Sealing makes all bytes after the first cancel out, whatever the packet holds. */
  lemma SealedCancels(b: seq<Byte>)
    requires |b| >= 4
    ensures XorAll(Sealed(b)[1..]) == 0
  {
    var tail, n := Sealed(b)[1..], |b| - 2;
    assert tail[..n] == b[1..|b| - 1] && tail[n] == Parity(b);
    XorZero(Parity(b), Parity(b));
  }

  /** Reading the payload length back from the second and third byte. */
  lemma FrameLength(kind: Byte, payload: seq<Byte>)
    requires |payload| < 0x8000
    ensures var b := Frame(kind, payload); FromNetwork(b[1], b[2]) == |b| - 4
  {
    NetworkOrderRoundTrip(|payload|);
  }

  /** One field in front of a payload is scanned first. */
  lemma ScanStep(kind: Kind, f: Field, tail: seq<Byte>)
    requires f.raw != [] && BuildField(kind, f.raw + tail) == Built(f.tag, |f.raw|)
    ensures var r := Scan(kind, tail);
            Scan(kind, f.raw + tail) == r.(fields := [f] + r.fields)
  {
    var p := f.raw + tail;
    assert p[|f.raw|..] == tail;
    assert p[..|f.raw|] == f.raw;
  }

  /** A channel byte, a data field and a parity field are scanned into just these three, for channels 0 to 2. */
  lemma ScanBuilt(kind: Kind, channel: nat, d: Field, parity: Byte)
    requires !kind.Control? && channel <= 2 && d.raw != []
    requires BuildField(kind, d.raw + [PARITY_BYTE, parity]) == Built(d.tag, |d.raw|)
    ensures Scan(kind, [ChannelByte(channel)] + d.raw + [PARITY_BYTE, parity])
         == ScanResult([Field(Channel, [ChannelByte(channel)]), d, Field(Checksum, [PARITY_BYTE, parity])], [], AtEnd)
  {
    var c := Field(Channel, [ChannelByte(channel)]);
    var k := Field(Checksum, [PARITY_BYTE, parity]);
    assert k.raw + [] == k.raw;
    assert BuildField(kind, k.raw) == Built(Checksum, 2);
    assert BuildField(kind, c.raw + (d.raw + k.raw)) == Built(Channel, 1);
    hide BuildField;
    ScanStep(kind, k, []);
    ScanStep(kind, d, k.raw);
    ScanStep(kind, c, d.raw + k.raw);
    assert Scan(kind, []) == ScanResult([], [], AtEnd);
    hide Scan;
    assert c.raw + (d.raw + k.raw) == [ChannelByte(channel)] + d.raw + [PARITY_BYTE, parity];
    assert [d] + [k] == [d, k] && [c] + [d, k] == [c, d, k];
  }

  /** The member pointers a builder sets are those a scan of the same three fields sets. */
  lemma SlotsBuilt(c: Field, d: Field, k: Field)
    requires |c.raw| == 1 && c.tag == Channel && k.tag == Checksum && d.tag != Channel && d.tag != Checksum
    ensures Slots([c, d, k], 4) == map[Channel := 4, d.tag := 5, Checksum := 5 + |d.raw|]
  {
    assert [c, d, k][..2] == [c, d] && [c, d][..1] == [c] && [c][..0] == [];
    assert [c, d][1..] == [d] && [c][1..] == [] && [d][1..] == [];
    assert Flatten([c]) == c.raw && Flatten([d]) == d.raw;
    assert Flatten([c, d]) == c.raw + Flatten([d]);
    assert Slots([c], 4) == map[Channel := 4];
    assert Slots([c, d], 4) == map[Channel := 4, d.tag := 5];
  }

  /** Sealing and parsing gives back the three fields; with channel 3 the scanner stops before the first. */
  lemma SealedParses(kind: Kind, channel: nat, d: Field, b: seq<Byte>)
    requires !kind.Control? && channel <= 3 && d.raw != []
    requires d.tag != Channel && d.tag != Checksum
    requires forall parity: Byte :: BuildField(kind, d.raw + [PARITY_BYTE, parity]) == Built(d.tag, |d.raw|)
    requires b == Frame(if kind.Ambe? then TYPE_AMBE else TYPE_AUDIO, [ChannelByte(channel)] + d.raw + NO_PARITY)
    ensures channel <= 2 ==>
              Parse(Sealed(b)) == Accepted(kind, [Field(Channel, [ChannelByte(channel)]), d,
                                                  Field(Checksum, [PARITY_BYTE, Parity(b)])])
    ensures channel == 3 ==> Parse(Sealed(b)) == Accepted(kind, [])
  {
    var s := Sealed(b);
    var payload := [ChannelByte(channel)] + d.raw + [PARITY_BYTE, Parity(b)];
    assert s[4..] == payload;
    assert s[1..|s| - 1] == b[1..|b| - 1];
    if channel <= 2 {
      ScanBuilt(kind, channel, d, Parity(b));
      SlotsBuilt(Field(Channel, [ChannelByte(channel)]), d, Field(Checksum, [PARITY_BYTE, Parity(b)]));
    } else {
      assert payload[0] == 0x43;
    }
  }

  /** A compressed-data packet comes back whole for channels 0 to 2; for channel 3 it comes back empty. */
  lemma ChannelPacketRoundTrip(channel: nat, data: seq<Byte>, bits: Byte)
    requires channel <= 3 && BytesFor(bits) <= |data|
    ensures var b := ChannelPacket(channel, data, bits); var d := data[..BytesFor(bits)];
            && |b| == BytesFor(bits) + 9 && FromNetwork(b[1], b[2]) == |b| - 4
            && (channel <= 2 ==>
                  Parse(Sealed(b)) == Accepted(Ambe, [Field(Channel, [ChannelByte(channel)]),
                                                      Field(ChanD, [CHANNEL_CHAND, bits] + d),
                                                      Field(Checksum, [PARITY_BYTE, Parity(b)])]))
            && (channel == 3 ==> Parse(Sealed(b)) == Accepted(Ambe, []))
  {
    var d := Field(ChanD, [CHANNEL_CHAND, bits] + data[..BytesFor(bits)]);
    FrameLength(TYPE_AMBE, [ChannelByte(channel)] + d.raw + NO_PARITY);
    SealedParses(Ambe, channel, d, ChannelPacket(channel, data, bits));
  }

  /** The same for speech. */
  lemma SpeechPacketRoundTrip(channel: nat, data: seq<Byte>, samples: Byte)
    requires channel <= 3 && SpeechBytes(samples) <= |data|
    ensures var b := SpeechPacket(channel, data, samples); var d := data[..SpeechBytes(samples)];
            && |b| == SpeechBytes(samples) + 9 && FromNetwork(b[1], b[2]) == |b| - 4
            && (channel <= 2 ==>
                  Parse(Sealed(b)) == Accepted(Audio, [Field(Channel, [ChannelByte(channel)]),
                                                       Field(SpeechD, [SPEECH_SPEECHD, samples] + d),
                                                       Field(Checksum, [PARITY_BYTE, Parity(b)])]))
            && (channel == 3 ==> Parse(Sealed(b)) == Accepted(Audio, []))
  {
    var d := Field(SpeechD, [SPEECH_SPEECHD, samples] + data[..SpeechBytes(samples)]);
    FrameLength(TYPE_AUDIO, [ChannelByte(channel)] + d.raw + NO_PARITY);
    SealedParses(Audio, channel, d, SpeechPacket(channel, data, samples));
  }

  // ---------------------------------------------------------------------------
  // Control responses

  /** What the chip answers with. */
  datatype Response =
    | ReadyResponse
    | ProdIdResponse(text: seq<Byte>)
    | VersionResponse(text: seq<Byte>)
    | RateTResponse
    | RatePResponse
    | InitResponse
    | ChannelResponse(channel: nat)
    | ParityResponse(parity: Byte)

  predicate WellFormed(r: Response) {
    match r
    case ProdIdResponse(text) => 0 !in text
    case VersionResponse(text) => |text| == 48
    case ChannelResponse(channel) => channel <= 2
    case _ => true
  }

  function Encode(r: Response): Field
    requires WellFormed(r)
  {
    match r
    case ReadyResponse => Field(Ready, [CONTROL_READY])
    case ProdIdResponse(text) => Field(ProdId, [CONTROL_PRODID] + text + [0])
    case VersionResponse(text) => Field(Version, [CONTROL_VERSTRING] + text)
    case RateTResponse => Field(RateT, [CONTROL_RATET, 0])
    case RatePResponse => Field(RateP, [CONTROL_RATEP, 0])
    case InitResponse => Field(Init, [CONTROL_INIT, 0])
    case ChannelResponse(channel) => Field(ChannelStatus, [ChannelByte(channel), 0])
    case ParityResponse(parity) => Field(Checksum, [PARITY_BYTE, parity])
  }

  /** The values the accessors of a control packet read out of a field. */
  function Decode(f: Field): Option<Response> {
    if f.raw == [] then None
    else
      match f.tag
      case Ready => Some(ReadyResponse)
      case ProdId => Some(ProdIdResponse(f.raw[1..][..NulAt(f.raw[1..])]))
      case Version => Some(VersionResponse(f.raw[1..]))
      case RateT => Some(RateTResponse)
      case RateP => Some(RatePResponse)
      case Init => Some(InitResponse)
      case ChannelStatus => if f.raw[0] >= CHANNEL_BASE then Some(ChannelResponse(f.raw[0] - CHANNEL_BASE)) else None
      case Checksum => if |f.raw| == 2 then Some(ParityResponse(f.raw[1])) else None
      case _ => None
  }

  function EncodeAll(rs: seq<Response>): seq<Field>
    requires forall r :: r in rs ==> WellFormed(r)
  {
    if rs == [] then [] else [Encode(rs[0])] + EncodeAll(rs[1..])
  }

  lemma ResponseIsBuilt(r: Response, tail: seq<Byte>)
    requires WellFormed(r)
    ensures BuildField(Control, Encode(r).raw + tail) == Built(Encode(r).tag, |Encode(r).raw|)
    ensures Decode(Encode(r)) == Some(r)
  {
    if r.ProdIdResponse? {
      var p := Encode(r).raw + tail;
      assert p[1..][..|r.text|] == r.text;
      NulAtIs(p[1..], |r.text|);
      var q := Encode(r).raw[1..];
      assert q[..|r.text|] == r.text;
      NulAtIs(q, |r.text|);
    }
  }

  /** The scanner cuts any sequence of well-formed responses exactly where they were joined. */
  lemma {:induction false} ControlResponsesDecodeUniquely(rs: seq<Response>)
    requires forall r :: r in rs ==> WellFormed(r)
    ensures var scan := Scan(Control, Flatten(EncodeAll(rs)));
            && scan == ScanResult(EncodeAll(rs), [], AtEnd) && |scan.fields| == |rs|
            && forall i :: 0 <= i < |rs| ==> Decode(scan.fields[i]) == Some(rs[i])
  {
    if rs != [] {
      var tail := Flatten(EncodeAll(rs[1..]));
      ControlResponsesDecodeUniquely(rs[1..]);
      ResponseIsBuilt(rs[0], tail);
      ScanStep(Control, Encode(rs[0]), tail);
      assert EncodeAll(rs)[1..] == EncodeAll(rs[1..]);
      assert Flatten(EncodeAll(rs)) == Encode(rs[0]).raw + tail;
      assert forall i :: 0 < i < |rs| ==> rs[i] == rs[1..][i - 1];
    }
  }

  lemma {:induction false} EncodeAllAt(rs: seq<Response>, i: nat)
    requires (forall r :: r in rs ==> WellFormed(r)) && i < |rs|
    ensures |EncodeAll(rs)| == |rs| && EncodeAll(rs)[i] == Encode(rs[i])
  {
    if |rs| > 1 {
      EncodeAllAt(rs[1..], if i == 0 then 0 else i - 1);
    }
  }

  lemma {:induction false} EncodeAllConcat(a: seq<Response>, b: seq<Response>)
    requires forall r :: r in a || r in b ==> WellFormed(r)
    ensures forall r :: r in a + b ==> WellFormed(r)
    ensures EncodeAll(a + b) == EncodeAll(a) + EncodeAll(b)
  {
    if a == [] {
      assert a + b == b;
    } else {
      assert (a + b)[1..] == a[1..] + b;
      EncodeAllConcat(a[1..], b);
    }
  }

  lemma EncodeAllCons(rs: seq<Response>)
    requires rs != [] && forall r :: r in rs ==> WellFormed(r)
    ensures EncodeAll(rs) == [Encode(rs[0])] + EncodeAll(rs[1..])
    ensures Flatten(EncodeAll(rs)) == Encode(rs[0]).raw + Flatten(EncodeAll(rs[1..]))
  {
    assert EncodeAll(rs)[1..] == EncodeAll(rs[1..]);
  }

  /** Responses in front of any other bytes are scanned first. */
  lemma {:induction false} ResponsesAreScannedFirst(rs: seq<Response>, tail: seq<Byte>)
    requires forall r :: r in rs ==> WellFormed(r)
    ensures var r := Scan(Control, tail);
            Scan(Control, Flatten(EncodeAll(rs)) + tail) == r.(fields := EncodeAll(rs) + r.fields)
  {
    hide Scan;
    hide BuildField;
    var fields := Scan(Control, tail).fields;
    if rs == [] {
      assert Flatten(EncodeAll(rs)) + tail == tail;
      assert EncodeAll(rs) + fields == fields;
    } else {
      EncodeAllCons(rs);
      hide EncodeAll;
      hide Flatten;
      var first, others := Encode(rs[0]), EncodeAll(rs[1..]);
      var rest := Flatten(others) + tail;
      ResponsesAreScannedFirst(rs[1..], tail);
      ResponseIsBuilt(rs[0], rest);
      assert first.raw != [];
      hide Encode;
      ScanStep(Control, first, rest);
      assert first.raw + Flatten(others) + tail == first.raw + rest;
      assert [first] + (others + fields) == [first] + others + fields;
    }
  }

  /** What parsing makes of a scan that did not abort. */
  lemma ParseOfScan(b: seq<Byte>, kind: Kind, fields: seq<Field>)
    requires |b| >= 4 && KindOf(b[3]) == Some(kind)
    requires Scan(kind, b[4..]) == ScanResult(fields, [], AtEnd)
    ensures Parse(b).Accepted? ==> Parse(b) == Accepted(kind, fields)
    ensures !Parse(b).Aborted?
    ensures Checksum !in Slots(fields, 4) ==> Parse(b).Accepted?
  {
    hide Scan;
    hide Slots;
  }

  /** A control packet without parity is accepted with just the responses it was made of. */
  lemma ControlPacketIsParsed(rs: seq<Response>)
    requires forall r :: r in rs ==> WellFormed(r) && !r.ParityResponse?
    ensures Parse(Frame(0, Flatten(EncodeAll(rs)))) == Accepted(Control, EncodeAll(rs))
  {
    hide Slots;
    hide Scan;
    hide Parse;
    var b, fields := Frame(0, Flatten(EncodeAll(rs))), EncodeAll(rs);
    assert b[4..] == Flatten(fields);
    ControlResponsesDecodeUniquely(rs);
    SlotsKeepTheLast(fields, 4, Checksum);
    forall i: nat ensures !IsLast(fields, Checksum, i) {
      if i < |rs| {
        EncodeAllAt(rs, i);
      } else if rs != [] {
        EncodeAllAt(rs, 0);
      }
    }
    ParseOfScan(b, Control, fields);
  }

  lemma ResponsesWithParity(rs: seq<Response>, parity: Byte)
    requires forall r :: r in rs ==> WellFormed(r)
    ensures var k := Field(Checksum, [0x2f, parity]); var fields := EncodeAll(rs) + [k];
            && Scan(Control, Flatten(EncodeAll(rs)) + [0x2f, parity]) == ScanResult(fields, [], AtEnd)
            && Checksum in Slots(fields, 4) && Slots(fields, 4)[Checksum] == 4 + |Flatten(EncodeAll(rs))|
  {
    var p, k := ParityResponse(parity), Field(Checksum, [0x2f, parity]);
    EncodeAllConcat(rs, [p]);
    EncodeAllCons([p]);
    assert [k] + [] == [k] && [p][1..] == [];
    ControlResponsesDecodeUniquely(rs + [p]);
    FlattenConcat(EncodeAll(rs), [k]);
    FlattenOne(k);
    SlotsAppended(EncodeAll(rs), k);
    hide Scan;
    hide Slots;
    hide Flatten;
    hide EncodeAll;
  }

  /** A sealed control packet is accepted with its responses and the right parity behind them. */
  lemma SealedControlPacketIsParsed(rs: seq<Response>)
    requires forall r :: r in rs ==> WellFormed(r)
    ensures var b := Frame(0, Flatten(EncodeAll(rs)) + NO_PARITY);
            Parse(Sealed(b)) == Accepted(Control, EncodeAll(rs) + [Field(Checksum, [0x2f, Parity(b)])])
  {
    hide Parse;
    hide Scan;
    hide Slots;
    hide Flatten;
    hide EncodeAll;
    hide Parity;
    var payload := Flatten(EncodeAll(rs));
    var b := Frame(0, payload + NO_PARITY);
    var c := Sealed(b);
    ResponsesWithParity(rs, Parity(b));
    assert |c| == |payload| + 6 && c[3] == 0;
    assert c[4..] == payload + [0x2f, Parity(b)];
    SealedCancels(b);
    ParseOfScan(c, Control, EncodeAll(rs) + [Field(Checksum, [0x2f, Parity(b)])]);
    assert ParityLast(c);
    ParityIsXor(c);
    hide *;
  }

  lemma FlattenOne(f: Field)
    ensures Flatten([f]) == f.raw
  {
    assert [f][1..] == [];
  }

  lemma SlotsAppended(fields: seq<Field>, f: Field)
    ensures f.tag in Slots(fields + [f], 4) && Slots(fields + [f], 4)[f.tag] == 4 + |Flatten(fields)|
  {
    assert (fields + [f])[..|fields|] == fields;
  }

  /** A response with a status other than zero fails the assertion, whatever comes before and after it. */
  lemma NonZeroStatusAborts(rs: seq<Response>, tag: Byte, status: Byte, beyond: seq<Byte>)
    requires (forall r :: r in rs ==> WellFormed(r)) && tag in {0x09, 0x0a, 0x0b, 0x40, 0x41, 0x42} && status != 0
    ensures Parse(Frame(0, Flatten(EncodeAll(rs)) + ([tag, status] + beyond))) == Aborted
  {
    var tail := [tag, status] + beyond;
    var b := Frame(0, Flatten(EncodeAll(rs)) + tail);
    assert BuildField(Control, tail) == BadStatus;
    assert Scan(Control, tail).stop == AtBadStatus;
    ResponsesAreScannedFirst(rs, tail);
    assert b[4..] == Flatten(EncodeAll(rs)) + tail;
    hide Scan;
    hide Slots;
    hide Flatten;
  }

  /** The type byte selects the packet class; packets of other types are rejected. */
  lemma TypeByteDecides(b: seq<Byte>)
    requires |b| >= 4
    ensures b[3] !in {0, 1, 2} ==> Parse(b) == Rejected
    ensures Parse(b).Accepted? ==> Parse(b).kind == if b[3] == 0 then Control else if b[3] == 1 then Ambe else Audio
  {
    hide Scan;
    hide Slots;
  }

  /** The scanner stops at a tag exactly when the packet class does not know it. */
  lemma KnownTags(kind: Kind, p: seq<Byte>)
    requires p != []
    ensures BuildField(kind, p).NoField?
       <==> p[0] !in {0x2f, 0x40, 0x41, 0x42} + match kind
                                                case Control => {0x09, 0x0a, 0x0b, 0x30, 0x31, 0x39}
                                                case Ambe => {0x01}
                                                case Audio => {0x00}
  {
    hide NulAt;
  }

  /** The responses as the chip sends them. */
  lemma ResponseBytes(r: Response)
    requires WellFormed(r)
    ensures Encode(r).raw == match r
                             case ReadyResponse => [0x39]
                             case ProdIdResponse(text) => [0x30] + text + [0]
                             case VersionResponse(text) => [0x31] + text
                             case RateTResponse => [0x09, 0]
                             case RatePResponse => [0x0a, 0]
                             case InitResponse => [0x0b, 0]
                             case ChannelResponse(channel) => [0x40 + channel, 0]
                             case ParityResponse(parity) => [0x2f, parity]
  {
  }

  // ---------------------------------------------------------------------------
  // Packets byte by byte

  lemma ChannelPacketBytes(channel: nat, data: seq<Byte>, bits: Byte)
    requires channel <= 3 && (bits + 7) / 8 <= |data|
    ensures var n := (bits + 7) / 8;
            ChannelPacket(channel, data, bits)
            == [0x61, 0, n + 5, 1, 0x40 + channel, 0x01, bits] + data[..n] + [0x2f, 0]
  {
    var n := (bits + 7) / 8;
    var d := data[..n];
    var payload := [ChannelByte(channel)] + ([CHANNEL_CHAND, bits] + d) + NO_PARITY;
    assert |payload| == n + 5 < 256;
    LengthBytes(n + 5);
    assert NetworkOrder(|payload|) == [0, n + 5];
    assert ChannelPacket(channel, data, bits) == [0x61] + NetworkOrder(|payload|) + [1] + payload;
    Joining([0x61] + NetworkOrder(n + 5) + [1], [ChannelByte(channel)], [CHANNEL_CHAND, bits], d, NO_PARITY);
    assert [0x61] + [0, n + 5] + [1] + [0x40 + channel] + [0x01, bits] == [0x61, 0, n + 5, 1, 0x40 + channel, 0x01, bits];
    hide *;
  }

  lemma SpeechPacketBytes(channel: nat, data: seq<Byte>, samples: Byte)
    requires channel <= 3 && 2 * samples <= |data|
    ensures var n := 2 * samples;
            SpeechPacket(channel, data, samples)
            == [0x61, (n + 5) / 256, (n + 5) % 256, 2, 0x40 + channel, 0x00, samples] + data[..n] + [0x2f, 0]
  {
    var n := 2 * samples;
    var d := data[..n];
    var payload := [ChannelByte(channel)] + ([SPEECH_SPEECHD, samples] + d) + NO_PARITY;
    assert |payload| == n + 5;
    LengthBytes(n + 5);
    assert SpeechPacket(channel, data, samples) == [0x61] + NetworkOrder(|payload|) + [2] + payload;
    Joining([0x61] + NetworkOrder(n + 5) + [2], [ChannelByte(channel)], [SPEECH_SPEECHD, samples], d, NO_PARITY);
    assert [0x61] + [(n + 5) / 256, (n + 5) % 256] + [2] + [0x40 + channel] + [0x00, samples]
        == [0x61, (n + 5) / 256, (n + 5) % 256, 2, 0x40 + channel, 0x00, samples];
    hide *;
  }

  lemma LengthBytes(n: nat)
    requires n < 0x10000
    ensures NetworkOrder(n) == [n / 256, n % 256]
  {
    assert n % 0x10000 == n;
    assert NetworkOrder(n) == [n % 0x10000 / 256, n % 0x10000 % 256];
    hide NetworkOrder;
  }

  lemma Joining(a: seq<Byte>, b: seq<Byte>, c: seq<Byte>, d: seq<Byte>, e: seq<Byte>)
    ensures a + (b + (c + d) + e) == (a + b + c) + d + e
  {
  }

  lemma SetupIndexBytes(channel: nat, index: Byte, direction: Byte)
    requires channel <= 3
    ensures SetupIndexPacket(channel, index, direction)
         == [0x61, 0, 7, 0, 0x40 + channel, 0x09, index, 0x0b, direction, 0x2f, 0]
  {
    assert NetworkOrder(7) == [0, 7];
  }

  lemma SetupRatePBytes(channel: nat, words: seq<int>, direction: Byte)
    requires channel <= 3 && |words| == 6
    ensures SetupRatePPacket(channel, words, direction)
         == [0x61, 0, 18, 0, 0x40 + channel, 0x0a] + WordBytes(words) + [0x0b, direction, 0x2f, 0]
    ensures forall i :: 0 <= i < 6 ==> WordBytes(words)[2 * i] == words[i] / 256 % 256 && WordBytes(words)[2 * i + 1] == words[i] % 256
  {
    assert NetworkOrder(18) == [0, 18];
    forall i | 0 <= i < 6
      ensures WordBytes(words)[2 * i] == words[i] / 256 % 256 && WordBytes(words)[2 * i + 1] == words[i] % 256
    {
      var pair := WordBytes(words)[2 * i..2 * i + 2];
      assert pair == NetworkOrder(words[i]);
      assert pair[0] == WordBytes(words)[2 * i] && pair[1] == WordBytes(words)[2 * i + 1];
      HighAndLow(words[i]);
    }
  }

  lemma HighAndLow(n: int)
    ensures n % 0x10000 / 256 == n / 256 % 256 && n % 0x10000 % 256 == n % 256
  {
  }
}
