/**
 * The wire form of scheduler payloads: a header, the cell name, big-endian fields, and the phase as a
 * quantised angle. Decoding accepts a byte string only if encoding the result gives it back.
 */
module Wire {
  import opened Bytes
  import opened Options
  import opened Angle
  import opened Frame
  import opened Topology
  import opened Cell
  import opened Scheduler

  const VERSION: nat := 1
  const HEADER_SIZE: nat := 12
  const OBSERVATION_SIZE: nat := 96
  const WITNESS_SIZE: nat := 64
  const PAYLOAD_MAX: nat := 256
  const OBSERVATION: Byte := 1
  const WITNESS: Byte := 2

  const PHASE_SCALE: real := 1000000000000.0
  const PI_QUANTISED: int := 3141592653590

  datatype Payload =
    | ReadingPayload(reading: Reading)
    | Attestation(cell: Name, target: U64, w: Witness)

  datatype Fault = Invalid | Schema | NotCanonical

  datatype Encoded = Encoded(bytes: seq<Byte>) | Unencodable(why: Fault)

  datatype Decoded = Decoded(payload: Payload) | Undecodable(why: Fault)

  // ---- the quantised angle ----

  /** The phase as an integer number of 1e-12 radians in (-pi, pi]; the endpoint rounded down to -pi is folded to pi. */
  function Quantise(phase: real): int {
    var q := Round(Wrap(phase) * PHASE_SCALE);
    if q <= -PI_QUANTISED then PI_QUANTISED else q
  }

  function Dequantise(q: int): real {
    q as real / PHASE_SCALE
  }

  lemma QuantiseRange(phase: real)
    ensures -PI_QUANTISED < Quantise(phase) <= PI_QUANTISED
  {
    var turns := WrapTurns(phase);
    var x := Wrap(phase) * PHASE_SCALE;
    assert -3141592653589.8 < x < 3141592653589.8;
  }

  /** Quantising after dequantising is the identity, even at the endpoint, which lies above pi and wraps. */
  lemma QuantiseDequantise(q: int)
    requires -PI_QUANTISED < q <= PI_QUANTISED
    ensures Quantise(Dequantise(q)) == q
  {
    var x := Dequantise(q);
    if q < PI_QUANTISED {
      assert -PI < x <= PI;
      WrapUnique(x, x, 0);
      assert x * PHASE_SCALE == q as real;
      RoundInteger(q);
    } else {
      var y := x - TWO_PI;
      WrapUnique(x, y, 1);
      var z := y * PHASE_SCALE;
      assert -3141592653590.5 < z < -3141592653589.5;
      assert Round(z) == -PI_QUANTISED;
    }
  }

  /** Quantised phases are all that the wire can tell apart. */
  function QuantisedReading(r: Reading): Reading {
    r.(phase := Dequantise(Quantise(r.phase)))
  }

  // ---- validity ----

  /** A C string: no zero byte inside. */
  predicate CellName(n: Name) {
    NameValid(n) && 0 !in n
  }

  predicate WitnessValid(w: Witness, target: U64) {
    && w.kind != NoEvent && w.from != 0 && w.to != 0 && 0 < w.clock <= target && w.evidence != ZeroDigest()
  }

  predicate ReadingValid(r: Reading) {
    && CellName(r.cell) && r.member != 0 && r.clock != 0 && r.frameVersion != 0
    && r.windowStart <= r.windowEnd && r.windowStart <= r.observedAt <= r.windowEnd <= r.sealTime
    && r.source != ZeroDigest()
    && (r.attached.Some? ==> WitnessValid(r.attached.value, r.clock))
  }

  // ---- the format ----

  function Magic(): seq<Byte> {
    [67, 68, 67, 80]
  }

  function HeaderBytes(kind: Byte, flags: Byte, total: nat, cell: Name): (h: seq<Byte>)
    requires |cell| <= ID_MAX
    ensures |h| == HEADER_SIZE
  {
    Magic() + BE(VERSION, 2) + [kind, flags] + BE(total, 2) + [|cell|, 0]
  }

  function WitnessBody(w: Witness): (b: seq<Byte>)
    ensures |b| == WITNESS_SIZE
  {
    [KindCode(w.kind), 0, 0, 0, 0, 0, 0, 0] + BE(w.from, 8) + BE(w.to, 8) + BE(w.clock, 8) + w.evidence
  }

  function ReadingFields(r: Reading): (b: seq<Byte>)
    ensures |b| == OBSERVATION_SIZE
  {
    BE(r.member, 8) + Signed64(Quantise(r.phase)) + BE(r.observedAt, 8) + BE(r.clock, 8) + BE(r.frameVersion, 8)
    + BE(r.windowStart, 8) + BE(r.windowEnd, 8) + BE(r.sealTime, 8) + r.source
  }

  function ReadingTail(r: Reading): seq<Byte> {
    if r.attached.Some? then WitnessBody(r.attached.value) else []
  }

  function ReadingSize(r: Reading): nat {
    HEADER_SIZE + |r.cell| + OBSERVATION_SIZE + if r.attached.Some? then WITNESS_SIZE else 0
  }

  function EncodeReading(r: Reading): Encoded {
    if !ReadingValid(r) then Unencodable(Invalid)
    else
      Encoded(HeaderBytes(OBSERVATION, if r.attached.Some? then 1 else 0, ReadingSize(r), r.cell)
              + r.cell + ReadingFields(r) + ReadingTail(r))
  }

  function EncodeWitness(cell: Name, target: U64, w: Witness): Encoded {
    if target == 0 || !CellName(cell) || !WitnessValid(w, target) then Unencodable(Invalid)
    else
      Encoded(HeaderBytes(WITNESS, 0, HEADER_SIZE + |cell| + 8 + WITNESS_SIZE, cell)
              + cell + BE(target, 8) + WitnessBody(w))
  }

  function Encode(p: Payload): Encoded {
    match p
    case ReadingPayload(r) => EncodeReading(r)
    case Attestation(cell, target, w) => EncodeWitness(cell, target, w)
  }

  // ---- decoding ----

  /** The string a C program sees in a buffer. */
  function BeforeNul(s: seq<Byte>): (r: seq<Byte>)
    ensures r <= s && 0 !in r
    ensures 0 !in s ==> r == s
  {
    if s == [] || s[0] == 0 then [] else [s[0]] + BeforeNul(s[1..])
  }

  function KindOfCode(b: Byte): Kind {
    if b == 1 then LocalDeformation else if b == 2 then PhaseSlip else if b == 3 then FrameChange else NoEvent
  }

  /**
   * A witness body; none when its reserved bytes are not zero. An unknown kind reads as no event, which is
   * never valid.
   */
  function DecodeWitness(b: seq<Byte>): Option<Witness>
    requires |b| == WITNESS_SIZE
  {
    if b[1..8] != [0, 0, 0, 0, 0, 0, 0] then None
    else
      Widths();
      Some(Witness(KindOfCode(b[0]), FromBE(b[8..16]), FromBE(b[16..24]), FromBE(b[24..32]), b[32..64]))
  }

  /** Two's complement. */
  function FromSigned64(b: seq<Byte>): int
    requires |b| == 8
  {
    var raw := FromBE(b);
    if raw <= 0x7FFF_FFFF_FFFF_FFFF then raw else raw - TWO_64
  }

  /** The fields of a reading, its cell and its witness aside; none when the angle is out of range. */
  function DecodeFields(cell: Name, b: seq<Byte>, w: Option<Witness>): Option<Reading>
    requires |b| == OBSERVATION_SIZE
  {
    var phase := FromSigned64(b[8..16]);
    if phase <= -PI_QUANTISED || phase > PI_QUANTISED then None
    else
      Widths();
      Some(Reading(cell, FromBE(b[0..8]), Dequantise(phase), FromBE(b[16..24]), FromBE(b[24..32]), FromBE(b[32..40]),
                   FromBE(b[40..48]), FromBE(b[48..56]), FromBE(b[56..64]), b[64..96], w))
  }

  function Recoded(p: Payload, bytes: seq<Byte>): Decoded {
    if Encode(p) == Encoded(bytes) then Decoded(p) else Undecodable(NotCanonical)
  }

  function DecodeReading(bytes: seq<Byte>, n: nat, flagged: bool): Decoded
    requires |bytes| == HEADER_SIZE + n + OBSERVATION_SIZE + if flagged then WITNESS_SIZE else 0
  {
    var cell := BeforeNul(bytes[HEADER_SIZE..HEADER_SIZE + n]);
    var rest := bytes[HEADER_SIZE + n..];
    var w := if flagged then DecodeWitness(rest[OBSERVATION_SIZE..]) else None;
    if flagged && w.None? then Undecodable(NotCanonical)
    else
      var r := DecodeFields(cell, rest[..OBSERVATION_SIZE], w);
      if r.None? then Undecodable(NotCanonical) else Recoded(ReadingPayload(r.value), bytes)
  }

  function DecodeAttestation(bytes: seq<Byte>, n: nat): Decoded
    requires |bytes| == HEADER_SIZE + n + 8 + WITNESS_SIZE
  {
    var cell := BeforeNul(bytes[HEADER_SIZE..HEADER_SIZE + n]);
    var rest := bytes[HEADER_SIZE + n..];
    Widths();
    var w := DecodeWitness(rest[8..]);
    if w.None? || !WitnessValid(w.value, FromBE(rest[..8])) then Undecodable(NotCanonical)
    else Recoded(Attestation(cell, FromBE(rest[..8]), w.value), bytes)
  }

  predicate HeaderCanonical(bytes: seq<Byte>)
    requires |bytes| >= HEADER_SIZE
  {
    && FromBE(bytes[8..10]) == |bytes| && bytes[11] == 0 && 1 <= bytes[10] <= ID_MAX
    && ((bytes[6] == OBSERVATION && bytes[7] in {0, 1}) || (bytes[6] == WITNESS && bytes[7] == 0))
    && |bytes| == HEADER_SIZE + bytes[10] +
         (if bytes[6] == OBSERVATION then OBSERVATION_SIZE + (if bytes[7] == 1 then WITNESS_SIZE else 0)
          else 8 + WITNESS_SIZE)
  }

  function Decode(bytes: seq<Byte>): Decoded {
    if |bytes| < HEADER_SIZE || |bytes| > PAYLOAD_MAX then Undecodable(Invalid)
    else if bytes[..4] != Magic() || FromBE(bytes[4..6]) != VERSION then Undecodable(Schema)
    else if !HeaderCanonical(bytes) then Undecodable(NotCanonical)
    else if bytes[6] == OBSERVATION then DecodeReading(bytes, bytes[10], bytes[7] == 1)
    else DecodeAttestation(bytes, bytes[10])
  }

  // ---- round trips ----

  lemma HeaderReads(kind: Byte, flags: Byte, total: nat, cell: Name, rest: seq<Byte>)
    requires |cell| <= ID_MAX && total < 0x1_0000
    ensures var b := HeaderBytes(kind, flags, total, cell) + rest;
      && b[..4] == Magic() && FromBE(b[4..6]) == VERSION && b[6] == kind && b[7] == flags
      && FromBE(b[8..10]) == total && b[10] == |cell| && b[11] == 0
  {
    hide BE, FromBE;
    var b := HeaderBytes(kind, flags, total, cell) + rest;
    assert b[..4] == Magic() && b[4..6] == BE(VERSION, 2) && b[8..10] == BE(total, 2);
    Widths();
    BERoundTrip(VERSION, 2);
    BERoundTrip(total, 2);
  }

  lemma Signed64Reads(x: int)
    requires -PI_QUANTISED < x <= PI_QUANTISED
    ensures FromSigned64(Signed64(x)) == x
  {
    Widths();
    BERoundTrip(x % TWO_64, 8);
  }

  lemma WitnessReads(w: Witness)
    requires w.kind != NoEvent
    ensures DecodeWitness(WitnessBody(w)) == Some(w)
  {
    hide BE, FromBE;
    var b := WitnessBody(w);
    assert b[1..8] == [0, 0, 0, 0, 0, 0, 0] && b[0] == KindCode(w.kind);
    assert b[8..16] == BE(w.from, 8) && b[16..24] == BE(w.to, 8);
    assert b[24..32] == BE(w.clock, 8) && b[32..64] == w.evidence;
    Widths();
    BERoundTrip(w.from, 8);
    BERoundTrip(w.to, 8);
    BERoundTrip(w.clock, 8);
  }

  lemma FieldSlices(r: Reading)
    ensures var b := ReadingFields(r);
      && b[0..8] == BE(r.member, 8) && b[8..16] == Signed64(Quantise(r.phase))
      && b[16..24] == BE(r.observedAt, 8) && b[24..32] == BE(r.clock, 8) && b[32..40] == BE(r.frameVersion, 8)
      && b[40..48] == BE(r.windowStart, 8) && b[48..56] == BE(r.windowEnd, 8) && b[56..64] == BE(r.sealTime, 8)
      && b[64..96] == r.source
  {
    hide BE, Quantise;
  }

  lemma FieldsRead(r: Reading, w: Option<Witness>)
    ensures DecodeFields(r.cell, ReadingFields(r), w) == Some(QuantisedReading(r).(attached := w))
  {
    hide BE, FromBE, Quantise, ReadingFields, Signed64, FromSigned64;
    FieldSlices(r);
    QuantiseRange(r.phase);
    Signed64Reads(Quantise(r.phase));
    Widths();
    BERoundTrip(r.member, 8);
    BERoundTrip(r.observedAt, 8);
    BERoundTrip(r.clock, 8);
    BERoundTrip(r.frameVersion, 8);
    BERoundTrip(r.windowStart, 8);
    BERoundTrip(r.windowEnd, 8);
    BERoundTrip(r.sealTime, 8);
  }

  lemma QuantisedEncodes(r: Reading)
    requires ReadingValid(r)
    ensures EncodeReading(QuantisedReading(r)) == EncodeReading(r)
  {
    hide Quantise, Dequantise, BE, HeaderBytes;
    QuantiseRange(r.phase);
    QuantiseDequantise(Quantise(r.phase));
  }

  lemma ReadingParts(r: Reading, b: seq<Byte>)
    requires EncodeReading(r) == Encoded(b)
    ensures |b| == ReadingSize(r)
    ensures b[HEADER_SIZE..HEADER_SIZE + |r.cell|] == r.cell
    ensures b[HEADER_SIZE + |r.cell|..][..OBSERVATION_SIZE] == ReadingFields(r)
    ensures b[HEADER_SIZE + |r.cell|..][OBSERVATION_SIZE..] == ReadingTail(r)
  {
    hide HeaderBytes, ReadingFields, WitnessBody, WitnessValid;
    var head := HeaderBytes(OBSERVATION, if r.attached.Some? then 1 else 0, ReadingSize(r), r.cell);
    assert b == head + r.cell + ReadingFields(r) + ReadingTail(r);
    assert b[HEADER_SIZE + |r.cell|..] == ReadingFields(r) + ReadingTail(r);
  }

  /** Every valid reading decodes from its encoding, up to the quantisation of its phase. */
  lemma ReadingRoundTrip(r: Reading)
    requires ReadingValid(r)
    ensures EncodeReading(r).Encoded? && Decode(EncodeReading(r).bytes) == Decoded(ReadingPayload(QuantisedReading(r)))
  {
    hide HeaderBytes, ReadingFields, WitnessBody, Quantise, Dequantise, FromBE, BE, DecodeFields, DecodeWitness;
    var b := EncodeReading(r).bytes;
    ReadingParts(r, b);
    var flags := if r.attached.Some? then 1 else 0;
    HeaderReads(OBSERVATION, flags, ReadingSize(r), r.cell, r.cell + ReadingFields(r) + ReadingTail(r));
    var head := HeaderBytes(OBSERVATION, if r.attached.Some? then 1 else 0, ReadingSize(r), r.cell);
    assert b == head + (r.cell + ReadingFields(r) + ReadingTail(r));
    if r.attached.Some? {
      WitnessReads(r.attached.value);
    }
    FieldsRead(r, r.attached);
    QuantisedEncodes(r);
  }

  /** And so does every valid witness, exactly. */
  lemma WitnessRoundTrip(cell: Name, target: U64, w: Witness)
    requires target != 0 && CellName(cell) && WitnessValid(w, target)
    ensures EncodeWitness(cell, target, w).Encoded?
    ensures Decode(EncodeWitness(cell, target, w).bytes) == Decoded(Attestation(cell, target, w))
  {
    hide HeaderBytes, WitnessBody, FromBE, BE, DecodeWitness;
    var b := EncodeWitness(cell, target, w).bytes;
    var total := HEADER_SIZE + |cell| + 8 + WITNESS_SIZE;
    var head, rest := HeaderBytes(WITNESS, 0, total, cell), BE(target, 8) + WitnessBody(w);
    HeaderReads(WITNESS, 0, total, cell, cell + rest);
    assert b == head + (cell + rest);
    assert b[HEADER_SIZE..HEADER_SIZE + |cell|] == cell && b[HEADER_SIZE + |cell|..] == rest;
    assert rest[..8] == BE(target, 8) && rest[8..] == WitnessBody(w);
    WitnessReads(w);
    Widths();
    BERoundTrip(target, 8);
  }

  /** A byte string that decodes is the one encoding of what it decodes to. */
  lemma DecodedIsCanonical(bytes: seq<Byte>)
    requires Decode(bytes).Decoded?
    ensures Encode(Decode(bytes).payload) == Encoded(bytes)
  {
    hide Encode, HeaderCanonical, DecodeFields, DecodeWitness, FromBE, BE;
  }

  /** A witness on the wire: of a kind, on an edge, at a clock up to the one it is for, with evidence. */
  predicate Sayable(w: Witness, target: U64) {
    && w.kind in {LocalDeformation, PhaseSlip, FrameChange} && 0 !in {w.from, w.to, w.clock} && w.clock <= target
    && w.evidence != ZeroDigest()
  }

  predicate NameSayable(n: Name) {
    1 <= |n| <= 63 && 0 !in n
  }

  /** Exactly these are encoded. */
  lemma EncodesIff(p: Payload)
    ensures Encode(p).Encoded? <==>
      match p {
        case ReadingPayload(r) =>
          && NameSayable(r.cell) && 0 !in {r.member, r.clock, r.frameVersion} && r.source != ZeroDigest()
          && r.windowStart <= r.observedAt && r.observedAt <= r.windowEnd && r.windowEnd <= r.sealTime
          && (r.attached.Some? ==> Sayable(r.attached.value, r.clock))
        case Attestation(cell, target, w) => NameSayable(cell) && target != 0 && Sayable(w, target)
      }
  {}

  /** So two different byte strings never decode to the same payload, and a decoded phase is already quantised. */
  lemma DecodeInjective(a: seq<Byte>, b: seq<Byte>)
    requires Decode(a).Decoded? && Decode(b).Decoded? && Decode(a).payload == Decode(b).payload
    ensures a == b
  {
    hide Encode, Decode;
    DecodedIsCanonical(a);
    DecodedIsCanonical(b);
  }
}
