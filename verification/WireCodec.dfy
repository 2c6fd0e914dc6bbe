/** The encoders and the decoder as the program has them: a moving offset over a byte buffer. */
module WireCodec {
  import opened Bytes
  import opened Options
  import opened Frame
  import opened Topology
  import opened Cell
  import opened Scheduler
  import opened Wire

  /** The buffer holds these bytes, and zeros behind them. */
  predicate Written(out: array<Byte>, done: seq<Byte>)
    reads out
  {
    |done| <= out.Length && out[..] == done + Zeros(out.Length - |done|)
  }

  /** Copies bytes to the offset. */
  method PutBytes(out: array<Byte>, offset: nat, s: seq<Byte>, ghost done: seq<Byte>) returns (next: nat)
    requires Written(out, done) && offset == |done| && offset + |s| <= out.Length
    modifies out
    ensures next == offset + |s| && Written(out, done + s)
  {
    var i := 0;
    while i < |s|
      invariant 0 <= i <= |s|
      invariant out[..offset] == done && out[offset..offset + i] == s[..i]
      invariant out[offset + i..] == Zeros(out.Length - offset - i)
    {
      out[offset + i] := s[i];
      i := i + 1;
    }
    assert s[..i] == s;
    assert out[..] == out[..offset] + out[offset..offset + i] + out[offset + i..];
    next := offset + |s|;
  }

  /** Writes a 64-bit field, least significant byte last. */
  method PutU64(out: array<Byte>, offset: nat, value: nat, ghost done: seq<Byte>) returns (next: nat)
    requires Written(out, done) && offset == |done| && offset + 8 <= out.Length
    modifies out
    ensures next == offset + 8 && Written(out, done + BE(value, 8))
  {
    hide BE;
    ghost var tail := out[offset + 8..];
    var rest, i := value, 0;
    ghost var b := BE(value, 8);
    while i < 8
      invariant 0 <= i <= 8 && b[..8 - i] == BE(rest, 8 - i)
      invariant out[..offset] == done && out[offset + 8..] == tail
      invariant forall k :: offset + 8 - i <= k < offset + 8 ==> out[k] == b[k - offset]
    {
      LastByte(rest, 8 - i, b);
      out[offset + 7 - i] := rest % 256;
      rest := rest / 256;
      i := i + 1;
    }
    assert out[offset..offset + 8] == b;
    assert out[..] == out[..offset] + out[offset..offset + 8] + out[offset + 8..];
    assert tail == Zeros(out.Length - offset - 8);
    next := offset + 8;
  }

  lemma LastByte(n: nat, w: nat, b: seq<Byte>)
    requires 0 < w <= |b| && b[..w] == BE(n, w)
    ensures b[w - 1] == n % 256 && b[..w - 1] == BE(n / 256, w - 1)
  {
    assert BE(n, w) == BE(n / 256, w - 1) + [n % 256];
    assert b[..w - 1] == b[..w][..w - 1];
    assert b[w - 1] == b[..w][w - 1];
  }

  /** Clears the buffer and writes the header. */
  method PutHeader(out: array<Byte>, kind: Byte, flags: Byte, total: nat, cell: Name) returns (next: nat)
    requires out.Length == PAYLOAD_MAX && |cell| <= ID_MAX
    modifies out
    ensures next == HEADER_SIZE && Written(out, HeaderBytes(kind, flags, total, cell))
  {
    var i := 0;
    while i < out.Length
      invariant 0 <= i <= out.Length && forall k :: 0 <= k < i ==> out[k] == 0
    {
      out[i] := 0;
      i := i + 1;
    }
    assert out[..] == [] + Zeros(out.Length);
    next := PutBytes(out, 0, HeaderBytes(kind, flags, total, cell), []);
    assert [] + HeaderBytes(kind, flags, total, cell) == HeaderBytes(kind, flags, total, cell);
  }

  method PutWitness(out: array<Byte>, offset: nat, w: Witness, ghost done: seq<Byte>) returns (next: nat)
    requires Written(out, done) && offset == |done| && offset + WITNESS_SIZE <= out.Length
    modifies out
    ensures next == offset + WITNESS_SIZE && Written(out, done + WitnessBody(w))
  {
    hide BE, Written;
    ghost var a := [KindCode(w.kind), 0, 0, 0, 0, 0, 0, 0];
    next := PutBytes(out, offset, [KindCode(w.kind), 0, 0, 0, 0, 0, 0, 0], done);
    next := PutU64(out, next, w.from, done + a);
    next := PutU64(out, next, w.to, done + a + BE(w.from, 8));
    next := PutU64(out, next, w.clock, done + a + BE(w.from, 8) + BE(w.to, 8));
    next := PutBytes(out, next, w.evidence, done + a + BE(w.from, 8) + BE(w.to, 8) + BE(w.clock, 8));
    assert done + a + BE(w.from, 8) + BE(w.to, 8) + BE(w.clock, 8) + w.evidence == done + WitnessBody(w);
  }

  method PutReadingFields(out: array<Byte>, offset: nat, r: Reading, ghost done: seq<Byte>) returns (next: nat)
    requires Written(out, done) && offset == |done| && offset + OBSERVATION_SIZE <= out.Length
    modifies out
    ensures next == offset + OBSERVATION_SIZE && Written(out, done + ReadingFields(r))
  {
    hide BE, Written, Quantise;
    var phase := Quantise(r.phase);
    ghost var d := done;
    next := PutU64(out, offset, r.member, d);
    d := d + BE(r.member, 8);
    next := PutU64(out, next, phase % TWO_64, d);
    d := d + Signed64(phase);
    next := PutU64(out, next, r.observedAt, d);
    d := d + BE(r.observedAt, 8);
    next := PutU64(out, next, r.clock, d);
    d := d + BE(r.clock, 8);
    next := PutU64(out, next, r.frameVersion, d);
    d := d + BE(r.frameVersion, 8);
    next := PutU64(out, next, r.windowStart, d);
    d := d + BE(r.windowStart, 8);
    next := PutU64(out, next, r.windowEnd, d);
    d := d + BE(r.windowEnd, 8);
    next := PutU64(out, next, r.sealTime, d);
    d := d + BE(r.sealTime, 8);
    next := PutBytes(out, next, r.source, d);
    d := d + r.source;
    assert d == done + ReadingFields(r);
  }

  /** Encodes a reading into the buffer, or leaves it alone. */
  method EncodeReadingInto(out: array<Byte>, r: Reading) returns (ok: bool, length: nat)
    requires out.Length == PAYLOAD_MAX
    modifies out
    ensures ok == EncodeReading(r).Encoded?
    ensures ok ==> length == |EncodeReading(r).bytes| && Written(out, EncodeReading(r).bytes)
    ensures !ok ==> out[..] == old(out[..])
  {
    hide Written, HeaderBytes, ReadingFields, WitnessBody, WitnessValid;
    if !ReadingValid(r) {
      return false, 0;
    }
    length := HEADER_SIZE + |r.cell| + OBSERVATION_SIZE + if r.attached.Some? then WITNESS_SIZE else 0;
    var flags: Byte := if r.attached.Some? then 1 else 0;
    ghost var d := HeaderBytes(OBSERVATION, flags, length, r.cell);
    var offset := PutHeader(out, OBSERVATION, flags, length, r.cell);
    offset := PutBytes(out, offset, r.cell, d);
    d := d + r.cell;
    offset := PutReadingFields(out, offset, r, d);
    d := d + ReadingFields(r);
    if r.attached.Some? {
      offset := PutWitness(out, offset, r.attached.value, d);
    } else {
      assert d + ReadingTail(r) == d;
    }
    d := d + ReadingTail(r);
    assert d == EncodeReading(r).bytes;
    ok := true;
  }

  method EncodeWitnessInto(out: array<Byte>, cell: Name, target: U64, w: Witness) returns (ok: bool, length: nat)
    requires out.Length == PAYLOAD_MAX
    modifies out
    ensures ok == EncodeWitness(cell, target, w).Encoded?
    ensures ok ==> length == |EncodeWitness(cell, target, w).bytes|
    ensures ok ==> Written(out, EncodeWitness(cell, target, w).bytes)
    ensures !ok ==> out[..] == old(out[..])
  {
    hide Written, HeaderBytes, WitnessBody, WitnessValid, BE;
    if target == 0 || !CellName(cell) || !WitnessValid(w, target) {
      return false, 0;
    }
    length := HEADER_SIZE + |cell| + 8 + WITNESS_SIZE;
    ghost var d := HeaderBytes(WITNESS, 0, length, cell);
    var offset := PutHeader(out, WITNESS, 0, length, cell);
    offset := PutBytes(out, offset, cell, d);
    d := d + cell;
    offset := PutU64(out, offset, target, d);
    d := d + BE(target, 8);
    offset := PutWitness(out, offset, w, d);
    d := d + WitnessBody(w);
    assert d == EncodeWitness(cell, target, w).bytes;
    ok := true;
  }

  // ---- decoding ----

  /** Reads a 64-bit field, most significant byte first. */
  method GetU64(bytes: seq<Byte>, offset: nat) returns (value: U64)
    requires offset + 8 <= |bytes|
    ensures value == FromBE(bytes[offset..offset + 8])
  {
    hide FromBE, Radix;
    var v: nat, i := 0, 0;
    FromBENone();
    while i < 8
      invariant 0 <= i <= 8 && v == FromBE(bytes[offset..offset + i])
    {
      FromBEStep(bytes[offset..offset + i], bytes[offset + i]);
      assert bytes[offset..offset + i] + [bytes[offset + i]] == bytes[offset..offset + i + 1];
      v := 256 * v + bytes[offset + i];
      i := i + 1;
    }
    Widths();
    value := v;
  }

  lemma FromBENone()
    ensures FromBE([]) == 0
  {}

  lemma FromBEStep(s: seq<Byte>, b: Byte)
    ensures FromBE(s + [b]) == 256 * FromBE(s) + b
  {
    assert (s + [b])[..|s|] == s;
  }

  method ReadWitness(bytes: seq<Byte>, offset: nat) returns (w: Option<Witness>)
    requires offset + WITNESS_SIZE <= |bytes|
    ensures w == DecodeWitness(bytes[offset..offset + WITNESS_SIZE])
  {
    hide FromBE;
    ghost var b := bytes[offset..offset + WITNESS_SIZE];
    var i := 1;
    while i < 8
      invariant 1 <= i <= 8 && forall k :: 1 <= k < i ==> b[k] == 0
    {
      if bytes[offset + i] != 0 {
        assert b[1..8][i - 1] != 0;
        return None;
      }
      i := i + 1;
    }
    assert b[1..8] == [0, 0, 0, 0, 0, 0, 0];
    var from := GetU64(bytes, offset + 8);
    var to := GetU64(bytes, offset + 16);
    var clock := GetU64(bytes, offset + 24);
    SubSlice(bytes, offset, WITNESS_SIZE, 8, 16);
    SubSlice(bytes, offset, WITNESS_SIZE, 16, 24);
    SubSlice(bytes, offset, WITNESS_SIZE, 24, 32);
    SubSlice(bytes, offset, WITNESS_SIZE, 32, 64);
    w := Some(Witness(KindOfCode(bytes[offset]), from, to, clock, bytes[offset + 32..offset + 64]));
  }

  lemma SubSlice(s: seq<Byte>, at: nat, n: nat, i: nat, j: nat)
    requires at + n <= |s| && i <= j <= n
    ensures s[at..at + n][i..j] == s[at + i..at + j]
  {
    var a, b := s[at..at + n][i..j], s[at + i..at + j];
    assert |a| == |b|;
    forall k | 0 <= k < |a| ensures a[k] == b[k] {}
  }

  method ReadFields(cell: Name, bytes: seq<Byte>, offset: nat, w: Option<Witness>) returns (r: Option<Reading>)
    requires offset + OBSERVATION_SIZE <= |bytes|
    ensures r == DecodeFields(cell, bytes[offset..offset + OBSERVATION_SIZE], w)
  {
    hide FromBE, Dequantise;
    ghost var n := OBSERVATION_SIZE;
    var member := GetU64(bytes, offset);
    SubSlice(bytes, offset, n, 0, 8);
    var raw := GetU64(bytes, offset + 8);
    SubSlice(bytes, offset, n, 8, 16);
    var phase: int := if raw <= 0x7FFF_FFFF_FFFF_FFFF then raw else raw - TWO_64;
    if phase <= -PI_QUANTISED || phase > PI_QUANTISED {
      return None;
    }
    var observedAt := GetU64(bytes, offset + 16);
    SubSlice(bytes, offset, n, 16, 24);
    var clock := GetU64(bytes, offset + 24);
    SubSlice(bytes, offset, n, 24, 32);
    var frameVersion := GetU64(bytes, offset + 32);
    SubSlice(bytes, offset, n, 32, 40);
    var windowStart := GetU64(bytes, offset + 40);
    SubSlice(bytes, offset, n, 40, 48);
    var windowEnd := GetU64(bytes, offset + 48);
    SubSlice(bytes, offset, n, 48, 56);
    var sealTime := GetU64(bytes, offset + 56);
    SubSlice(bytes, offset, n, 56, 64);
    SubSlice(bytes, offset, n, 64, 96);
    r := Some(Reading(cell, member, Dequantise(phase), observedAt, clock, frameVersion, windowStart, windowEnd,
                      sealTime, bytes[offset + 64..offset + 96], w));
  }

  /** Encodes what was decoded and compares it with what came in. */
  method SameEncoding(p: Payload, bytes: seq<Byte>) returns (d: Decoded)
    requires |bytes| <= PAYLOAD_MAX
    ensures d == Recoded(p, bytes)
  {
    hide EncodeReading, EncodeWitness;
    var canonical := new Byte[PAYLOAD_MAX];
    var ok, length;
    if p.ReadingPayload? {
      ok, length := EncodeReadingInto(canonical, p.reading);
    } else {
      ok, length := EncodeWitnessInto(canonical, p.cell, p.target, p.w);
    }
    if !ok || length != |bytes| {
      return Undecodable(NotCanonical);
    }
    assert canonical[..length] == Encode(p).bytes;
    var i := 0;
    while i < length
      invariant 0 <= i <= length && forall k :: 0 <= k < i ==> canonical[k] == bytes[k]
    {
      if canonical[i] != bytes[i] {
        assert canonical[..length][i] != bytes[i];
        return Undecodable(NotCanonical);
      }
      i := i + 1;
    }
    assert canonical[..length] == bytes;
    d := Decoded(p);
  }

  /** The decoder: header checks in order, then the fields, then the comparison with the canonical form. */
  method DecodePayload(bytes: seq<Byte>) returns (d: Decoded)
    ensures d == Decode(bytes)
  {
    hide FromBE, DecodeFields, DecodeWitness, Recoded, BeforeNul, WitnessValid;
    if |bytes| < HEADER_SIZE || |bytes| > PAYLOAD_MAX {
      return Undecodable(Invalid);
    }
    if bytes[..4] != Magic() || FromBE(bytes[4..6]) != VERSION {
      return Undecodable(Schema);
    }
    var kind, flags, n := bytes[6], bytes[7], bytes[10];
    if FromBE(bytes[8..10]) != |bytes| || bytes[11] != 0 || n == 0 || n > ID_MAX
       || (kind != OBSERVATION && kind != WITNESS) {
      return Undecodable(NotCanonical);
    }
    if (kind == OBSERVATION && flags != 0 && flags != 1) || (kind == WITNESS && flags != 0) {
      return Undecodable(NotCanonical);
    }
    var expected := HEADER_SIZE + n
      + (if kind == OBSERVATION then OBSERVATION_SIZE + (if flags == 1 then WITNESS_SIZE else 0) else 8 + WITNESS_SIZE);
    if expected != |bytes| {
      return Undecodable(NotCanonical);
    }
    assert HeaderCanonical(bytes);
    if kind == OBSERVATION {
      d := DecodeObservationAt(bytes, n, flags == 1);
    } else {
      d := DecodeAttestationAt(bytes, n);
    }
  }

  method DecodeObservationAt(bytes: seq<Byte>, n: nat, flagged: bool) returns (d: Decoded)
    requires |bytes| == HEADER_SIZE + n + OBSERVATION_SIZE + (if flagged then WITNESS_SIZE else 0) <= PAYLOAD_MAX
    ensures d == DecodeReading(bytes, n, flagged)
  {
    hide FromBE, DecodeFields, DecodeWitness, Recoded, BeforeNul;
    var offset := HEADER_SIZE;
    var cell := BeforeNul(bytes[offset..offset + n]);
    offset := offset + n;
    ghost var rest := bytes[offset..];
    var w: Option<Witness> := None;
    if flagged {
      w := ReadWitness(bytes, offset + OBSERVATION_SIZE);
      assert bytes[offset + OBSERVATION_SIZE..offset + OBSERVATION_SIZE + WITNESS_SIZE] == rest[OBSERVATION_SIZE..];
    }
    assert bytes[offset..offset + OBSERVATION_SIZE] == rest[..OBSERVATION_SIZE];
    var r := ReadFields(cell, bytes, offset, w);
    if r.None? || (flagged && w.None?) {
      return Undecodable(NotCanonical);
    }
    d := SameEncoding(ReadingPayload(r.value), bytes);
  }

  method DecodeAttestationAt(bytes: seq<Byte>, n: nat) returns (d: Decoded)
    requires |bytes| == HEADER_SIZE + n + 8 + WITNESS_SIZE <= PAYLOAD_MAX
    ensures d == DecodeAttestation(bytes, n)
  {
    hide FromBE, DecodeWitness, Recoded, BeforeNul, WitnessValid;
    var offset := HEADER_SIZE;
    var cell := BeforeNul(bytes[offset..offset + n]);
    offset := offset + n;
    ghost var rest := bytes[offset..];
    var target := GetU64(bytes, offset);
    assert bytes[offset..offset + 8] == rest[..8];
    offset := offset + 8;
    var w := ReadWitness(bytes, offset);
    assert bytes[offset..offset + WITNESS_SIZE] == rest[8..];
    if w.None? {
      return Undecodable(NotCanonical);
    }
    if !WitnessValid(w.value, target) {
      return Undecodable(NotCanonical);
    }
    d := SameEncoding(Attestation(cell, target, w.value), bytes);
  }
}
