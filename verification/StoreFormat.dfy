/**
 * The record format of the durable log: a HEAD record, then transactions of DATA records closed by
 * a SEAL. The digest is a parameter of every function; nothing is assumed about it.
 */
module StoreFormat {
  import opened Bytes

  const MAGIC: seq<Byte> := [0x43, 0x44, 0x43, 0x32]
  const DATA: Byte := 0x44
  const SEAL: Byte := 0x53
  const HEAD: Byte := 0x48

  const FRAMING_SIZE: nat := 17
  const HEADER_SIZE: nat := 81
  const HEAD_BODY: nat := 96
  const MAX_RECORD: nat := 0x400_0000

  /** Magic, type, sequence number and payload length: the bytes the framing tag authenticates. */
  function Framing(kind: Byte, sequence: U64, len: U32): (f: seq<Byte>)
    ensures |f| == FRAMING_SIZE
  {
    MAGIC + [kind] + LE(sequence, 8) + LE(len, 4)
  }

  function Header(H: Hash, kind: Byte, sequence: U64, len: U32, digest: Digest): (h: seq<Byte>)
    ensures |h| == HEADER_SIZE
  {
    Framing(kind, sequence, len) + H(Framing(kind, sequence, len)) + digest
  }

  /** What a reader extracts from a header. */
  function Kind(h: seq<Byte>): Byte
    requires |h| == HEADER_SIZE
  {
    h[4]
  }

  function Sequence(h: seq<Byte>): U64
    requires |h| == HEADER_SIZE
  {
    Widths();
    FromLE(h[5..13])
  }

  function PayloadLen(h: seq<Byte>): U32
    requires |h| == HEADER_SIZE
  {
    Widths();
    FromLE(h[13..17])
  }

  function RecordDigest(h: seq<Byte>): Digest
    requires |h| == HEADER_SIZE
  {
    h[49..81]
  }

  /** The framing is this format's and carries its own tag. */
  predicate Authentic(H: Hash, h: seq<Byte>)
    requires |h| == HEADER_SIZE
  {
    h[..4] == MAGIC && H(h[..FRAMING_SIZE]) == h[17..49]
  }

  lemma HeaderFields(H: Hash, kind: Byte, sequence: U64, len: U32, digest: Digest)
    ensures var h := Header(H, kind, sequence, len, digest);
      && Authentic(H, h) && Kind(h) == kind && Sequence(h) == sequence && PayloadLen(h) == len
      && RecordDigest(h) == digest
  {
    hide LE, FromLE;
    var f := Framing(kind, sequence, len);
    var h := Header(H, kind, sequence, len, digest);
    assert h[..FRAMING_SIZE] == f && h[17..49] == H(f) && h[49..81] == digest;
    assert f[..4] == MAGIC && f[4] == kind && f[5..13] == LE(sequence, 8) && f[13..17] == LE(len, 4);
    assert h[..4] == f[..4] && h[5..13] == f[5..13] && h[13..17] == f[13..17];
    Widths();
    LERoundTrip(sequence, 8);
    LERoundTrip(len, 4);
  }

  /** An authentic header is the header of its own fields. */
  lemma HeaderOfFields(H: Hash, h: seq<Byte>)
    requires |h| == HEADER_SIZE && Authentic(H, h)
    ensures h == Header(H, Kind(h), Sequence(h), PayloadLen(h), RecordDigest(h))
  {
    FromLERoundTrip(h[5..13]);
    FromLERoundTrip(h[13..17]);
    assert h[..FRAMING_SIZE] == h[..4] + [h[4]] + h[5..13] + h[13..17];
    assert h == h[..FRAMING_SIZE] + h[17..49] + h[49..81];
  }

  // ---- the HEAD record ----

  type Uuid = s: seq<Byte> | |s| == 16 witness seq(16, _ => 0)

  /** The store's identity and its compaction base. */
  datatype Base = Base(uuid: Uuid, sealed: U64, events: U64, state: Digest, anchor: Digest)

  function Body(b: Base): (r: seq<Byte>)
    ensures |r| == HEAD_BODY
  {
    b.uuid + LE(b.sealed, 8) + LE(b.events, 8) + b.state + b.anchor
  }

  function ParseBody(r: seq<Byte>): Base
    requires |r| == HEAD_BODY
  {
    Widths();
    Base(r[..16], FromLE(r[16..24]), FromLE(r[24..32]), r[32..64], r[64..96])
  }

  lemma ParseBodyOf(b: Base)
    ensures ParseBody(Body(b)) == b
  {
    hide LE, FromLE;
    Widths();
    LERoundTrip(b.sealed, 8);
    LERoundTrip(b.events, 8);
    var r := Body(b);
    assert r[..16] == b.uuid && r[16..24] == LE(b.sealed, 8) && r[24..32] == LE(b.events, 8);
    assert r[32..64] == b.state && r[64..96] == b.anchor;
  }

  lemma BodyOfParse(r: seq<Byte>)
    requires |r| == HEAD_BODY
    ensures Body(ParseBody(r)) == r
  {
    FromLERoundTrip(r[16..24]);
    FromLERoundTrip(r[24..32]);
    assert r == r[..16] + r[16..24] + r[24..32] + r[32..64] + r[64..96];
  }

  const HEAD_SIZE: nat := HEADER_SIZE + HEAD_BODY

  function HeadRecord(H: Hash, generation: U64, b: Base): (r: seq<Byte>)
    ensures |r| == HEAD_SIZE
  {
    Header(H, HEAD, generation, HEAD_BODY, H(Body(b))) + Body(b)
  }

  // ---- transactions ----

  type Payload = p: seq<Byte> | |p| <= MAX_RECORD

  const NO_BYTES: Payload := []

  /** The payloads of one transaction; a commit refuses an empty one. */
  type Txn = t: seq<Payload> | |t| > 0 witness [NO_BYTES]

  function DataRecord(H: Hash, p: Payload, sequence: U64): (r: seq<Byte>)
    ensures |r| == HEADER_SIZE + |p|
  {
    Header(H, DATA, sequence, |p|, H(p)) + p
  }

  /** The DATA records of some payloads; `events` counts the events before them. */
  function DataRecords(H: Hash, ps: seq<Payload>, events: U64): seq<Byte> {
    if ps == [] then [] else DataRecord(H, ps[0], Add64(events, 1)) + DataRecords(H, ps[1..], Add64(events, 1))
  }

  /** The digests a seal covers, one after another. */
  function Digests(H: Hash, ps: seq<Payload>): seq<Byte> {
    if ps == [] then [] else H(ps[0]) + Digests(H, ps[1..])
  }

  lemma {:induction false} DigestsAppend(H: Hash, ps: seq<Payload>, p: Payload)
    ensures Digests(H, ps + [p]) == Digests(H, ps) + H(p)
    decreases ps
  {
    if ps == [] {
      assert ps + [p] == [p];
    } else {
      DigestsAppend(H, ps[1..], p);
      assert (ps + [p])[1..] == ps[1..] + [p];
    }
  }

  function SealRecord(H: Hash, t: seq<Payload>, sequence: U64): (r: seq<Byte>)
    ensures |r| == HEADER_SIZE
  {
    Header(H, SEAL, sequence, 0, H(Digests(H, t)))
  }

  function TxnBytes(H: Hash, t: Txn, events: U64, sealed: U64): seq<Byte> {
    DataRecords(H, t, events) + SealRecord(H, t, Add64(sealed, 1))
  }

  function LogTail(H: Hash, ts: seq<Txn>, events: U64, sealed: U64): seq<Byte> {
    if ts == [] then []
    else TxnBytes(H, ts[0], events, sealed) + LogTail(H, ts[1..], Add64(events, |ts[0]|), Add64(sealed, 1))
  }

  /** A fully sealed log. */
  datatype Log = Log(generation: U64, base: Base, txns: seq<Txn>)

  function LogBytes(H: Hash, l: Log): seq<Byte> {
    HeadRecord(H, l.generation, l.base) + LogTail(H, l.txns, l.base.events, l.base.sealed)
  }

  function Events(ts: seq<Txn>): nat {
    if ts == [] then 0 else |ts[0]| + Events(ts[1..])
  }

  // ---- the replay chain ----

  function Fold(H: Hash, chain: Digest, digest: Digest): Digest {
    H(chain + digest)
  }

  function FoldPayloads(H: Hash, chain: Digest, ps: seq<Payload>): Digest
    decreases ps
  {
    if ps == [] then chain else FoldPayloads(H, Fold(H, chain, H(ps[0])), ps[1..])
  }

  /** One transaction folds in each payload digest, then the seal digest. */
  function FoldTxn(H: Hash, chain: Digest, t: Txn): Digest {
    Fold(H, FoldPayloads(H, chain, t), H(Digests(H, t)))
  }

  /** The replay identity of a history, resumed from a base state. */
  function Replay(H: Hash, chain: Digest, ts: seq<Txn>): Digest
    decreases ts
  {
    if ts == [] then chain else Replay(H, FoldTxn(H, chain, ts[0]), ts[1..])
  }
}
