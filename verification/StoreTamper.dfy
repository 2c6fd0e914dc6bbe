/**
 * Any single-byte change to a fully sealed log scans as corrupt: never as clean, and never as a
 * tail, which would license truncation. The digest is arbitrary; the only hypothesis is that it does
 * not collide on the two versions of a stretch the scanner digests: a framing, a payload, the base.
 */
module StoreTamper {
  import opened Bytes
  import opened StoreFormat
  import opened StoreScan
  import opened StoreRefine

  predicate DiffersAt(file: seq<Byte>, other: seq<Byte>, p: nat) {
    && |other| == |file| && p < |file| && other[p] != file[p]
    && forall i :: 0 <= i < |file| && i != p ==> other[i] == file[i]
  }

  /** A stretch of a file. */
  datatype Span = Span(start: nat, end: nat)

  /** The framings and payloads of DATA records from an offset on. */
  function DataSpans(ps: seq<Payload>, at: nat): set<Span> {
    if ps == [] then {}
    else
      {Span(at, at + FRAMING_SIZE), Span(at + HEADER_SIZE, at + HEADER_SIZE + |ps[0]|)}
      + DataSpans(ps[1..], at + HEADER_SIZE + |ps[0]|)
  }

  function DataSize(ps: seq<Payload>): nat {
    if ps == [] then 0 else HEADER_SIZE + |ps[0]| + DataSize(ps[1..])
  }

  function TxnSpans(t: seq<Payload>, at: nat): set<Span> {
    DataSpans(t, at) + {Span(at + DataSize(t), at + DataSize(t) + FRAMING_SIZE)}
  }

  function TailSpans(ts: seq<Txn>, at: nat): set<Span> {
    if ts == [] then {} else TxnSpans(ts[0], at) + TailSpans(ts[1..], at + DataSize(ts[0]) + HEADER_SIZE)
  }

  /** Every stretch of the log's file that the scanner digests and compares. */
  function Compared(l: Log): set<Span> {
    {Span(0, FRAMING_SIZE), Span(HEADER_SIZE, HEAD_SIZE)} + TailSpans(l.txns, HEAD_SIZE)
  }

  /** On these stretches the digest tells the two files apart wherever they differ. */
  predicate NoCollision(H: Hash, spans: set<Span>, file: seq<Byte>, other: seq<Byte>) {
    forall x <- spans ::
      (x.start <= x.end <= |file| && x.end <= |other| && H(file[x.start..x.end]) == H(other[x.start..x.end]))
      ==> file[x.start..x.end] == other[x.start..x.end]
  }

  lemma {:induction false} DataSizeIs(H: Hash, ps: seq<Payload>, events: U64)
    ensures |DataRecords(H, ps, events)| == DataSize(ps)
    decreases ps
  {
    if ps != [] {
      DataSizeIs(H, ps[1..], Add64(events, 1));
    }
  }

  lemma TxnSizeIs(H: Hash, t: Txn, events: U64, sealed: U64)
    ensures |TxnBytes(H, t, events, sealed)| == DataSize(t) + HEADER_SIZE
  {
    DataSizeIs(H, t, events);
  }

  lemma SliceAway(file: seq<Byte>, other: seq<Byte>, p: nat, i: nat, j: nat)
    requires DiffersAt(file, other, p) && i <= j <= |file| && !(i <= p < j)
    ensures other[i..j] == file[i..j]
  {}

  lemma SliceOver(file: seq<Byte>, other: seq<Byte>, p: nat, i: nat, j: nat)
    requires DiffersAt(file, other, p) && i <= p < j <= |file|
    ensures other[i..j] != file[i..j]
  {
    assert other[i..j][p - i] == other[p];
    assert file[i..j][p - i] == file[p];
  }

  lemma SliceOfSlice(file: seq<Byte>, o: nat, n: nat, i: nat, j: nat)
    requires o + n <= |file| && i <= j <= n
    ensures file[o..o + n][i..j] == file[o + i..o + j]
  {
    var w := file[o..o + n];
    assert forall k :: 0 <= k < j - i ==> w[i..j][k] == w[i + k] == file[o + i + k];
  }

  /** A change to the framing or to its tag is caught by the tag. */
  lemma FramingTampered(H: Hash, spans: set<Span>, file: seq<Byte>, other: seq<Byte>, p: nat, o: nat)
    requires DiffersAt(file, other, p) && NoCollision(H, spans, file, other)
    requires o + HEADER_SIZE <= |file| && Authentic(H, file[o..o + HEADER_SIZE])
    requires o <= p < o + 49 && Span(o, o + FRAMING_SIZE) in spans
    ensures !Authentic(H, other[o..o + HEADER_SIZE])
  {
    SliceOfSlice(file, o, HEADER_SIZE, 0, 17);
    SliceOfSlice(file, o, HEADER_SIZE, 17, 49);
    SliceOfSlice(other, o, HEADER_SIZE, 0, 17);
    SliceOfSlice(other, o, HEADER_SIZE, 17, 49);
    if p < o + 17 {
      SliceOver(file, other, p, o, o + 17);
      SliceAway(file, other, p, o + 17, o + 49);
    } else {
      SliceAway(file, other, p, o, o + 17);
      SliceOver(file, other, p, o + 17, o + 49);
    }
  }

  /** Past the tag, the header still says what it said, except for its digest. */
  lemma HeaderKept(H: Hash, file: seq<Byte>, other: seq<Byte>, p: nat, o: nat)
    requires DiffersAt(file, other, p)
    requires o + HEADER_SIZE <= |file| && o + 49 <= p
    ensures var h, h' := file[o..o + HEADER_SIZE], other[o..o + HEADER_SIZE];
      && (Authentic(H, h) ==> Authentic(H, h')) && Kind(h') == Kind(h)
      && PayloadLen(h') == PayloadLen(h) && Sequence(h') == Sequence(h)
      && (RecordDigest(h') == RecordDigest(h) <==> p >= o + HEADER_SIZE)
  {
    hide FromLE;
    SliceAway(file, other, p, o, o + 49);
    SameParts(file, other, o, 0, 4);
    SameParts(file, other, o, 0, 17);
    SameParts(file, other, o, 17, 49);
    SameParts(file, other, o, 5, 13);
    SameParts(file, other, o, 13, 17);
    SliceOfSlice(file, o, HEADER_SIZE, 49, 81);
    SliceOfSlice(other, o, HEADER_SIZE, 49, 81);
    if p < o + HEADER_SIZE {
      SliceOver(file, other, p, o + 49, o + 81);
    } else {
      SliceAway(file, other, p, o + 49, o + 81);
    }
  }

  lemma SameParts(file: seq<Byte>, other: seq<Byte>, o: nat, i: nat, j: nat)
    requires |file| == |other| && o + HEADER_SIZE <= |file| && i <= j <= 49
    requires file[o..o + 49] == other[o..o + 49]
    ensures file[o..o + HEADER_SIZE][i..j] == other[o..o + HEADER_SIZE][i..j]
  {
    SliceOfSlice(file, o, HEADER_SIZE, i, j);
    SliceOfSlice(other, o, HEADER_SIZE, i, j);
    SliceOfSlice(file, o, 49, i, j);
    SliceOfSlice(other, o, 49, i, j);
  }

  lemma DataTampered(H: Hash, spans: set<Span>, file: seq<Byte>, other: seq<Byte>, p: nat, c: Cursor, payload: Payload)
    requires DiffersAt(file, other, p) && NoCollision(H, spans, file, other)
    requires At(file, c.offset, DataRecord(H, payload, c.expectEvent))
    requires c.offset <= p < c.offset + HEADER_SIZE + |payload|
    requires DataSpans([payload], c.offset) <= spans
    ensures Step(H, other, c) == Stop(Corrupt)
  {
    hide FromLE, LE, Header, Authentic, RecordDigest, TakeData;
    var o, at := c.offset, c.offset + HEADER_SIZE;
    var n := |payload|;
    HeaderFields(H, DATA, c.expectEvent, n, H(payload));
    AtSplit(file, o, Header(H, DATA, c.expectEvent, n, H(payload)), payload);
    if p < o + 49 {
      FramingTampered(H, spans, file, other, p, o);
    } else {
      HeaderKept(H, file, other, p, o);
      if p >= at {
        SliceOver(file, other, p, at, at + n);
      } else {
        SliceAway(file, other, p, at, at + n);
      }
    }
  }

  lemma SealTampered(H: Hash, spans: set<Span>, file: seq<Byte>, other: seq<Byte>, p: nat, c: Cursor)
    requires DiffersAt(file, other, p) && NoCollision(H, spans, file, other)
    requires At(file, c.offset, Header(H, SEAL, c.expectSeal, 0, H(c.txn)))
    requires c.offset <= p < c.offset + HEADER_SIZE && Span(c.offset, c.offset + FRAMING_SIZE) in spans
    ensures Step(H, other, c) == Stop(Corrupt)
  {
    hide FromLE, LE;
    HeaderFields(H, SEAL, c.expectSeal, 0, H(c.txn));
    if p < c.offset + 49 {
      FramingTampered(H, spans, file, other, p, c.offset);
    } else {
      HeaderKept(H, file, other, p, c.offset);
    }
  }

  lemma HeadTampered(H: Hash, spans: set<Span>, file: seq<Byte>, other: seq<Byte>, p: nat, generation: U64, b: Base)
    requires DiffersAt(file, other, p) && NoCollision(H, spans, file, other)
    requires At(file, 0, HeadRecord(H, generation, b)) && p < HEAD_SIZE
    requires Span(0, FRAMING_SIZE) in spans && Span(HEADER_SIZE, HEAD_SIZE) in spans
    ensures !HeadValid(H, other)
  {
    hide FromLE, LE;
    var d := H(Body(b));
    HeaderFields(H, HEAD, generation, HEAD_BODY, d);
    AtSplit(file, 0, Header(H, HEAD, generation, HEAD_BODY, d), Body(b));
    assert file[..HEADER_SIZE] == file[0..HEADER_SIZE] && other[..HEADER_SIZE] == other[0..HEADER_SIZE];
    if p < 49 {
      FramingTampered(H, spans, file, other, p, 0);
    } else {
      HeaderKept(H, file, other, p, 0);
      if p >= HEADER_SIZE {
        SliceOver(file, other, p, HEADER_SIZE, HEAD_SIZE);
      } else {
        SliceAway(file, other, p, HEADER_SIZE, HEAD_SIZE);
      }
    }
  }

  lemma StopsHere(H: Hash, file: seq<Byte>, c: Cursor)
    requires c.offset <= |file| && Step(H, file, c) == Stop(Corrupt)
    ensures ScanFrom(H, file, c) == End(Corrupt, c)
  {}

  lemma {:induction false} DataRunTampered(
    H: Hash, spans: set<Span>, file: seq<Byte>, other: seq<Byte>, p: nat, c: Cursor, ps: seq<Payload>, events: U64)
    requires DiffersAt(file, other, p) && NoCollision(H, spans, file, other)
    requires At(file, c.offset, DataRecords(H, ps, events)) && c.expectEvent == Add64(events, 1)
    requires c.offset <= p < c.offset + |DataRecords(H, ps, events)| && DataSpans(ps, c.offset) <= spans
    ensures ScanFrom(H, other, c).state == Corrupt
    decreases ps
  {
    hide DataRecord, Step;
    var e := Add64(events, 1);
    var first := DataRecord(H, ps[0], e);
    AtSplit(file, c.offset, first, DataRecords(H, ps[1..], e));
    if p < c.offset + |first| {
      DataTampered(H, spans, file, other, p, c, ps[0]);
      StopsHere(H, other, c);
    } else {
      SliceAway(file, other, p, c.offset, c.offset + |first|);
      DataTurn(H, other, c, ps[0]);
      DataRunTampered(H, spans, file, other, p, TakeData(c, H(ps[0]), |ps[0]|, H), ps[1..], e);
    }
  }

  lemma TxnTampered(H: Hash, spans: set<Span>, file: seq<Byte>, other: seq<Byte>, p: nat, c: Cursor, t: Txn)
    requires DiffersAt(file, other, p) && NoCollision(H, spans, file, other)
    requires Boundary(c) && At(file, c.offset, TxnBytes(H, t, c.events, c.sealed))
    requires c.offset <= p < c.offset + |TxnBytes(H, t, c.events, c.sealed)| && TxnSpans(t, c.offset) <= spans
    ensures ScanFrom(H, other, c).state == Corrupt
  {
    hide Step, ScanFrom, DataRecords, AfterData, Header, DataSize, DataSpans, NoCollision;
    var data := DataRecords(H, t, c.events);
    AtSplit(file, c.offset, data, SealRecord(H, t, c.expectSeal));
    if p < c.offset + |data| {
      DataRunTampered(H, spans, file, other, p, c, t, c.events);
    } else {
      SliceAway(file, other, p, c.offset, c.offset + |data|);
      DataScans(H, other, c, t, c.events);
      AfterDataFields(H, c, t, c.events);
      var d := AfterData(H, c, t);
      assert d.txn == Digests(H, t);
      DataSizeIs(H, t, c.events);
      SealTampered(H, spans, file, other, p, d);
      StopsHere(H, other, d);
    }
  }

  lemma {:induction false} TxnsTampered(
    H: Hash, spans: set<Span>, file: seq<Byte>, other: seq<Byte>, p: nat, c: Cursor, ts: seq<Txn>)
    requires DiffersAt(file, other, p) && NoCollision(H, spans, file, other)
    requires Boundary(c) && At(file, c.offset, LogTail(H, ts, c.events, c.sealed))
    requires c.offset <= p < c.offset + |LogTail(H, ts, c.events, c.sealed)| && TailSpans(ts, c.offset) <= spans
    ensures ScanFrom(H, other, c).state == Corrupt
    decreases ts
  {
    hide ScanFrom, AfterTxn, TxnBytes, TxnSpans, DataSize, NoCollision;
    TxnSizeIs(H, ts[0], c.events, c.sealed);
    var d := AfterTxn(H, c, ts[0]);
    AfterTxnFields(H, c, ts[0]);
    var first := TxnBytes(H, ts[0], c.events, c.sealed);
    AtSplit(file, c.offset, first, LogTail(H, ts[1..], d.events, d.sealed));
    if p < c.offset + |first| {
      TxnTampered(H, spans, file, other, p, c, ts[0]);
    } else {
      SliceAway(file, other, p, c.offset, c.offset + |first|);
      TxnScans(H, other, c, ts[0]);
      TxnsTampered(H, spans, file, other, p, d, ts[1..]);
    }
  }

  /** One changed byte anywhere in a fully sealed log makes the scan report corruption. */
  lemma OneByteChangeIsCorrupt(H: Hash, l: Log, p: nat, b: Byte)
    requires p < |LogBytes(H, l)| && b != LogBytes(H, l)[p]
    requires NoCollision(H, Compared(l), LogBytes(H, l), LogBytes(H, l)[p := b])
    ensures Scan(H, LogBytes(H, l)[p := b]).state == Corrupt
  {
    hide LogTail, HeadRecord, HeadValid, HeadBase, ScanFrom;
    var file := LogBytes(H, l);
    var other := file[p := b];
    var spans := Compared(l);
    assert DiffersAt(file, other, p);
    var head, tail := HeadRecord(H, l.generation, l.base), LogTail(H, l.txns, l.base.events, l.base.sealed);
    assert At(file, 0, head + tail);
    AtSplit(file, 0, head, tail);
    if p < HEAD_SIZE {
      HeadTampered(H, spans, file, other, p, l.generation, l.base);
    } else {
      SliceAway(file, other, p, 0, HEAD_SIZE);
      HeadScans(H, l, other);
      TxnsTampered(H, spans, file, other, p, StartCursor(l.base), l.txns);
    }
  }
}
