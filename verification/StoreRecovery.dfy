/**
 * Crash atomicity at byte level. Whatever prefix of a commit's bytes reaches the file, the scan is
 * clean or a recoverable tail, and truncation to the valid bytes gives the old log, or the new one
 * when the whole seal landed. Conversely every file the scanner does not refuse is an encoded log
 * followed by such a tail.
 */
module StoreRecovery {
  import opened Bytes
  import opened StoreFormat
  import opened StoreScan
  import opened StoreRefine

  /** Bytes after the last complete record: none, an incomplete header, or a DATA header whose payload is cut. */
  predicate Torn(H: Hash, r: seq<Byte>) {
    || |r| < HEADER_SIZE
    || (var h := r[..HEADER_SIZE];
        && Authentic(H, h) && Kind(h) == DATA && PayloadLen(h) <= MAX_RECORD
        && |r| < HEADER_SIZE + PayloadLen(h))
  }

  /**
   * What may follow a sealed log without being corruption: complete DATA records of an unsealed transaction,
   * then torn bytes.
   */
  datatype Rest = Rest(events: seq<Payload>, torn: seq<Byte>)

  predicate Recoverable(H: Hash, r: Rest) {
    Torn(H, r.torn)
  }

  function RestBytes(H: Hash, r: Rest, events: U64): seq<Byte> {
    DataRecords(H, r.events, events) + r.torn
  }

  /** The events a log has sealed. */
  function SealedEvents(l: Log): U64 {
    Add64(l.base.events, Events(l.txns))
  }

  function SealedCount(l: Log): U64 {
    Add64(l.base.sealed, |l.txns|)
  }

  lemma TornStops(H: Hash, file: seq<Byte>, c: Cursor)
    requires c.offset <= |file| && Torn(H, file[c.offset..])
    ensures Step(H, file, c) == Stop(if c.offset == |file| then Clean else Tail)
  {
    var r := file[c.offset..];
    if |r| >= HEADER_SIZE {
      assert r[..HEADER_SIZE] == file[c.offset..c.offset + HEADER_SIZE];
    }
  }

  /**
   * A sealed log followed by a recoverable rest scans as the log alone, marked as a tail unless
   * nothing follows.
   */
  lemma RestScans(H: Hash, l: Log, r: Rest)
    requires Recoverable(H, r)
    ensures Scan(H, LogBytes(H, l) + RestBytes(H, r, SealedEvents(l)))
         == Found(H, l, if r == Rest([], []) then Clean else Tail)
  {
    hide LogBytes, EndCursor, DataRecords, Step, Torn, AfterData;
    var e := SealedEvents(l);
    var rest := RestBytes(H, r, e);
    var file := LogBytes(H, l) + rest;
    ScanReachesEnd(H, l, rest);
    var c := EndCursor(H, l);
    assert file[c.offset..] == rest;
    assert file[c.offset..c.offset + |rest|] == rest;
    AtSplit(file, c.offset, DataRecords(H, r.events, e), r.torn);
    DataScans(H, file, c, r.events, e);
    var d := AfterData(H, c, r.events);
    AfterDataFields(H, c, r.events, e);
    assert file[d.offset..] == r.torn;
    TornStops(H, file, d);
    DataRecordsEmpty(H, r.events, e);
  }

  lemma DataRecordsEmpty(H: Hash, ps: seq<Payload>, events: U64)
    ensures |DataRecords(H, ps, events)| == 0 <==> ps == []
  {}

  // ---- prefixes of what a commit appends ----

  lemma {:induction false} PrefixOfData(H: Hash, ps: seq<Payload>, events: U64, k: nat) returns (r: Rest)
    requires k <= |DataRecords(H, ps, events)|
    ensures Recoverable(H, r)
    ensures DataRecords(H, ps, events)[..k] == RestBytes(H, r, events)
    ensures k == 0 <==> r == Rest([], [])
    ensures r.events <= ps && (k == |DataRecords(H, ps, events)| ==> r == Rest(ps, []))
    decreases ps
  {
    hide DataRecord, Torn;
    var all := DataRecords(H, ps, events);
    if ps == [] {
      r := Rest([], []);
      NothingIsTorn(H);
    } else {
      var e := Add64(events, 1);
      var first, more := DataRecord(H, ps[0], e), DataRecords(H, ps[1..], e);
      if k < |first| {
        r := Rest([], first[..k]);
        PrefixOfRecordIsTorn(H, ps[0], e, k);
        assert all[..k] == first[..k] == [] + first[..k];
      } else {
        var r' := PrefixOfData(H, ps[1..], e, k - |first|);
        r := Rest([ps[0]] + r'.events, r'.torn);
        assert all[..k] == first + more[..k - |first|];
        DataRecordsCons(H, ps[0], r'.events, events);
        assert first + (DataRecords(H, r'.events, e) + r'.torn) == (first + DataRecords(H, r'.events, e)) + r'.torn;
      }
    }
  }

  lemma NothingIsTorn(H: Hash)
    ensures Torn(H, [])
  {}

  lemma DataRecordsCons(H: Hash, p: Payload, ps: seq<Payload>, events: U64)
    ensures DataRecords(H, [p] + ps, events)
         == DataRecord(H, p, Add64(events, 1)) + DataRecords(H, ps, Add64(events, 1))
  {
    hide DataRecord;
    assert ([p] + ps)[1..] == ps;
  }

  lemma PrefixOfRecordIsTorn(H: Hash, p: Payload, sequence: U64, k: nat)
    requires k < |DataRecord(H, p, sequence)|
    ensures Torn(H, DataRecord(H, p, sequence)[..k])
  {
    if k >= HEADER_SIZE {
      HeaderFields(H, DATA, sequence, |p|, H(p));
      assert DataRecord(H, p, sequence)[..k][..HEADER_SIZE] == Header(H, DATA, sequence, |p|, H(p));
    }
  }

  lemma PrefixOfTxn(H: Hash, t: Txn, events: U64, sealed: U64, k: nat) returns (r: Rest)
    requires k < |TxnBytes(H, t, events, sealed)|
    ensures Recoverable(H, r)
    ensures TxnBytes(H, t, events, sealed)[..k] == RestBytes(H, r, events)
    ensures k == 0 <==> r == Rest([], [])
    ensures r.events <= t
  {
    hide DataRecords;
    var data, close := DataRecords(H, t, events), SealRecord(H, t, Add64(sealed, 1));
    var all := TxnBytes(H, t, events, sealed);
    if k <= |data| {
      r := PrefixOfData(H, t, events, k);
      assert all[..k] == data[..k];
    } else {
      r := Rest(t, close[..k - |data|]);
      assert all[..k] == data + close[..k - |data|];
    }
  }

  lemma {:induction false} LogTailAppend(H: Hash, ts: seq<Txn>, t: Txn, events: U64, sealed: U64)
    ensures LogTail(H, ts + [t], events, sealed)
         == LogTail(H, ts, events, sealed) + TxnBytes(H, t, Add64(events, Events(ts)), Add64(sealed, |ts|))
    ensures Events(ts + [t]) == Events(ts) + |t|
    decreases ts
  {
    hide TxnBytes;
    if ts == [] {
      assert [] + [t] == [t];
      assert LogTail(H, [t][1..], Add64(events, |t|), Add64(sealed, 1)) == [];
    } else {
      var e, s := Add64(events, |ts[0]|), Add64(sealed, 1);
      LogTailAppend(H, ts[1..], t, e, s);
      assert (ts + [t])[1..] == ts[1..] + [t];
      AddAdd(events, |ts[0]|, Events(ts[1..]));
      AddAdd(sealed, 1, |ts| - 1);
    }
  }

  lemma {:induction false} ReplayAppend(H: Hash, chain: Digest, ts: seq<Txn>, t: Txn)
    ensures Replay(H, chain, ts + [t]) == FoldTxn(H, Replay(H, chain, ts), t)
    decreases ts
  {
    hide FoldTxn;
    if ts == [] {
      assert [] + [t] == [t];
    } else {
      ReplayAppend(H, FoldTxn(H, chain, ts[0]), ts[1..], t);
      assert (ts + [t])[1..] == ts[1..] + [t];
    }
  }

  /** The bytes a commit of t appends to the log l. */
  function Appended(H: Hash, l: Log, t: Txn): seq<Byte> {
    TxnBytes(H, t, SealedEvents(l), SealedCount(l))
  }

  function Extended(l: Log, t: Txn): Log {
    l.(txns := l.txns + [t])
  }

  lemma AppendIsExtension(H: Hash, l: Log, t: Txn)
    ensures LogBytes(H, l) + Appended(H, l, t) == LogBytes(H, Extended(l, t))
  {
    hide LogTail, TxnBytes, HeadRecord;
    LogTailAppend(H, l.txns, t, l.base.events, l.base.sealed);
  }

  /**
   * Crash atomicity: with k bytes of a commit of t on the file, the scan is never corrupt. Short of
   * the whole commit it finds the old log (a tail as soon as one byte landed), and cutting the file
   * to the valid bytes gives exactly the old log; with the whole commit it finds the new log, clean.
   */
  lemma CrashAtomic(H: Hash, l: Log, t: Txn, k: nat)
    requires k <= |Appended(H, l, t)|
    ensures var file := LogBytes(H, l) + Appended(H, l, t)[..k];
      var whole := k == |Appended(H, l, t)|;
      var after := if whole then Extended(l, t) else l;
      && Scan(H, file) == Found(H, after, if 0 < k && !whole then Tail else Clean)
      && Scan(H, file).validBytes <= |file|
      && file[..Scan(H, file).validBytes] == LogBytes(H, after)
  {
    hide LogBytes, TxnBytes;
    var append := Appended(H, l, t);
    var file := LogBytes(H, l) + append[..k];
    if k == |append| {
      assert append[..k] == append;
      AppendIsExtension(H, l, t);
      LogScansClean(H, Extended(l, t));
    } else {
      var r := PrefixOfTxn(H, t, SealedEvents(l), SealedCount(l), k);
      RestScans(H, l, r);
    }
    assert file[..|LogBytes(H, l)|] == LogBytes(H, l);
  }

  // ---- decoding: every file that is not refused is a log and a recoverable rest ----

  lemma {:induction false} SplitData(H: Hash, file: seq<Byte>, c: Cursor, events: U64)
    returns (ps: seq<Payload>, d: Cursor)
    requires c.offset <= |file| && c.expectEvent == Add64(events, 1)
    ensures d == AfterData(H, c, ps) && c.offset <= d.offset <= |file|
    ensures file[c.offset..d.offset] == DataRecords(H, ps, events)
    ensures ScanFrom(H, file, c) == ScanFrom(H, file, d)
    ensures Step(H, file, d).More? ==> Kind(file[d.offset..d.offset + HEADER_SIZE]) == SEAL
    decreases |file| - c.offset
  {
    hide DataRecord, Kind, Step, Fold;
    StepAdvances(H, file, c);
    if Step(H, file, c).More? {
      StepKinds(H, file, c);
    }
    if Step(H, file, c).More? && Kind(file[c.offset..c.offset + HEADER_SIZE]) == DATA {
      var next := Step(H, file, c).next;
      var p := DataAt(H, file, c);
      var e := Add64(events, 1);
      var ps';
      ps', d := SplitData(H, file, next, e);
      ps := [p] + ps';
      assert ps[1..] == ps';
      assert file[c.offset..d.offset] == file[c.offset..next.offset] + file[next.offset..d.offset];
    } else {
      ps, d := [], c;
    }
  }

  lemma StepKinds(H: Hash, file: seq<Byte>, c: Cursor)
    requires c.offset <= |file| && Step(H, file, c).More?
    ensures c.offset + HEADER_SIZE <= |file|
    ensures Kind(file[c.offset..c.offset + HEADER_SIZE]) in {DATA, SEAL}
  {}

  lemma DataAt(H: Hash, file: seq<Byte>, c: Cursor) returns (p: Payload)
    requires c.offset <= |file| && Step(H, file, c).More?
    requires Kind(file[c.offset..c.offset + HEADER_SIZE]) == DATA
    ensures Step(H, file, c).next == TakeData(c, H(p), |p|, H)
    ensures Step(H, file, c).next.offset <= |file|
    ensures file[c.offset..Step(H, file, c).next.offset] == DataRecord(H, p, c.expectEvent)
  {
    hide LE, FromLE, Header, Framing, Fold;
    var at := c.offset + HEADER_SIZE;
    var h := file[c.offset..at];
    HeaderOfFields(H, h);
    p := file[at..at + PayloadLen(h)];
    assert file[c.offset..at + |p|] == h + p;
  }

  lemma SealAt(H: Hash, file: seq<Byte>, c: Cursor)
    requires c.offset <= |file| && Step(H, file, c).More?
    requires Kind(file[c.offset..c.offset + HEADER_SIZE]) == SEAL
    ensures c.txnOpen && Step(H, file, c).next == TakeSeal(c, H(c.txn), H)
    ensures c.offset + HEADER_SIZE <= |file|
    ensures file[c.offset..c.offset + HEADER_SIZE] == Header(H, SEAL, c.expectSeal, 0, H(c.txn))
  {
    HeaderOfFields(H, file[c.offset..c.offset + HEADER_SIZE]);
  }

  lemma StopIsTorn(H: Hash, file: seq<Byte>, c: Cursor)
    requires c.offset <= |file| && Step(H, file, c).Stop? && Step(H, file, c).state != Corrupt
    ensures Torn(H, file[c.offset..])
  {
    var r := file[c.offset..];
    if |r| >= HEADER_SIZE {
      assert r[..HEADER_SIZE] == file[c.offset..c.offset + HEADER_SIZE];
    }
  }

  lemma {:induction false} ParseTxns(H: Hash, file: seq<Byte>, c: Cursor) returns (ts: seq<Txn>, r: Rest)
    requires c.offset <= |file| && Boundary(c)
    requires ScanFrom(H, file, c).state != Corrupt
    ensures Recoverable(H, r)
    ensures file[c.offset..]
         == LogTail(H, ts, c.events, c.sealed) + RestBytes(H, r, Add64(c.events, Events(ts)))
    decreases |file| - c.offset
  {
    hide LogTail, AfterData, DataRecords, Torn, Step;
    var ps, d := SplitData(H, file, c, c.events);
    assert c.offset <= d.offset;
    if Step(H, file, d).Stop? {
      StopIsTorn(H, file, d);
      ts, r := [], Rest(ps, file[d.offset..]);
      EmptyTail(H, c.events, c.sealed);
      assert file[c.offset..] == file[c.offset..d.offset] + file[d.offset..];
    } else {
      ts, r := ParseTxn(H, file, c, ps, d);
    }
  }

  lemma EmptyTail(H: Hash, events: U64, sealed: U64)
    ensures LogTail(H, [], events, sealed) == []
  {}

  lemma {:induction false} ParseTxn(H: Hash, file: seq<Byte>, c: Cursor, ps: seq<Payload>, d: Cursor)
    returns (ts: seq<Txn>, r: Rest)
    requires Boundary(c) && d == AfterData(H, c, ps) && c.offset <= d.offset <= |file|
    requires file[c.offset..d.offset] == DataRecords(H, ps, c.events)
    requires Step(H, file, d).More? && Kind(file[d.offset..d.offset + HEADER_SIZE]) == SEAL
    requires ScanFrom(H, file, d).state != Corrupt
    ensures Recoverable(H, r)
    ensures file[c.offset..]
         == LogTail(H, ts, c.events, c.sealed) + RestBytes(H, r, Add64(c.events, Events(ts)))
    decreases |file| - c.offset, 0
  {
    hide Torn, Step, ScanFrom, DataRecords, LogTail, RestBytes, AfterData, TxnBytes, AfterTxn;
    var n := TxnAt(H, file, c, ps, d);
    var t: Txn := ps;
    var ts';
    ts', r := ParseTxns(H, file, n);
    ts := [t] + ts';
    AddAdd(c.events, |t|, Events(ts'));
    LogTailCons(H, t, ts', c.events, c.sealed);
    assert ts[1..] == ts';
    var first, more, rest := TxnBytes(H, t, c.events, c.sealed), LogTail(H, ts', n.events, n.sealed),
      RestBytes(H, r, Add64(c.events, Events(ts)));
    assert file[c.offset..] == first + file[n.offset..];
    assert first + (more + rest) == (first + more) + rest;
  }

  lemma LogTailCons(H: Hash, t: Txn, ts: seq<Txn>, events: U64, sealed: U64)
    ensures LogTail(H, [t] + ts, events, sealed)
         == TxnBytes(H, t, events, sealed) + LogTail(H, ts, Add64(events, |t|), Add64(sealed, 1))
  {
    hide TxnBytes;
    assert ([t] + ts)[1..] == ts;
  }

  lemma DataLeadsToSeal(H: Hash, c: Cursor, ps: seq<Payload>)
    requires Boundary(c) && AfterData(H, c, ps).txnOpen
    ensures |ps| > 0 && AfterData(H, c, ps).txn == Digests(H, ps)
    ensures AfterData(H, c, ps).expectSeal == Add64(c.sealed, 1)
  {
    hide DataRecords;
    AfterDataFields(H, c, ps, c.events);
  }

  /** DATA records read up to d, then a seal the scanner takes: together one transaction. */
  lemma TxnAt(H: Hash, file: seq<Byte>, c: Cursor, ps: seq<Payload>, d: Cursor) returns (n: Cursor)
    requires Boundary(c) && d == AfterData(H, c, ps) && c.offset <= d.offset <= |file|
    requires file[c.offset..d.offset] == DataRecords(H, ps, c.events)
    requires Step(H, file, d).More? && Kind(file[d.offset..d.offset + HEADER_SIZE]) == SEAL
    ensures |ps| > 0 && n == AfterTxn(H, c, ps) && Boundary(n)
    ensures n.offset == d.offset + HEADER_SIZE <= |file|
    ensures file[c.offset..n.offset] == TxnBytes(H, ps, c.events, c.sealed)
    ensures n.events == Add64(c.events, |ps|) && n.sealed == Add64(c.sealed, 1)
    ensures ScanFrom(H, file, d) == ScanFrom(H, file, n)
  {
    hide Step, ScanFrom, DataRecords, AfterData, Header, Digests;
    SealAt(H, file, d);
    ScanTurn(H, file, d);
    DataLeadsToSeal(H, c, ps);
    AfterTxnFields(H, c, ps);
    n := AfterTxn(H, c, ps);
    assert file[c.offset..n.offset] == file[c.offset..d.offset] + file[d.offset..n.offset];
  }

  lemma HeadAt(H: Hash, file: seq<Byte>)
    requires HeadValid(H, file)
    ensures file[..HEAD_SIZE] == HeadRecord(H, Sequence(file[..HEADER_SIZE]), HeadBase(file))
  {
    var h, b := file[..HEADER_SIZE], file[HEADER_SIZE..HEAD_SIZE];
    HeaderOfFields(H, h);
    BodyOfParse(b);
    assert file[..HEAD_SIZE] == h + b;
  }

  /** The decoder: a scan with a head that is not corrupt determines a log and a recoverable rest. */
  lemma Decode(H: Hash, file: seq<Byte>) returns (l: Log, r: Rest)
    requires Scan(H, file).hasHead && Scan(H, file).state != Corrupt
    ensures Recoverable(H, r)
    ensures file == LogBytes(H, l) + RestBytes(H, r, SealedEvents(l))
    ensures Scan(H, file) == Found(H, l, if r == Rest([], []) then Clean else Tail)
  {
    hide LogTail, HeadRecord, DataRecords, Torn, ScanFrom, HeadBase;
    var b := HeadBase(file);
    HeadAt(H, file);
    var ts;
    ts, r := ParseTxns(H, file, StartCursor(b));
    l := Log(Sequence(file[..HEADER_SIZE]), b, ts);
    assert file == file[..HEAD_SIZE] + file[HEAD_SIZE..];
    var tail := LogTail(H, ts, b.events, b.sealed);
    var rest := RestBytes(H, r, SealedEvents(l));
    assert file[..HEAD_SIZE] + (tail + rest) == (file[..HEAD_SIZE] + tail) + rest;
    RestScans(H, l, r);
  }

  ghost predicate IsLog(H: Hash, file: seq<Byte>) {
    exists l: Log :: file == LogBytes(H, l)
  }

  ghost predicate IsLogAndTail(H: Hash, file: seq<Byte>, l: Log, r: Rest) {
    Recoverable(H, r) && r != Rest([], []) && file == LogBytes(H, l) + RestBytes(H, r, SealedEvents(l))
  }

  /**
   * The scanner's verdicts, both directions: clean files are the encodings, tails are encodings with an
   * unsealed rest.
   */
  lemma ScanDecides(H: Hash, file: seq<Byte>)
    ensures (Scan(H, file).hasHead && Scan(H, file).state == Clean) <==> IsLog(H, file)
    ensures (Scan(H, file).hasHead && Scan(H, file).state == Tail)
       <==> exists l: Log, r: Rest :: IsLogAndTail(H, file, l, r)
  {
    hide LogBytes, Scan, Torn, DataRecords;
    if Scan(H, file).hasHead && Scan(H, file).state != Corrupt {
      var l, r := Decode(H, file);
      if r == Rest([], []) {
        RestIsEmpty(H, SealedEvents(l));
        assert file == LogBytes(H, l);
      } else {
        assert IsLogAndTail(H, file, l, r);
      }
    }
    if IsLog(H, file) {
      var l: Log :| file == LogBytes(H, l);
      LogScansClean(H, l);
    }
    if exists l: Log, r: Rest :: IsLogAndTail(H, file, l, r) {
      var l: Log, r: Rest :| IsLogAndTail(H, file, l, r);
      RestScans(H, l, r);
    }
  }

  lemma RestIsEmpty(H: Hash, events: U64)
    ensures RestBytes(H, Rest([], []), events) == []
  {}
}
