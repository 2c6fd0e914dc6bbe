/**
 * The scanner and the record format are inverses: the scanner accepts exactly the encodings of
 * abstract logs, followed by nothing (clean) or by an unsealed or torn tail (recoverable).
 */
module StoreRefine {
  import opened Bytes
  import opened StoreFormat
  import opened StoreScan

  lemma AddAdd(a: U64, m: nat, n: nat)
    ensures Add64(Add64(a, m), n) == Add64(a, m + n)
    ensures Add64(Add64(a, m + 1), TWO_64 - 1) == Add64(a, m)
  {}

  /** The file holds these bytes at this offset. */
  predicate At(file: seq<Byte>, offset: nat, r: seq<Byte>) {
    offset + |r| <= |file| && file[offset..offset + |r|] == r
  }

  lemma AtSplit(file: seq<Byte>, offset: nat, a: seq<Byte>, b: seq<Byte>)
    requires At(file, offset, a + b)
    ensures At(file, offset, a) && At(file, offset + |a|, b)
  {
    var w := file[offset..offset + |a + b|];
    assert w[..|a|] == (a + b)[..|a|] == a;
    assert w[|a|..] == (a + b)[|a|..] == b;
  }

  // ---- one record ----

  lemma DataTurn(H: Hash, file: seq<Byte>, c: Cursor, p: Payload)
    requires At(file, c.offset, DataRecord(H, p, c.expectEvent))
    ensures Step(H, file, c) == More(TakeData(c, H(p), |p|, H))
  {
    var h := Header(H, DATA, c.expectEvent, |p|, H(p));
    HeaderFields(H, DATA, c.expectEvent, |p|, H(p));
    AtSplit(file, c.offset, h, p);
  }

  lemma SealTurn(H: Hash, file: seq<Byte>, c: Cursor)
    requires c.txnOpen && At(file, c.offset, Header(H, SEAL, c.expectSeal, 0, H(c.txn)))
    ensures Step(H, file, c) == More(TakeSeal(c, H(c.txn), H))
  {
    HeaderFields(H, SEAL, c.expectSeal, 0, H(c.txn));
  }

  // ---- runs of DATA records ----

  function AfterData(H: Hash, c: Cursor, ps: seq<Payload>): Cursor
    decreases ps
  {
    if ps == [] then c else AfterData(H, TakeData(c, H(ps[0]), |ps[0]|, H), ps[1..])
  }

  lemma {:induction false} AfterDataFields(H: Hash, c: Cursor, ps: seq<Payload>, events: U64)
    ensures var d := AfterData(H, c, ps);
      && d.offset == c.offset + |DataRecords(H, ps, events)|
      && d.expectEvent == Add64(c.expectEvent, |ps|)
      && d.chain == FoldPayloads(H, c.chain, ps)
      && d.expectSeal == c.expectSeal && d.sealed == c.sealed && d.events == c.events
      && d.validBytes == c.validBytes && d.replay == c.replay
      && d.txnOpen == (c.txnOpen || ps != [])
      && (ps != [] ==> d.txn == (if c.txnOpen then c.txn else []) + Digests(H, ps))
    decreases ps
  {
    if ps != [] {
      var c' := TakeData(c, H(ps[0]), |ps[0]|, H);
      AfterDataFields(H, c', ps[1..], Add64(events, 1));
      AddAdd(c.expectEvent, 1, |ps| - 1);
      if |ps| > 1 {
        assert (c'.txn + Digests(H, ps[1..])) == (if c.txnOpen then c.txn else []) + (H(ps[0]) + Digests(H, ps[1..]));
      }
    }
  }

  lemma {:induction false} DataScans(H: Hash, file: seq<Byte>, c: Cursor, ps: seq<Payload>, events: U64)
    requires At(file, c.offset, DataRecords(H, ps, events)) && c.expectEvent == Add64(events, 1)
    ensures AfterData(H, c, ps).offset == c.offset + |DataRecords(H, ps, events)|
    ensures ScanFrom(H, file, c) == ScanFrom(H, file, AfterData(H, c, ps))
    decreases ps
  {
    if ps != [] {
      var e := Add64(events, 1);
      AtSplit(file, c.offset, DataRecord(H, ps[0], e), DataRecords(H, ps[1..], e));
      DataTurn(H, file, c, ps[0]);
      DataScans(H, file, TakeData(c, H(ps[0]), |ps[0]|, H), ps[1..], e);
    }
  }

  // ---- whole transactions ----

  /** Between two transactions. */
  predicate Boundary(c: Cursor) {
    && !c.txnOpen && c.offset == c.validBytes && c.replay == c.chain
    && c.expectEvent == Add64(c.events, 1) && c.expectSeal == Add64(c.sealed, 1)
  }

  function AfterTxn(H: Hash, c: Cursor, t: Txn): Cursor {
    TakeSeal(AfterData(H, c, t), H(Digests(H, t)), H)
  }

  lemma AfterTxnFields(H: Hash, c: Cursor, t: Txn)
    requires Boundary(c)
    ensures var d := AfterTxn(H, c, t);
      && Boundary(d)
      && d.offset == c.offset + |TxnBytes(H, t, c.events, c.sealed)|
      && d.events == Add64(c.events, |t|) && d.sealed == Add64(c.sealed, 1)
      && d.replay == FoldTxn(H, c.replay, t)
  {
    AfterDataFields(H, c, t, c.events);
    AddAdd(c.events, 1, |t|);
    AddAdd(c.events, |t|, 1);
    AddAdd(c.sealed, 1, 1);
  }

  lemma TxnScans(H: Hash, file: seq<Byte>, c: Cursor, t: Txn)
    requires Boundary(c) && At(file, c.offset, TxnBytes(H, t, c.events, c.sealed))
    ensures AfterTxn(H, c, t).offset <= |file|
    ensures ScanFrom(H, file, c) == ScanFrom(H, file, AfterTxn(H, c, t))
  {
    hide Step, ScanFrom;
    AtSplit(file, c.offset, DataRecords(H, t, c.events), SealRecord(H, t, c.expectSeal));
    DataScans(H, file, c, t, c.events);
    AfterDataFields(H, c, t, c.events);
    var d := AfterData(H, c, t);
    assert d.txn == Digests(H, t);
    SealTurn(H, file, d);
    ScanTurn(H, file, d);
  }

  lemma ScanTurn(H: Hash, file: seq<Byte>, c: Cursor)
    requires c.offset <= |file| && Step(H, file, c).More?
    ensures Step(H, file, c).next.offset <= |file|
    ensures ScanFrom(H, file, c) == ScanFrom(H, file, Step(H, file, c).next)
  {
    StepAdvances(H, file, c);
  }

  function AfterTxns(H: Hash, c: Cursor, ts: seq<Txn>): Cursor
    decreases ts
  {
    if ts == [] then c else AfterTxns(H, AfterTxn(H, c, ts[0]), ts[1..])
  }

  lemma {:induction false} AfterTxnsFields(H: Hash, c: Cursor, ts: seq<Txn>)
    requires Boundary(c)
    ensures var d := AfterTxns(H, c, ts);
      && Boundary(d)
      && d.offset == c.offset + |LogTail(H, ts, c.events, c.sealed)|
      && d.events == Add64(c.events, Events(ts)) && d.sealed == Add64(c.sealed, |ts|)
      && d.replay == Replay(H, c.replay, ts)
    decreases ts
  {
    if ts != [] {
      hide AfterTxn, TxnBytes, FoldTxn;
      AfterTxnFields(H, c, ts[0]);
      AfterTxnsFields(H, AfterTxn(H, c, ts[0]), ts[1..]);
      AddAdd(c.events, |ts[0]|, Events(ts[1..]));
      AddAdd(c.sealed, 1, |ts| - 1);
    }
  }

  lemma {:induction false} TxnsScan(H: Hash, file: seq<Byte>, c: Cursor, ts: seq<Txn>)
    requires Boundary(c) && At(file, c.offset, LogTail(H, ts, c.events, c.sealed))
    ensures AfterTxns(H, c, ts).offset <= |file|
    ensures ScanFrom(H, file, c) == ScanFrom(H, file, AfterTxns(H, c, ts))
    decreases ts
  {
    if ts != [] {
      hide ScanFrom, AfterTxn, TxnBytes;
      var d := AfterTxn(H, c, ts[0]);
      AfterTxnFields(H, c, ts[0]);
      AtSplit(file, c.offset, TxnBytes(H, ts[0], c.events, c.sealed), LogTail(H, ts[1..], d.events, d.sealed));
      TxnScans(H, file, c, ts[0]);
      TxnsScan(H, file, d, ts[1..]);
    }
  }

  // ---- whole logs ----

  /** What a scan of this log finds, whatever follows its last seal. */
  function Found(H: Hash, l: Log, state: ScanState): ScanResult {
    ScanResult(state, true, l.generation, l.base, Add64(l.base.sealed, |l.txns|),
               Add64(l.base.events, Events(l.txns)), |LogBytes(H, l)|, Replay(H, l.base.state, l.txns))
  }

  function EndCursor(H: Hash, l: Log): Cursor {
    AfterTxns(H, StartCursor(l.base), l.txns)
  }

  lemma HeadScans(H: Hash, l: Log, file: seq<Byte>)
    requires At(file, 0, HeadRecord(H, l.generation, l.base))
    ensures HeadValid(H, file) && HeadBase(file) == l.base
    ensures Sequence(file[..HEADER_SIZE]) == l.generation
  {
    var b := Body(l.base);
    var h := Header(H, HEAD, l.generation, HEAD_BODY, H(b));
    HeaderFields(H, HEAD, l.generation, HEAD_BODY, H(b));
    AtSplit(file, 0, h, b);
    ParseBodyOf(l.base);
  }

  lemma ScanReachesEnd(H: Hash, l: Log, rest: seq<Byte>)
    ensures var file := LogBytes(H, l) + rest;
      var c := EndCursor(H, l);
      && Boundary(c) && c.offset == |LogBytes(H, l)|
      && c.expectEvent == Add64(Add64(l.base.events, Events(l.txns)), 1)
      && Scan(H, file) == Found(H, l, Finish(ScanFrom(H, file, c))).(
           sealed := ScanFrom(H, file, c).c.sealed, events := ScanFrom(H, file, c).c.events,
           validBytes := ScanFrom(H, file, c).c.validBytes, replay := ScanFrom(H, file, c).c.replay)
      && c.sealed == Add64(l.base.sealed, |l.txns|) && c.events == Add64(l.base.events, Events(l.txns))
      && c.replay == Replay(H, l.base.state, l.txns)
  {
    hide ScanFrom, LogTail, Replay, HeadRecord, HeadValid, HeadBase, AfterTxns;
    var file := LogBytes(H, l) + rest;
    var head, tail := HeadRecord(H, l.generation, l.base), LogTail(H, l.txns, l.base.events, l.base.sealed);
    assert file[..|head + tail|] == head + tail;
    AtSplit(file, 0, head, tail);
    HeadScans(H, l, file);
    TxnsScan(H, file, StartCursor(l.base), l.txns);
    AfterTxnsFields(H, StartCursor(l.base), l.txns);
  }

  /** The scan of an encoded log is clean and finds the abstract counts and the replay state. */
  lemma LogScansClean(H: Hash, l: Log)
    ensures Scan(H, LogBytes(H, l)) == Found(H, l, Clean)
  {
    hide LogBytes, EndCursor;
    assert LogBytes(H, l) + [] == LogBytes(H, l);
    ScanReachesEnd(H, l, []);
  }
}
