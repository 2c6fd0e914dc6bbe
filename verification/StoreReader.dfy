/**
 * The second reader of the log: exact recovery hands every sealed payload to a visitor. It agrees
 * with the scanner: after an uncorrupt scan it never finds corruption of its own, visits exactly
 * the sealed payloads in order with their ordinals, and never the unsealed tail.
 */
module StoreReader {
  import opened Bytes
  import opened StoreFormat
  import opened StoreScan
  import opened StoreRefine
  import opened StoreRecovery

  datatype Status = Ok | Io | Mem | CorruptTail | State | Unsupported | Visitor(code: nat)

  /** One visit: event ordinal, transaction ordinal, payload. */
  datatype Call = Call(event: U64, txn: U64, payload: seq<Byte>)

  /** A visitor answers each call with a status; anything but Ok stops the walk. */
  type VisitorFn = Call -> Status

  function TxnCalls(ps: seq<Payload>, event: U64, txn: U64): seq<Call> {
    if ps == [] then [] else [Call(event, txn, ps[0])] + TxnCalls(ps[1..], Add64(event, 1), txn)
  }

  /** The visits a whole log asks for. */
  function LogCalls(ts: seq<Txn>, event: U64, txn: U64): seq<Call> {
    if ts == [] then []
    else TxnCalls(ts[0], event, txn) + LogCalls(ts[1..], Add64(event, |ts[0]|), Add64(txn, 1))
  }

  /** What the walk must have done: all the calls, or a prefix whose last one the visitor stopped at. */
  predicate Visited(visitor: VisitorFn, wanted: seq<Call>, calls: seq<Call>, status: Status) {
    && calls <= wanted
    && (status == Ok ==> calls == wanted)
    && (forall i :: 0 <= i < |calls| - 1 ==> visitor(calls[i]) == Ok)
    && (calls != [] ==> visitor(calls[|calls| - 1]) == status)
    && (status != Ok ==> calls != [])
  }

  // ---- what is left to read ----

  /** Payloads of the open transaction already read, those still to come, and the transactions after it. */
  datatype Left = Left(read: seq<Payload>, todo: seq<Payload>, more: seq<Txn>)

  function LeftBytes(H: Hash, w: Left, events: U64, sealed: U64): seq<Byte> {
    if w.read == [] && w.todo == [] then LogTail(H, w.more, events, sealed)
    else
      DataRecords(H, w.todo, events) + SealRecord(H, w.read + w.todo, Add64(sealed, 1))
      + LogTail(H, w.more, Add64(events, |w.todo|), Add64(sealed, 1))
  }

  function Pending(w: Left): nat {
    if w.read == [] && w.todo == [] then 0 else 1
  }

  function LeftCalls(w: Left, event: U64, txn: U64): seq<Call> {
    TxnCalls(w.todo, event, txn) + LogCalls(w.more, Add64(event, |w.todo|), Add64(txn, Pending(w)))
  }

  /** Where the walk stands: the bytes from `offset` to `validBytes` are what is left of the log. */
  predicate Stands(H: Hash, file: seq<Byte>, validBytes: nat, offset: nat, w: Left, events: U64, sealed: U64) {
    && At(file, offset, LeftBytes(H, w, events, sealed))
    && offset + |LeftBytes(H, w, events, sealed)| == validBytes
  }

  /** Between transactions with more to come, the next one is opened. */
  function Opened(w: Left): Left {
    if w.read == [] && w.todo == [] && w.more != [] then Left([], w.more[0], w.more[1..]) else w
  }

  lemma OpenedSame(H: Hash, w: Left, events: U64, sealed: U64, event: U64, txn: U64)
    ensures LeftBytes(H, Opened(w), events, sealed) == LeftBytes(H, w, events, sealed)
    ensures LeftCalls(Opened(w), event, txn) == LeftCalls(w, event, txn)
    ensures Pending(Opened(w)) + |Opened(w).more| == Pending(w) + |w.more|
    ensures |Opened(w).todo| + Events(Opened(w).more) == |w.todo| + Events(w.more)
  {
    hide DataRecords, SealRecord;
    if w.read == [] && w.todo == [] && w.more != [] {
      var t := w.more[0];
      assert [] + t == t;
      AddAdd(txn, 0, 0);
      assert Add64(event, 0) == event && Add64(txn, 0) == txn;
    }
  }

  lemma LeftIsData(H: Hash, w: Left, events: U64, sealed: U64)
    requires w.todo != []
    ensures LeftBytes(H, w, events, sealed)
         == DataRecord(H, w.todo[0], Add64(events, 1))
          + LeftBytes(H, Left(w.read + [w.todo[0]], w.todo[1..], w.more), Add64(events, 1), sealed)
  {
    hide DataRecord, SealRecord, LogTail;
    var p, e := w.todo[0], Add64(events, 1);
    var first, data := DataRecord(H, p, e), DataRecords(H, w.todo[1..], e);
    var close := SealRecord(H, w.read + w.todo, Add64(sealed, 1));
    var tail := LogTail(H, w.more, Add64(events, |w.todo|), Add64(sealed, 1));
    assert (w.read + [p]) + w.todo[1..] == w.read + w.todo;
    AddAdd(events, 1, |w.todo| - 1);
    assert ((first + data) + close) + tail == first + (data + close + tail);
  }

  lemma LeftIsSeal(H: Hash, w: Left, events: U64, sealed: U64)
    requires w.todo == [] && w.read != []
    ensures LeftBytes(H, w, events, sealed)
         == SealRecord(H, w.read, Add64(sealed, 1)) + LeftBytes(H, Left([], [], w.more), events, Add64(sealed, 1))
  {
    hide SealRecord, LogTail;
    assert w.read + [] == w.read && Add64(events, 0) == events;
    var close := SealRecord(H, w.read, Add64(sealed, 1));
    assert [] + close == close;
  }

  lemma NextIsData(H: Hash, file: seq<Byte>, validBytes: nat, offset: nat, w: Left, events: U64, sealed: U64)
    requires Stands(H, file, validBytes, offset, w, events, sealed) && w.todo != []
    ensures var p := w.todo[0];
      && offset + HEADER_SIZE + |p| <= validBytes <= |file|
      && At(file, offset, DataRecord(H, p, Add64(events, 1)))
      && Stands(H, file, validBytes, offset + HEADER_SIZE + |p|, Left(w.read + [p], w.todo[1..], w.more),
                Add64(events, 1), sealed)
  {
    hide DataRecord, LeftBytes;
    LeftIsData(H, w, events, sealed);
    AtSplit(file, offset, DataRecord(H, w.todo[0], Add64(events, 1)),
            LeftBytes(H, Left(w.read + [w.todo[0]], w.todo[1..], w.more), Add64(events, 1), sealed));
  }

  lemma NextIsSeal(H: Hash, file: seq<Byte>, validBytes: nat, offset: nat, w: Left, events: U64, sealed: U64)
    requires Stands(H, file, validBytes, offset, w, events, sealed) && w.todo == [] && w.read != []
    ensures offset + HEADER_SIZE <= validBytes <= |file|
    ensures At(file, offset, SealRecord(H, w.read, Add64(sealed, 1)))
    ensures Stands(H, file, validBytes, offset + HEADER_SIZE, Left([], [], w.more), events, Add64(sealed, 1))
  {
    hide SealRecord, LeftBytes;
    LeftIsSeal(H, w, events, sealed);
    AtSplit(file, offset, SealRecord(H, w.read, Add64(sealed, 1)),
            LeftBytes(H, Left([], [], w.more), events, Add64(sealed, 1)));
  }

  lemma DataHeader(H: Hash, file: seq<Byte>, offset: nat, p: Payload, sequence: U64)
    requires At(file, offset, DataRecord(H, p, sequence))
    ensures var h := file[offset..offset + HEADER_SIZE];
      && Authentic(H, h) && Kind(h) == DATA && Sequence(h) == sequence && PayloadLen(h) == |p|
      && RecordDigest(h) == H(p)
    ensures file[offset + HEADER_SIZE..offset + HEADER_SIZE + |p|] == p
  {
    hide Header;
    HeaderFields(H, DATA, sequence, |p|, H(p));
    AtSplit(file, offset, Header(H, DATA, sequence, |p|, H(p)), p);
  }

  lemma SealHeader(H: Hash, file: seq<Byte>, offset: nat, t: seq<Payload>, sequence: U64)
    requires At(file, offset, SealRecord(H, t, sequence))
    ensures var h := file[offset..offset + HEADER_SIZE];
      && Authentic(H, h) && Kind(h) == SEAL && Sequence(h) == sequence && PayloadLen(h) == 0
      && RecordDigest(h) == H(Digests(H, t))
  {
    hide Header;
    HeaderFields(H, SEAL, sequence, 0, H(Digests(H, t)));
  }

  // ---- the walk ----

  /** The walk was called on a file whose first validBytes bytes are the log l, with l's counts and an empty base. */
  predicate Authenticated(H: Hash, file: seq<Byte>, validBytes: nat, events: U64, txns: U64, l: Log) {
    && l.base.events == 0 && l.base.sealed == 0
    && validBytes <= |file| && file[..validBytes] == LogBytes(H, l)
    && events == Add64(0, Events(l.txns)) && txns == Add64(0, |l.txns|)
  }

  /** The loop's invariant when the walk is on an authenticated prefix. */
  predicate Walking(H: Hash, file: seq<Byte>, validBytes: nat, expectedEvents: U64, expectedTxns: U64, l: Log,
                    offset: nat, w: Left, visited: U64, sealed: U64, txnOpen: bool, txn: seq<Byte>,
                    calls: seq<Call>)
  {
    && Stands(H, file, validBytes, offset, w, visited, sealed)
    && calls + LeftCalls(w, Add64(visited, 1), Add64(sealed, 1)) == LogCalls(l.txns, 1, 1)
    && Add64(visited, |w.todo| + Events(w.more)) == expectedEvents
    && Add64(sealed, Pending(w) + |w.more|) == expectedTxns
    && txnOpen == (w.read != [])
    && (txnOpen ==> txn == Digests(H, w.read))
  }

  lemma WalkStarts(H: Hash, file: seq<Byte>, validBytes: nat, events: U64, txns: U64, l: Log)
    requires Authenticated(H, file, validBytes, events, txns, l)
    ensures HEAD_SIZE <= validBytes <= |file|
    ensures Walking(H, file, validBytes, events, txns, l, HEAD_SIZE, Left([], [], l.txns), 0, 0, false, [], [])
  {
    hide HeadRecord, LogTail, LogCalls;
    var head, tail := HeadRecord(H, l.generation, l.base), LogTail(H, l.txns, 0, 0);
    assert At(file, 0, head + tail);
    AtSplit(file, 0, head, tail);
    assert TxnCalls([], 1, 1) + LogCalls(l.txns, 1, 1) == LogCalls(l.txns, 1, 1);
    assert [] + LogCalls(l.txns, 1, 1) == LogCalls(l.txns, 1, 1);
  }

  lemma WalkOpens(H: Hash, file: seq<Byte>, validBytes: nat, events: U64, txns: U64, l: Log,
                  offset: nat, w: Left, visited: U64, sealed: U64, txnOpen: bool, txn: seq<Byte>, calls: seq<Call>)
    requires Walking(H, file, validBytes, events, txns, l, offset, w, visited, sealed, txnOpen, txn, calls)
    ensures Walking(H, file, validBytes, events, txns, l, offset, Opened(w), visited, sealed, txnOpen, txn, calls)
    ensures offset < validBytes ==> Opened(w).todo != [] || Opened(w).read != []
  {
    hide DataRecords, SealRecord, Events, LeftCalls, Digests;
    OpenedSame(H, w, visited, sealed, Add64(visited, 1), Add64(sealed, 1));
  }

  lemma WalkVisits(H: Hash, file: seq<Byte>, validBytes: nat, events: U64, txns: U64, l: Log,
                   offset: nat, w: Left, visited: U64, sealed: U64, txnOpen: bool, txn: seq<Byte>, calls: seq<Call>)
    requires Walking(H, file, validBytes, events, txns, l, offset, w, visited, sealed, txnOpen, txn, calls)
    requires w.todo != []
    ensures var p := w.todo[0];
      var call := Call(Add64(visited, 1), Add64(sealed, 1), p);
      && offset + HEADER_SIZE + |p| <= validBytes <= |file|
      && At(file, offset, DataRecord(H, p, Add64(visited, 1)))
      && calls + [call] <= LogCalls(l.txns, 1, 1)
      && Walking(H, file, validBytes, events, txns, l, offset + HEADER_SIZE + |p|,
                 Left(w.read + [p], w.todo[1..], w.more), Add64(visited, 1), sealed, true,
                 (if txnOpen then txn else []) + H(p), calls + [call])
  {
    hide DataRecord, LeftBytes, LogCalls, Events;
    var p := w.todo[0];
    var call := Call(Add64(visited, 1), Add64(sealed, 1), p);
    NextIsData(H, file, validBytes, offset, w, visited, sealed);
    DigestsAppend(H, w.read, p);
    AddAdd(visited, 1, |w.todo| - 1);
    AddAdd(visited, 1, |w.todo|);
    AddAdd(visited, 1, |w.todo| - 1 + Events(w.more));
    var next := Left(w.read + [p], w.todo[1..], w.more);
    CallsCons(w, Add64(visited, 1), Add64(sealed, 1));
    assert calls + ([call] + LeftCalls(next, Add64(visited, 2), Add64(sealed, 1)))
        == (calls + [call]) + LeftCalls(next, Add64(visited, 2), Add64(sealed, 1));
  }

  lemma CallsCons(w: Left, event: U64, txn: U64)
    requires w.todo != []
    ensures LeftCalls(w, event, txn)
         == [Call(event, txn, w.todo[0])]
          + LeftCalls(Left(w.read + [w.todo[0]], w.todo[1..], w.more), Add64(event, 1), txn)
  {
    hide LogCalls;
    AddAdd(event, 1, |w.todo| - 1);
    var rest := LogCalls(w.more, Add64(event, |w.todo|), Add64(txn, 1));
    assert ([Call(event, txn, w.todo[0])] + TxnCalls(w.todo[1..], Add64(event, 1), txn)) + rest
        == [Call(event, txn, w.todo[0])] + (TxnCalls(w.todo[1..], Add64(event, 1), txn) + rest);
  }

  lemma WalkSeals(H: Hash, file: seq<Byte>, validBytes: nat, events: U64, txns: U64, l: Log,
                  offset: nat, w: Left, visited: U64, sealed: U64, txnOpen: bool, txn: seq<Byte>, calls: seq<Call>)
    requires Walking(H, file, validBytes, events, txns, l, offset, w, visited, sealed, txnOpen, txn, calls)
    requires w.todo == [] && w.read != []
    ensures offset + HEADER_SIZE <= validBytes <= |file|
    ensures At(file, offset, SealRecord(H, w.read, Add64(sealed, 1)))
    ensures txnOpen && txn == Digests(H, w.read)
    ensures Walking(H, file, validBytes, events, txns, l, offset + HEADER_SIZE, Left([], [], w.more),
                    visited, Add64(sealed, 1), false, txn, calls)
  {
    hide SealRecord, LeftBytes, LogCalls, Events;
    NextIsSeal(H, file, validBytes, offset, w, visited, sealed);
    AddAdd(sealed, 1, 1);
    AddAdd(sealed, 1, |w.more|);
    assert Add64(Add64(sealed, 1), 0) == Add64(sealed, 1);
  }

  lemma WalkEnds(H: Hash, file: seq<Byte>, validBytes: nat, events: U64, txns: U64, l: Log,
                 offset: nat, w: Left, visited: U64, sealed: U64, txnOpen: bool, txn: seq<Byte>, calls: seq<Call>)
    requires Walking(H, file, validBytes, events, txns, l, offset, w, visited, sealed, txnOpen, txn, calls)
    requires offset >= validBytes
    ensures offset == validBytes && !txnOpen && visited == events && sealed == txns
    ensures calls == LogCalls(l.txns, 1, 1)
  {
    hide Events, DataRecords;
    assert w.read == [] && w.todo == [];
    assert |LogTail(H, w.more, visited, sealed)| == 0;
    assert w.more == [];
    assert LeftCalls(w, Add64(visited, 1), Add64(sealed, 1)) == [];
    assert Events(w.more) == 0 by { NoEvents(); }
  }

  lemma NoEvents()
    ensures Events([]) == 0
  {}

  /**
   * Walks the sealed prefix record by record, re-checking framing, digests and sequence numbers, and
   * hands each payload to the visitor. On an authenticated prefix it never reports corruption of its own.
   */
  method VisitSealedPrefix(H: Hash, file: seq<Byte>, validBytes: nat, expectedEvents: U64, expectedTxns: U64,
                           visitor: VisitorFn, ghost l: Log)
    returns (status: Status, calls: seq<Call>)
    ensures Authenticated(H, file, validBytes, expectedEvents, expectedTxns, l)
        ==> Visited(visitor, LogCalls(l.txns, 1, 1), calls, status)
  {
    hide LogBytes, LogCalls, Walking, Authentic, Kind, Sequence, PayloadLen, RecordDigest, DataRecord, SealRecord,
      Digests, Authenticated, At;
    calls := [];
    ghost var good := Authenticated(H, file, validBytes, expectedEvents, expectedTxns, l);
    var head := Read(file, 0, HEAD_SIZE);
    if good {
      WalkStarts(H, file, validBytes, expectedEvents, expectedTxns, l);
    }
    if |head| != HEAD_SIZE {
      return CorruptTail, calls;
    }
    var offset := HEAD_SIZE;
    var eventSequence: U64, txnSequence: U64 := 1, 1;
    var visited: U64, sealed: U64 := 0, 0;
    var txnOpen, txn := false, [];
    ghost var w := Left([], [], l.txns);
    while offset < validBytes
      invariant good ==> Walking(H, file, validBytes, expectedEvents, expectedTxns, l, offset, w,
                                 visited, sealed, txnOpen, txn, calls)
      invariant offset <= |file|
      invariant eventSequence == Add64(visited, 1) && txnSequence == Add64(sealed, 1)
      invariant forall i :: 0 <= i < |calls| ==> visitor(calls[i]) == Ok
      decreases validBytes - offset
    {
      if good {
        WalkOpens(H, file, validBytes, expectedEvents, expectedTxns, l, offset, w, visited, sealed,
                  txnOpen, txn, calls);
        w := Opened(w);
        if w.todo != [] {
          WalkVisits(H, file, validBytes, expectedEvents, expectedTxns, l, offset, w, visited, sealed,
                     txnOpen, txn, calls);
          DataHeader(H, file, offset, w.todo[0], Add64(visited, 1));
        } else {
          WalkSeals(H, file, validBytes, expectedEvents, expectedTxns, l, offset, w, visited, sealed,
                    txnOpen, txn, calls);
          SealHeader(H, file, offset, w.read, Add64(sealed, 1));
        }
      }
      var header := Read(file, offset, HEADER_SIZE);
      if validBytes - offset < HEADER_SIZE || |header| != HEADER_SIZE {
        return CorruptTail, calls;
      }
      if !Authentic(H, header) || PayloadLen(header) > MAX_RECORD {
        return CorruptTail, calls;
      }
      var kind, sequence, len := Kind(header), Sequence(header), PayloadLen(header);
      if kind == DATA {
        if sequence != eventSequence || len > validBytes - offset - HEADER_SIZE {
          return CorruptTail, calls;
        }
        var payload := Read(file, offset + HEADER_SIZE, len);
        assert good ==> payload == file[offset + HEADER_SIZE..offset + HEADER_SIZE + len];
        if |payload| != len || H(payload) != RecordDigest(header) {
          return CorruptTail, calls;
        }
        if !txnOpen {
          txn := [];
          txnOpen := true;
        }
        txn := txn + RecordDigest(header);
        var call := Call(eventSequence, txnSequence, payload);
        calls := calls + [call];
        status := visitor(call);
        if status != Ok {
          return;
        }
        eventSequence := Add64(eventSequence, 1);
        visited := Add64(visited, 1);
        offset := offset + HEADER_SIZE + len;
        w := if w.todo != [] then Left(w.read + [w.todo[0]], w.todo[1..], w.more) else w;
      } else if kind == SEAL {
        if len != 0 || sequence != txnSequence || !txnOpen {
          return CorruptTail, calls;
        }
        txnOpen := false;
        if H(txn) != RecordDigest(header) {
          return CorruptTail, calls;
        }
        txnSequence := Add64(txnSequence, 1);
        sealed := Add64(sealed, 1);
        offset := offset + HEADER_SIZE;
        w := Left([], [], w.more);
      } else {
        return CorruptTail, calls;
      }
    }
    if good {
      WalkEnds(H, file, validBytes, expectedEvents, expectedTxns, l, offset, w, visited, sealed, txnOpen, txn, calls);
    }
    if offset != validBytes || txnOpen || visited != expectedEvents || sealed != expectedTxns {
      return CorruptTail, calls;
    }
    return Ok, calls;
  }

  /** The file is this log, and then what a crash may leave behind it. */
  ghost predicate LogThenRest(H: Hash, file: seq<Byte>, l: Log, r: Rest) {
    Recoverable(H, r) && file == LogBytes(H, l) + RestBytes(H, r, SealedEvents(l))
  }

  /**
   * Exact recovery of a whole file: refused when the scan is corrupt or finds no head, refused when
   * a compaction base has dropped payloads, and otherwise a walk over the sealed payloads of the
   * one log the file starts with, whatever unsealed tail follows it.
   */
  method VisitEvents(H: Hash, file: seq<Byte>, visitor: VisitorFn)
    returns (status: Status, calls: seq<Call>)
    ensures var scan := Scan(H, file);
      if scan.state == Corrupt || !scan.hasHead then status == CorruptTail && calls == []
      else if scan.base.events != 0 || scan.base.sealed != 0 then status == Unsupported && calls == []
      else exists l: Log, r: Rest ::
             LogThenRest(H, file, l, r) && Visited(visitor, LogCalls(l.txns, 1, 1), calls, status)
  {
    hide LogBytes, LogCalls, RestBytes, Recoverable, Visited;
    var scan := ScanLog(H, file);
    if scan.state == Corrupt || !scan.hasHead {
      return CorruptTail, [];
    }
    if scan.base.events != 0 || scan.base.sealed != 0 {
      return Unsupported, [];
    }
    ghost var l, r := Decode(H, file);
    assert LogThenRest(H, file, l, r);
    assert file[..|LogBytes(H, l)|] == LogBytes(H, l);
    status, calls := VisitSealedPrefix(H, file, scan.validBytes, scan.events, scan.sealed, visitor, l);
  }

  /** Every sealed payload is visited exactly once, in order, with ordinals counted from one. */
  lemma {:induction false} CallsOfEvent(ts: seq<Txn>, event: U64, txn: U64, i: nat, j: nat)
    requires i < |ts| && j < |ts[i]|
    ensures |LogCalls(ts, event, txn)| == Events(ts)
    ensures Events(ts[..i]) + j < Events(ts)
    ensures LogCalls(ts, event, txn)[Events(ts[..i]) + j]
         == Call(Add64(event, Events(ts[..i]) + j), Add64(txn, i), ts[i][j])
    decreases ts
  {
    hide TxnCalls;
    var e, t := Add64(event, |ts[0]|), Add64(txn, 1);
    LogCallsLength(ts[1..], e, t);
    TxnCallsAt(ts[0], event, txn);
    if i == 0 {
      assert ts[..0] == [];
    } else {
      CallsOfEvent(ts[1..], e, t, i - 1, j);
      assert ts[..i] == [ts[0]] + ts[1..][..i - 1];
      assert ts[..i][1..] == ts[1..][..i - 1];
      AddAdd(event, |ts[0]|, Events(ts[1..][..i - 1]) + j);
      AddAdd(txn, 1, i - 1);
    }
  }

  lemma {:induction false} LogCallsLength(ts: seq<Txn>, event: U64, txn: U64)
    ensures |LogCalls(ts, event, txn)| == Events(ts)
    decreases ts
  {
    if ts != [] {
      TxnCallsAt(ts[0], event, txn);
      LogCallsLength(ts[1..], Add64(event, |ts[0]|), Add64(txn, 1));
    }
  }

  lemma {:induction false} TxnCallsAt(ps: seq<Payload>, event: U64, txn: U64)
    ensures |TxnCalls(ps, event, txn)| == |ps|
    ensures forall j :: 0 <= j < |ps| ==> TxnCalls(ps, event, txn)[j] == Call(Add64(event, j), txn, ps[j])
    decreases ps
  {
    if ps != [] {
      TxnCallsAt(ps[1..], Add64(event, 1), txn);
      forall j | 0 <= j < |ps|
        ensures TxnCalls(ps, event, txn)[j] == Call(Add64(event, j), txn, ps[j])
      {
        if j > 0 {
          AddAdd(event, 1, j - 1);
        }
      }
    }
  }
}
