/**
 * Why every process that dies in the middle of an append must be followed by a reopen. A commit
 * refuses only a corrupt log, so it would append behind a tail; what that does is stated here, and
 * so is the discipline under which it never happens.
 */
module StoreTails {
  import opened Bytes
  import opened Options
  import opened StoreFormat
  import opened StoreScan
  import opened StoreRefine
  import opened StoreRecovery
  import opened StoreOps
  import opened StoreRuns
  import opened StoreSafety

  // ---- a commit behind a tail ----

  /** The scan of a log, complete unsealed DATA records and anything else continues at that anything else. */
  lemma PastData(H: Hash, l: Log, ps: seq<Payload>, more: seq<Byte>) returns (d: Cursor)
    ensures var file := LogBytes(H, l) + (DataRecords(H, ps, SealedEvents(l)) + more);
      && d.offset <= |file| && file[d.offset..] == more
      && d.expectEvent == Add64(SealedEvents(l), |ps| + 1)
      && d.txnOpen == (ps != []) && (ps != [] ==> d.txn == Digests(H, ps))
      && d.validBytes == |LogBytes(H, l)| <= d.offset
      && d.sealed == SealedCount(l) && d.events == SealedEvents(l) && d.replay == Replay(H, l.base.state, l.txns)
      && Scan(H, file).state == Finish(ScanFrom(H, file, d))
      && Scan(H, file).sealed == ScanFrom(H, file, d).c.sealed
      && Scan(H, file).events == ScanFrom(H, file, d).c.events
      && Scan(H, file).replay == ScanFrom(H, file, d).c.replay
  {
    hide LogBytes, EndCursor, DataRecords, Step, AfterData, Replay, Events, ScanFrom;
    var e := SealedEvents(l);
    var rest := DataRecords(H, ps, e) + more;
    var file := LogBytes(H, l) + rest;
    ScanReachesEnd(H, l, rest);
    var c := EndCursor(H, l);
    assert file[c.offset..c.offset + |rest|] == rest;
    AtSplit(file, c.offset, DataRecords(H, ps, e), more);
    DataScans(H, file, c, ps, e);
    d := AfterData(H, c, ps);
    AfterDataFields(H, c, ps, e);
    AddAdd(e, 1, |ps|);
  }

  /** The bytes of a transaction begin with a DATA record numbered one past the sealed events. */
  lemma FirstRecord(H: Hash, t: Txn, events: U64, sealed: U64) returns (h: seq<Byte>)
    ensures |TxnBytes(H, t, events, sealed)| >= HEADER_SIZE + |t[0]|
    ensures h == TxnBytes(H, t, events, sealed)[..HEADER_SIZE]
    ensures Authentic(H, h) && Kind(h) == DATA && Sequence(h) == Add64(events, 1) && PayloadLen(h) == |t[0]|
  {
    h := Header(H, DATA, Add64(events, 1), |t[0]|, H(t[0]));
    HeaderFields(H, DATA, Add64(events, 1), |t[0]|, H(t[0]));
    assert TxnBytes(H, t, events, sealed)[..HEADER_SIZE] == h;
  }

  lemma SliceOfRest(file: seq<Byte>, at: nat, n: nat)
    requires at + n <= |file|
    ensures file[at..at + n] == file[at..][..n]
  {}

  lemma RepeatedNumberStops(H: Hash, file: seq<Byte>, d: Cursor, h: seq<Byte>)
    requires d.offset + HEADER_SIZE <= |file| && h == file[d.offset..d.offset + HEADER_SIZE]
    requires Kind(h) == DATA && Sequence(h) != d.expectEvent
    requires d.offset + HEADER_SIZE + PayloadLen(h) <= |file|
    ensures Step(H, file, d) == Stop(Corrupt)
  {
    hide Authentic, Sequence, PayloadLen, Kind, RecordDigest;
  }

  lemma NextNumber(events: U64, n: nat)
    requires n % TWO_64 != 0
    ensures Add64(events, 1) != Add64(events, n + 1)
  {}

  /** Behind complete unsealed records the appended ones repeat their numbers: the log is corrupt from then on. */
  lemma CommitBehindDataCorrupts(H: Hash, l: Log, ps: seq<Payload>, t: Txn)
    requires |ps| % TWO_64 != 0
    ensures Scan(H, Behind(H, l, ps, Appended(H, l, t))).state == Corrupt
  {
    hide LogBytes, DataRecords, TxnBytes, Replay, Scan, Step, Add64, SealedEvents, SealedCount,
      Kind, Sequence, PayloadLen, Authentic;
    var more := Appended(H, l, t);
    var file := LogBytes(H, l) + (DataRecords(H, ps, SealedEvents(l)) + more);
    var d := PastData(H, l, ps, more);
    var h := FirstRecord(H, t, SealedEvents(l), SealedCount(l));
    SliceOfRest(file, d.offset, HEADER_SIZE);
    NextNumber(SealedEvents(l), |ps|);
    RepeatedNumberStops(H, file, d, h);
  }

  /** How many bytes the last, cut payload still lacks. */
  function Missing(torn: seq<Byte>): int
    requires |torn| >= HEADER_SIZE
  {
    HEADER_SIZE + PayloadLen(torn[..HEADER_SIZE]) - |torn|
  }

  lemma CutPayloadStep(H: Hash, file: seq<Byte>, d: Cursor, torn: seq<Byte>, bytes: seq<Byte>)
    requires d.offset <= |file| && file[d.offset..] == torn + bytes && Torn(H, torn) && |torn| >= HEADER_SIZE
    ensures 0 < Missing(torn)
    ensures |bytes| < Missing(torn) ==> Step(H, file, d) == Stop(Tail)
    ensures Missing(torn) <= |bytes|
        && H(torn[HEADER_SIZE..] + bytes[..Missing(torn)]) != RecordDigest(torn[..HEADER_SIZE])
        ==> Step(H, file, d) == Stop(Corrupt)
  {
    hide Authentic, Sequence, PayloadLen, Kind, RecordDigest;
    var more := torn + bytes;
    var h := torn[..HEADER_SIZE];
    assert more[..HEADER_SIZE] == h;
    SliceOfRest(file, d.offset, HEADER_SIZE);
    if Missing(torn) <= |bytes| {
      var at := d.offset + HEADER_SIZE;
      assert file[at..at + PayloadLen(h)] == more[HEADER_SIZE..HEADER_SIZE + PayloadLen(h)];
      assert more[HEADER_SIZE..HEADER_SIZE + PayloadLen(h)] == torn[HEADER_SIZE..] + bytes[..Missing(torn)];
    }
  }

  /**
   * Behind a cut payload the appended bytes are read as the rest of that payload. If they do not fill it the
   * commit reports success and yet seals nothing; if they do, the log is corrupt unless the digests coincide.
   */
  lemma CommitBehindCutPayload(H: Hash, l: Log, r: Rest, t: Txn)
    requires Recoverable(H, r) && |r.torn| >= HEADER_SIZE
    ensures var bytes := Appended(H, l, t);
      var scan := Scan(H, Behind(H, l, r.events, r.torn + bytes));
      var missing := Missing(r.torn);
      && 0 < missing
      && (|bytes| < missing ==>
            scan.state == Tail && scan.sealed == SealedCount(l) && scan.replay == Replay(H, l.base.state, l.txns))
      && (missing <= |bytes| && H(r.torn[HEADER_SIZE..] + bytes[..missing]) != RecordDigest(r.torn[..HEADER_SIZE]) ==>
            scan.state == Corrupt)
  {
    hide LogBytes, DataRecords, TxnBytes, Replay, Scan, Step, Torn, Missing, SealedEvents, SealedCount, RecordDigest;
    var bytes := Appended(H, l, t);
    var d := PastData(H, l, r.events, r.torn + bytes);
    var file := LogBytes(H, l) + (DataRecords(H, r.events, SealedEvents(l)) + (r.torn + bytes));
    CutPayloadStep(H, file, d, r.torn, bytes);
  }

  // ---- a cut header ----

  /** The first bytes of a header: its framing and the tag are there, and agree. */
  predicate Tagged(H: Hash, torn: seq<Byte>) {
    |torn| >= TAGGED_SIZE && torn[..4] == MAGIC && H(torn[..FRAMING_SIZE]) == torn[FRAMING_SIZE..TAGGED_SIZE]
  }

  const TAGGED_SIZE: nat := 49

  /**
   * Behind a cut header the two are read as one header. If the cut left framing and tag whole, the splice
   * authenticates exactly when they agreed; otherwise everything hangs on the splice. A splice that does not
   * authenticate makes the log corrupt.
   */
  lemma CommitBehindCutHeader(H: Hash, l: Log, r: Rest, t: Txn)
    requires Recoverable(H, r) && 0 < |r.torn| < HEADER_SIZE
    ensures var more := r.torn + Appended(H, l, t);
      && |more| >= HEADER_SIZE
      && (|r.torn| >= TAGGED_SIZE ==> (Authentic(H, more[..HEADER_SIZE]) <==> Tagged(H, r.torn)))
      && (!Authentic(H, more[..HEADER_SIZE]) ==> Scan(H, Behind(H, l, r.events, more)).state == Corrupt)
  {
    hide LogBytes, DataRecords, TxnBytes, Replay, Scan, Authentic, SealedEvents, SealedCount, RecordDigest;
    var h := FirstRecord(H, t, SealedEvents(l), SealedCount(l));
    var more := r.torn + Appended(H, l, t);
    var d := PastData(H, l, r.events, more);
    SliceOfRest(Behind(H, l, r.events, more), d.offset, HEADER_SIZE);
    if |r.torn| >= TAGGED_SIZE {
      SpliceIsTagged(H, r.torn, more);
    }
  }

  lemma SpliceIsTagged(H: Hash, torn: seq<Byte>, more: seq<Byte>)
    requires TAGGED_SIZE <= |torn| < HEADER_SIZE <= |more| && torn <= more
    ensures Authentic(H, more[..HEADER_SIZE]) <==> Tagged(H, torn)
  {
    var h := more[..HEADER_SIZE];
    assert h[..FRAMING_SIZE] == torn[..FRAMING_SIZE] && h[..4] == torn[..4];
    assert h[FRAMING_SIZE..TAGGED_SIZE] == torn[FRAMING_SIZE..TAGGED_SIZE];
  }

  /** A log, complete unsealed records, and more. */
  function Behind(H: Hash, l: Log, ps: seq<Payload>, more: seq<Byte>): seq<Byte> {
    LogBytes(H, l) + (DataRecords(H, ps, SealedEvents(l)) + more)
  }

  /** A header cut past its tag and then completed by other bytes: all its fields, and a digest that is half of each. */
  lemma SplicedHeader(H: Hash, kind: Byte, sequence: U64, len: U32, digest: Digest, cut: nat, bytes: seq<Byte>)
    returns (h: seq<Byte>)
    requires TAGGED_SIZE <= cut < HEADER_SIZE && |bytes| >= HEADER_SIZE - cut
    ensures h == (Header(H, kind, sequence, len, digest)[..cut] + bytes)[..HEADER_SIZE]
    ensures |h| == HEADER_SIZE && Authentic(H, h)
    ensures Kind(h) == kind && Sequence(h) == sequence && PayloadLen(h) == len
    ensures RecordDigest(h) == digest[..cut - TAGGED_SIZE] + bytes[..HEADER_SIZE - cut]
  {
    hide LE, FromLE;
    var whole := Header(H, kind, sequence, len, digest);
    HeaderFields(H, kind, sequence, len, digest);
    h := (whole[..cut] + bytes)[..HEADER_SIZE];
    assert h[..FRAMING_SIZE] == whole[..FRAMING_SIZE] && h[..4] == whole[..4] && h[17..49] == whole[17..49];
    assert h[5..13] == whole[5..13] && h[13..17] == whole[13..17];
    assert whole[..cut][49..] == digest[..cut - TAGGED_SIZE];
    assert h[49..81] == digest[..cut - TAGGED_SIZE] + bytes[..HEADER_SIZE - cut];
  }

  /** What a crash inside a DATA header leaves, past its tag. */
  function CutDataRest(H: Hash, l: Log, ps: seq<Payload>, p: Payload, cut: nat): Rest
    requires cut <= HEADER_SIZE
  {
    Rest(ps, Header(H, DATA, Add64(SealedEvents(l), |ps| + 1), |p|, H(p))[..cut])
  }

  /**
   * Behind a DATA header cut past its tag the payload is read out of the appended bytes: the log is a tail with
   * nothing sealed if they do not fill it, and corrupt if they do, unless the digest of what is read there
   * coincides with the splice of two digests.
   */
  lemma CommitBehindCutDataHeader(H: Hash, l: Log, ps: seq<Payload>, p: Payload, cut: nat, t: Txn)
    requires TAGGED_SIZE <= cut < HEADER_SIZE
    ensures var r := CutDataRest(H, l, ps, p, cut);
      var bytes := Appended(H, l, t);
      var scan := Scan(H, Behind(H, l, ps, r.torn + bytes));
      var taken := HEADER_SIZE - cut;
      && Recoverable(H, r) && |bytes| >= taken
      && (|bytes| - taken < |p| ==>
            scan.state == Tail && scan.sealed == SealedCount(l) && scan.replay == Replay(H, l.base.state, l.txns))
      && (|bytes| - taken < |p| || H(bytes[taken..taken + |p|]) == H(p)[..cut - TAGGED_SIZE] + bytes[..taken]
          || scan.state == Corrupt)
  {
    hide LogBytes, DataRecords, TxnBytes, Replay, Scan, SealedEvents, SealedCount, Header, Authentic, RecordDigest,
      Kind, Sequence, PayloadLen;
    var bytes, taken := Appended(H, l, t), HEADER_SIZE - cut;
    var first := FirstRecord(H, t, SealedEvents(l), SealedCount(l));
    var r := CutDataRest(H, l, ps, p, cut);
    var more := r.torn + bytes;
    var file := Behind(H, l, ps, more);
    var d := PastData(H, l, ps, more);
    SliceOfRest(file, d.offset, HEADER_SIZE);
    var h := SplicedHeader(H, DATA, Add64(SealedEvents(l), |ps| + 1), |p|, H(p), cut, bytes);
    if |bytes| - taken >= |p| {
      var at := d.offset + HEADER_SIZE;
      assert file[at..at + |p|] == more[HEADER_SIZE..HEADER_SIZE + |p|] == bytes[taken..taken + |p|];
    }
  }

  /**
   * Behind a seal cut past its tag the splice is read as a seal: corrupt, unless the appended bytes complete
   * its digest.
   */
  lemma {:induction false} CommitBehindCutSeal(H: Hash, l: Log, ps: Txn, cut: nat, t: Txn)
    requires TAGGED_SIZE <= cut < HEADER_SIZE
    ensures var r := Rest(ps, SealRecord(H, ps, Add64(SealedCount(l), 1))[..cut]);
      var bytes := Appended(H, l, t);
      && Recoverable(H, r) && |bytes| >= HEADER_SIZE - cut
      && (bytes[..HEADER_SIZE - cut] != H(Digests(H, ps))[cut - TAGGED_SIZE..] ==>
            Scan(H, Behind(H, l, ps, r.torn + bytes)).state == Corrupt)
  {
    hide LogBytes, DataRecords, TxnBytes, Replay, Scan, SealedEvents, SealedCount, Header, Authentic, RecordDigest,
      Kind, Sequence, PayloadLen, Digests;
    var bytes := Appended(H, l, t);
    var first := FirstRecord(H, t, SealedEvents(l), SealedCount(l));
    var digest := H(Digests(H, ps));
    var more := SealRecord(H, ps, Add64(SealedCount(l), 1))[..cut] + bytes;
    var d := PastData(H, l, ps, more);
    SliceOfRest(Behind(H, l, ps, more), d.offset, HEADER_SIZE);
    var h := SplicedHeader(H, SEAL, Add64(SealedCount(l), 1), 0, digest, cut, bytes);
    if RecordDigest(h) == digest {
      assert digest == digest[..cut - TAGGED_SIZE] + digest[cut - TAGGED_SIZE..];
      assert bytes[..HEADER_SIZE - cut] == RecordDigest(h)[cut - TAGGED_SIZE..];
    }
  }

  // ---- when an OK is true ----

  /**
   * A commit that reports success has sealed its transaction if and only if it found no tail, which a scan before
   * the commit tells: then, and only then, the log is the old one with the transaction behind it. Fences do not
   * matter, and nothing is assumed about the digest.
   */
  lemma OkIsTrueIff(H: Hash, l: Log, r: Rest, h: Handle, pending: Option<seq<Byte>>)
    requires Recoverable(H, r) && h.staged != [] && h.generation == l.generation
    requires Armed(h, Scan(H, LogBytes(H, l) + RestBytes(H, r, SealedEvents(l))))
    ensures var log := LogBytes(H, l) + RestBytes(H, r, SealedEvents(l));
      var o := Commit(H, Files(log, pending), h, AppendDone);
      && o.status == Ok
      && o.files.log == Behind(H, l, r.events, r.torn + Appended(H, l, h.staged))
      && (Scan(H, o.files.log) == Found(H, Extended(l, h.staged), Clean) <==> Scan(H, log).state == Clean)
  {
    hide LogBytes, DataRecords, TxnBytes, Scan, Replay, Torn, Events, Armed;
    RestScans(H, l, r);
    var head, data, bytes := LogBytes(H, l), DataRecords(H, r.events, SealedEvents(l)), Appended(H, l, h.staged);
    assert (head + (data + r.torn)) + bytes == head + (data + (r.torn + bytes));
    AppendIsExtension(H, l, h.staged);
    if r == Rest([], []) {
      DataRecordsEmpty(H, r.events, SealedEvents(l));
      assert head + (data + (r.torn + bytes)) == head + bytes;
      LogScansClean(H, Extended(l, h.staged));
    } else {
      LongerThanExtended(H, l, r, Behind(H, l, r.events, r.torn + bytes), h.staged);
    }
  }

  /** A clean scan covers the whole file, so one that leaves a tail's bytes over is not clean. */
  lemma LongerThanExtended(H: Hash, l: Log, r: Rest, file: seq<Byte>, t: Txn)
    requires r != Rest([], []) && file == Behind(H, l, r.events, r.torn + Appended(H, l, t))
    ensures Scan(H, file) != Found(H, Extended(l, t), Clean)
  {
    hide LogBytes, DataRecords, TxnBytes, Scan, Replay, Torn, Events;
    AppendIsExtension(H, l, t);
    DataRecordsEmpty(H, r.events, SealedEvents(l));
    if Scan(H, file) == Found(H, Extended(l, t), Clean) {
      var l', r' := Decode(H, file);
      RestIsEmpty(H, SealedEvents(l'));
    }
  }

  /** Whatever file a commit succeeds on is such a log and rest, so this is the whole story. */
  lemma OkMeansSealed(H: Hash, f: Files, h: Handle) returns (l: Log)
    requires Commit(H, f, h, AppendDone).status == Ok
    ensures h.staged != [] && Scan(H, f.log) == Found(H, l, Scan(H, f.log).state)
    ensures Scan(H, Commit(H, f, h, AppendDone).files.log) == Found(H, Extended(l, h.staged), Clean)
       <==> Scan(H, f.log).state == Clean
  {
    hide LogBytes, DataRecords, TxnBytes, Scan, Replay, Torn, Events, Armed;
    var r;
    l, r := Decode(H, f.log);
    OkIsTrueIff(H, l, r, h, f.pending);
  }

  // ---- a run that gets there ----

  /** Open, stage two payloads, lose the commit behind its first record, commit again on the live handle. */
  function UnreopenedRun(uuid: Uuid, a: Payload, b: Payload): seq<Op> {
    [DoOpen(0, uuid, ReplaceDone), DoStage(0, a), DoStage(0, b),
     DoCommit(0, AppendCut(HEADER_SIZE + |a|)), DoCommit(0, AppendDone)]
  }

  function OpenedWorld(H: Hash, uuid: Uuid, staged: seq<Payload>): World {
    var l := Log(0, FirstBase(uuid), []);
    World(Files(LogBytes(H, l), None), map[0 := Adopt(Found(H, l, Clean), staged)], Some(l), [], 0, map[], None)
  }

  /** The second commit reports success and leaves a corrupt log. */
  lemma UnreopenedRunCorrupts(H: Hash, uuid: Uuid, a: Payload, b: Payload)
    ensures var ops := UnreopenedRun(uuid, a, b);
      var w := Exec(H, Empty(), ops[..4]);
      && Exec(H, Empty(), ops) == Apply(H, w, ops[4])
      && StatusOf(H, w, ops[4]) == Ok
      && Scan(H, Exec(H, Empty(), ops).files.log).state == Corrupt
  {
    hide LogBytes, Scan, TxnBytes, Replay, Events, Apply, HeadRecord, Commit;
    var ops := UnreopenedRun(uuid, a, b);
    var l := Log(0, FirstBase(uuid), []);
    var w1 := OpenedWorld(H, uuid, []);
    OpensFresh(H, uuid);
    var w3 := OpenedWorld(H, uuid, [a, b]);
    StagesTwo(H, uuid, a, b);
    var w := Apply(H, w3, ops[3]);
    FiveSteps(H, ops, w1, Apply(H, w1, ops[1]), w3, w);
    CutBehindFirst(H, uuid, a, b);
    var rest := Rest([a], []);
    NothingIsTorn(H);
    RestScans(H, l, rest);
    OkIsTrueIff(H, l, rest, w.handles[0], None);
    assert [] + Appended(H, l, [a, b]) == Appended(H, l, [a, b]);
    CommitBehindDataCorrupts(H, l, [a], [a, b]);
    CommitApplies(H, w, 0);
  }

  lemma CommitApplies(H: Hash, w: World, id: nat)
    requires id in w.handles
    ensures Apply(H, w, DoCommit(id, AppendDone)).files == Commit(H, w.files, w.handles[id], AppendDone).files
    ensures StatusOf(H, w, DoCommit(id, AppendDone)) == Commit(H, w.files, w.handles[id], AppendDone).status
  {
    hide Commit, Scan;
  }

  lemma FiveSteps(H: Hash, ops: seq<Op>, w1: World, w2: World, w3: World, w4: World)
    requires |ops| == 5
    requires w1 == Apply(H, Empty(), ops[0]) && w2 == Apply(H, w1, ops[1])
    requires w3 == Apply(H, w2, ops[2]) && w4 == Apply(H, w3, ops[3])
    ensures Exec(H, Empty(), ops[..4]) == w4 && Exec(H, Empty(), ops) == Apply(H, w4, ops[4])
  {
    hide Apply;
    var p := ops[..4];
    assert Exec(H, Empty(), p) == Exec(H, w1, p[1..]) && p[1..] == [ops[1], ops[2], ops[3]];
    assert Exec(H, w1, p[1..]) == Exec(H, w2, p[1..][1..]) && p[1..][1..] == [ops[2], ops[3]];
    assert Exec(H, w2, [ops[2], ops[3]]) == Exec(H, w3, [ops[3]]);
    assert Exec(H, w3, [ops[3]]) == Exec(H, w4, []);
    ExecEnds(H, Empty(), p, ops[4]);
    assert p + [ops[4]] == ops;
  }

  lemma {:induction false} ExecEnds(H: Hash, w: World, ops: seq<Op>, last: Op)
    ensures Exec(H, w, ops + [last]) == Apply(H, Exec(H, w, ops), last)
    decreases ops
  {
    hide Apply;
    if ops == [] {
      assert Exec(H, w, [last]) == Exec(H, Apply(H, w, last), []);
    } else {
      ExecEnds(H, Apply(H, w, ops[0]), ops[1..], last);
      assert (ops + [last])[1..] == ops[1..] + [last];
    }
  }

  lemma OpensFresh(H: Hash, uuid: Uuid)
    ensures Apply(H, Empty(), DoOpen(0, uuid, ReplaceDone)) == OpenedWorld(H, uuid, [])
  {
    hide LogBytes, HeadRecord, Replay, Events;
    HeadIsLog(H, 0, FirstBase(uuid));
    LogScansClean(H, Log(0, FirstBase(uuid), []));
  }

  lemma StagesTwo(H: Hash, uuid: Uuid, a: Payload, b: Payload)
    ensures var w := Apply(H, OpenedWorld(H, uuid, []), DoStage(0, a));
      Apply(H, w, DoStage(0, b)) == OpenedWorld(H, uuid, [a, b])
  {
    hide LogBytes, Found;
    var w := OpenedWorld(H, uuid, []);
    assert [] + [a] == [a] && [a] + [b] == [a, b];
    assert w.handles[0 := Staged(w.handles[0], a)] == OpenedWorld(H, uuid, [a]).handles;
    var v := OpenedWorld(H, uuid, [a]);
    assert v.handles[0 := Staged(v.handles[0], b)] == OpenedWorld(H, uuid, [a, b]).handles;
  }

  lemma CutBehindFirst(H: Hash, uuid: Uuid, a: Payload, b: Payload)
    ensures var l := Log(0, FirstBase(uuid), []);
      var w := Apply(H, OpenedWorld(H, uuid, [a, b]), DoCommit(0, AppendCut(HEADER_SIZE + |a|)));
      && 0 in w.handles && w.handles[0].staged == [a, b] && w.handles[0].fence == None && w.handles[0].generation == 0
      && w.files == Files(LogBytes(H, l) + RestBytes(H, Rest([a], []), SealedEvents(l)), None)
  {
    hide LogBytes, HeadRecord, Replay, Scan, DataRecord;
    var l := Log(0, FirstBase(uuid), []);
    LogScansClean(H, l);
    var t: Txn := [a, b];
    var bytes := Appended(H, l, t);
    FirstRecordOnly(H, a, b, SealedEvents(l), SealedCount(l));
    assert RestBytes(H, Rest([a], []), SealedEvents(l)) == DataRecords(H, [a], SealedEvents(l));
  }

  lemma FirstRecordOnly(H: Hash, a: Payload, b: Payload, events: U64, sealed: U64)
    ensures HEADER_SIZE + |a| <= |TxnBytes(H, [a, b], events, sealed)|
    ensures TxnBytes(H, [a, b], events, sealed)[..HEADER_SIZE + |a|] == DataRecords(H, [a], events)
  {
    hide DataRecord, SealRecord;
    var e := Add64(events, 1);
    assert [a, b][1..] == [b] && [a][1..] == [] && DataRecords(H, [], e) == [];
    assert DataRecords(H, [a], events) == DataRecord(H, a, e);
  }

  // ---- the discipline ----

  /** An append that stops after some of its bytes and before the last. */
  predicate Tears(H: Hash, w: World, op: Op) {
    && op.DoCommit? && op.id in w.handles && Writes(H, w.files, w.handles[op.id])
    && op.appendIo.AppendCut?
    && 0 < op.appendIo.landed < |CommitBytes(H, Scan(H, w.files.log), w.handles[op.id].staged)|
  }

  /** A torn append ends every live handle: whoever goes on, goes on by opening. */
  predicate Disciplined(H: Hash, w: World, ops: seq<Op>)
    decreases ops
  {
    ops == [] ||
    ((Tears(H, w, ops[0]) && |ops| > 1 ==> ops[1] == Crash) && Disciplined(H, Apply(H, w, ops[0]), ops[1..]))
  }

  /** Nobody holds a handle over a tail. */
  predicate Settled(H: Hash, w: World) {
    Scan(H, w.files.log).state == Tail ==> w.handles == map[]
  }

  lemma SettledAdmits(H: Hash, w: World, op: Op)
    requires Settled(H, w)
    ensures Admissible(H, w, op)
  {
    hide Scan;
  }

  lemma OpenSettles(H: Hash, w: World, id: nat, uuid: Uuid, io: ReplaceIo)
    requires Inv(H, w) && Settled(H, w) && id !in w.handles
    ensures Settled(H, AfterOpen(H, w, id, uuid, io))
  {
    hide Scan, FenceInv, PreparedInv, Holds, Covers, HeadRecord, LogBytes, Events, Replay;
    if w.log == None {
      NoLogYet(H, w);
      HeadIsLog(H, 0, FirstBase(uuid));
      LogScansClean(H, Log(0, FirstBase(uuid), []));
    } else {
      ScanReportsHistory(H, w);
      LogScansClean(H, w.log.value);
    }
  }

  lemma CommitSettles(H: Hash, w: World, id: nat, io: AppendIo)
    requires Inv(H, w) && Settled(H, w) && id in w.handles && !Tears(H, w, DoCommit(id, io))
    ensures Settled(H, AfterCommit(H, w, id, io))
  {
    hide Scan, FenceInv, PreparedInv, Holds, Covers, LogBytes, TxnBytes, Events, Replay;
    var h := w.handles[id];
    CommitNeedsLog(H, w, id);
    if Writes(H, w.files, h) {
      ScanReportsHistory(H, w);
      var l := w.log.value;
      CoveredCounts(H, l, w.history);
      AppendIsExtension(H, l, h.staged);
      LogScansClean(H, Extended(l, h.staged));
      var bytes := Appended(H, l, h.staged);
      assert bytes[..|bytes|] == bytes && w.files.log + bytes[..0] == w.files.log;
    }
  }

  lemma CompactSettles(H: Hash, w: World, id: nat, io: ReplaceIo, unlinked: bool)
    requires Settled(H, w) && id in w.handles
    ensures Settled(H, AfterCompact(H, w, id, io, unlinked))
  {
    hide Scan, HeadRecord, LoadPending, LogBytes;
    var p := LoadPending(H, w.files.pending);
    if p.Prepared? {
      HeadIsLog(H, p.target, p.base);
      LogScansClean(H, Log(p.target, p.base, []));
    }
  }

  lemma StepSettles(H: Hash, w: World, op: Op)
    requires Inv(H, w) && Settled(H, w) && !Tears(H, w, op)
    ensures Settled(H, Apply(H, w, op))
  {
    hide Inv, Scan, AfterOpen, AfterCommit, AfterCompact, Tears;
    match op
    case DoOpen(id, uuid, io) => if id !in w.handles { OpenSettles(H, w, id, uuid, io); }
    case DoCommit(id, io) => if id in w.handles { CommitSettles(H, w, id, io); }
    case DoCompact(id, io, unlinked) => if id in w.handles { CompactSettles(H, w, id, io, unlinked); }
    case DoSnapshot(id, io) => if id in w.handles { assert Apply(H, w, op).files.log == w.files.log; }
    case _ =>
      assert Apply(H, w, op).files.log == w.files.log;
  }

  /** Under the discipline no commit ever meets a tail, so every theorem about admissible runs applies. */
  lemma {:induction false} DisciplineIsEnough(H: Hash, w: World, ops: seq<Op>)
    requires Inv(H, w) && Disciplined(H, w, ops)
    requires Settled(H, w) || (ops != [] ==> ops[0] == Crash)
    ensures AdmissibleRun(H, w, ops)
    decreases ops
  {
    hide Inv, Apply, Tears, Settled, Admissible;
    if ops != [] {
      if Settled(H, w) {
        SettledAdmits(H, w, ops[0]);
      } else {
        CrashAdmits(H, w);
      }
      StepKeeps(H, w, ops[0]);
      if ops[0] == Crash {
        CrashSettles(H, w);
      } else if !Tears(H, w, ops[0]) {
        StepSettles(H, w, ops[0]);
      }
      DisciplineIsEnough(H, Apply(H, w, ops[0]), ops[1..]);
    }
  }

  lemma CrashAdmits(H: Hash, w: World)
    ensures Admissible(H, w, Crash)
  {}

  lemma CrashSettles(H: Hash, w: World)
    ensures Settled(H, Apply(H, w, Crash))
  {}
}
