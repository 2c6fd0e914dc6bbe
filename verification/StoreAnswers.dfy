/**
 * What the caller of a store operation can rely on besides the log: which answer means what, that a handle whose
 * operation reported OK describes the log as it now is, when a handle is fenced, and that bases form a chain.
 */
module StoreAnswers {
  import opened Bytes
  import opened Options
  import opened StoreFormat
  import opened StoreScan
  import opened StoreRefine
  import opened StoreRecovery
  import opened StoreOps
  import opened StoreRuns
  import opened StoreSafety
  import opened StoreTheorems
  import opened StoreStage

  // ---- which answer means what ----

  /** A prepared base is read back exactly from the file that was prepared for it; any other file is malformed. */
  lemma PreparedIff(H: Hash, file: Option<seq<Byte>>, target: U64, b: Base)
    ensures LoadPending(H, file) == Prepared(target, b) <==> file == Some(PendingBytes(H, target, b))
    ensures LoadPending(H, file) == NoPending <==> file == None
  {
    hide LE, FromLE, Body, ParseBody;
    LoadPrepared(H, target, b);
    if LoadPending(H, file) == Prepared(target, b) {
      var f := file.value;
      Widths();
      FromLERoundTrip(f[..8]);
      BodyOfParse(f[8..PEND_BODY]);
      assert f == f[..8] + f[8..PEND_BODY] + f[PEND_BODY..];
      assert f[..PEND_BODY] == f[..8] + f[8..PEND_BODY];
    }
  }

  /** The log can be committed to or compacted: it has a head and is not corrupt. */
  predicate Sound(scan: ScanResult) {
    scan.hasHead && scan.state in {Clean, Tail}
  }

  /** The base prepared for the log in this state, and no other. */
  predicate Succeeds(p: Pending, scan: ScanResult) {
    && p.Prepared? && p.target == (scan.generation + 1) % TWO_64
    && (p.base.sealed, p.base.events, p.base.state) == (scan.sealed, scan.events, scan.replay)
  }

  lemma OpenAnswers(H: Hash, f: Files, uuid: Uuid, io: ReplaceIo)
    ensures var scan, o := Scan(H, f.log), Open(H, f, uuid, io);
      && (o.status == Corrupted <==> scan.state == Corrupt)
      && (o.status == Io <==> scan.state != Corrupt && (!scan.hasHead || scan.state == Tail) && io != ReplaceDone)
      && o.status != Stale && (o.handle.Some? <==> o.status == Ok) && o.files.pending == f.pending
      && (o.recovered <==> o.status == Ok && scan.state == Tail)
  {
    hide Scan, HeadRecord;
    ValidBytesInFile(H, f.log);
  }

  lemma CommitAnswers(H: Hash, f: Files, h: Handle, io: AppendIo)
    ensures var scan, o := Scan(H, f.log), Commit(H, f, h, io);
      var current := scan.generation == h.generation
                     && (h.fence.Some? ==> h.fence.value == Fence(scan.generation, scan.sealed, scan.replay));
      && (o.status == Corrupted <==> h.staged != [] && !Sound(scan))
      && (o.status == Stale <==> h.staged == [] || (Sound(scan) && !current))
      && (o.status == Io <==> h.staged != [] && Sound(scan) && current && io.AppendCut?)
      && (o.status in {Stale, Corrupted} ==> o.files == f)
      && (o.status == Io ==> Describes(o.handle, scan) && o.handle.(sealed := h.sealed, events := h.events,
                                                                    validBytes := h.validBytes) == h)
  {
    hide Scan, TxnBytes;
  }

  lemma CompactAnswers(H: Hash, f: Files, h: Handle, io: ReplaceIo, unlinked: bool)
    ensures var scan, p, o := Scan(H, f.log), LoadPending(H, f.pending), Compact(H, f, h, io, unlinked);
      var foreign := p.Prepared? && p.base.uuid != scan.base.uuid;
      && (o.status == Stale <==> p == NoPending || (p.Prepared? && Sound(scan) && !foreign && !Succeeds(p, scan)))
      && (o.status == Corrupted <==> p == BadPending || (p.Prepared? && (!Sound(scan) || foreign)))
      && (o.status == Io <==> Sound(scan) && !foreign && Succeeds(p, scan) && io != ReplaceDone)
      && (o.status in {Stale, Corrupted} ==> o.files == f && o.handle == h)
  {
    hide Scan, LoadPending, HeadRecord;
  }

  lemma FenceAnswers(H: Hash, f: Files, h: Handle, expected: U64)
    ensures var scan, o := Scan(H, f.log), ArmFence(H, f, h, expected);
      && (o.status == Corrupted <==> !Sound(scan))
      && (o.status == Stale <==> Sound(scan) && scan.sealed != expected)
      && o.files == f && o.status != Io
  {
    hide Scan;
  }

  // ---- the handle describes the log ----

  /** Its generation, counts and, unless it will look again, length are those a scan reports. */
  predicate Describes(h: Handle, scan: ScanResult) {
    && h.generation == scan.generation && h.sealed == scan.sealed && h.events == scan.events
    && (h.validBytes == -1 || h.validBytes == scan.validBytes)
  }

  /** After an open, a commit or a compaction that reports OK the handle describes the log as it now is. */
  lemma OkIsCurrent(H: Hash, w: World, op: Op)
    requires Inv(H, w) && Admissible(H, w, op) && StatusOf(H, w, op) == Ok
    requires (op.DoOpen? && op.id !in w.handles) || op.DoCommit? || op.DoCompact?
    ensures var v := Apply(H, w, op);
      op.id in v.handles && Describes(v.handles[op.id], Scan(H, v.files.log))
  {
    hide Scan, Inv, Commit, Compact, Open, Describes, Writes, Lands, Admissible;
    match op
    case DoOpen(id, uuid, io) => OpenIsCurrent(H, w, id, uuid, io);
    case DoCommit(id, io) => CommitIsCurrent(H, w, id, io);
    case DoCompact(id, io, unlinked) => CompactIsCurrent(H, w, id, io, unlinked);
  }

  lemma CommitIsCurrent(H: Hash, w: World, id: nat, io: AppendIo)
    requires Inv(H, w) && id in w.handles && Admissible(H, w, DoCommit(id, io))
    requires Commit(H, w.files, w.handles[id], io).status == Ok
    ensures var v := AfterCommit(H, w, id, io);
      id in v.handles && Describes(v.handles[id], Scan(H, v.files.log))
  {
    hide Scan, LogInv, FenceInv, PreparedInv, TxnBytes, Events, Replay, LogBytes;
    var v := AfterCommit(H, w, id, io);
    CommitNeedsLog(H, w, id);
    CommitKeepsLog(H, w, id, io);
    ScanReportsHistory(H, w);
    ScanReportsHistory(H, v);
    EventsConcat(w.history, [w.handles[id].staged]);
    OneTxn(w.handles[id].staged);
    ModAdd(|w.history|, 1);
    ModAdd(Events(w.history), |w.handles[id].staged|);
  }

  lemma OneTxn(t: Txn)
    ensures Events([t]) == |t|
  {
    assert Events([]) == 0;
  }

  lemma CompactIsCurrent(H: Hash, w: World, id: nat, io: ReplaceIo, unlinked: bool)
    requires Inv(H, w) && id in w.handles && Compact(H, w.files, w.handles[id], io, unlinked).status == Ok
    ensures var v := AfterCompact(H, w, id, io, unlinked);
      id in v.handles && Describes(v.handles[id], Scan(H, v.files.log))
      && v.handles[id].base.(uuid := v.log.value.base.uuid) == v.log.value.base
  {
    hide Scan, LogInv, FenceInv, PreparedInv, LoadPending, HeadRecord, Events, Replay, LogBytes;
    var v := AfterCompact(H, w, id, io, unlinked);
    HeadMeansLog(H, w);
    CompactKeepsLog(H, w, id, io, unlinked);
    ScanReportsHistory(H, w);
    ScanReportsHistory(H, v);
    var p := LoadPending(H, w.files.pending);
    HeadIsLog(H, p.target, p.base);
    LogScansClean(H, Log(p.target, p.base, []));
    HeadAlone(H, p.target, p.base);
  }

  lemma HeadAlone(H: Hash, generation: U64, b: Base)
    ensures |LogBytes(H, Log(generation, b, []))| == HEAD_SIZE
  {}

  lemma OpenIsCurrent(H: Hash, w: World, id: nat, uuid: Uuid, io: ReplaceIo)
    requires Inv(H, w) && id !in w.handles && Open(H, w.files, uuid, io).status == Ok
    ensures var v := AfterOpen(H, w, id, uuid, io);
      && id in v.handles && Describes(v.handles[id], Scan(H, v.files.log))
      && v.handles[id].base == Scan(H, v.files.log).base && v.handles[id].uuid == v.handles[id].base.uuid
  {
    hide Scan, LogInv, FenceInv, PreparedInv, HeadRecord, Events, Replay, LogBytes;
    var v := AfterOpen(H, w, id, uuid, io);
    if w.log == None {
      NoLogYet(H, w);
    } else {
      OpenKeepsLog(H, w, id, uuid, io);
      ScanReportsHistory(H, w);
      ScanReportsHistory(H, v);
      LogScansClean(H, w.log.value);
    }
  }

  // ---- when a handle is fenced ----

  /**
   * Whether the handle is fenced after n operations, from the operations and their answers alone: since fencing last
   * reported OK it was neither refused again, nor did a commit with something staged find the fence stale, nor did it
   * compact. A commit that reports OK leaves it fenced.
   */
  predicate Fenced(tr: seq<Told>, n: nat, id: nat)
    requires n <= |tr|
  {
    && n > 0 && StagedBy(tr, n, id).Some? && StagedBy(tr, n - 1, id).Some?
    && var x := tr[n - 1];
    if x.op.DoFence? && x.op.id == id && x.status != Corrupted then x.status == Ok
    else if x.op.DoCommit? && x.op.id == id && x.status == Stale then
      StagedBy(tr, n - 1, id) == Some([]) && Fenced(tr, n - 1, id)
    else if x.op.DoCompact? && x.op.id == id && x.status == Ok then false
    else Fenced(tr, n - 1, id)
  }

  lemma {:induction false} AdmissibleSnoc(H: Hash, w: World, ops: seq<Op>, op: Op)
    ensures AdmissibleRun(H, w, ops + [op]) <==> AdmissibleRun(H, w, ops) && Admissible(H, Exec(H, w, ops), op)
    decreases ops
  {
    hide Apply, Admissible;
    if ops == [] {
      assert ops + [op] == [op] && [op][1..] == [];
    } else {
      assert (ops + [op])[1..] == ops[1..] + [op];
      AdmissibleSnoc(H, Apply(H, w, ops[0]), ops[1..], op);
    }
  }

  lemma AdmissibleAt(H: Hash, ops: seq<Op>, n: nat)
    requires 0 < n <= |ops| && AdmissibleRun(H, Empty(), ops[..n])
    ensures AdmissibleRun(H, Empty(), ops[..n - 1]) && Admissible(H, WorldAt(H, ops, n - 1), ops[n - 1])
    ensures Inv(H, WorldAt(H, ops, n - 1))
  {
    hide Exec, AdmissibleRun, Admissible, Inv;
    assert ops[..n] == ops[..n - 1] + [ops[n - 1]];
    AdmissibleSnoc(H, Empty(), ops[..n - 1], ops[n - 1]);
    EmptyIsInv(H);
    RunKeeps(H, Empty(), ops[..n - 1]);
  }

  predicate IsFenced(w: World, id: nat) {
    id in w.handles && w.handles[id].fence.Some?
  }

  /** What one operation does to the fence of one handle. */
  lemma FenceStep(H: Hash, w: World, op: Op, id: nat)
    requires Inv(H, w) && Admissible(H, w, op)
    ensures var v, status := Apply(H, w, op), StatusOf(H, w, op);
      && (id !in w.handles ==> !IsFenced(v, id))
      && (id in w.handles && id in v.handles ==>
            (IsFenced(v, id) <==>
              if op.DoFence? && op.id == id && status != Corrupted then status == Ok
              else if op.DoCommit? && op.id == id && status == Stale then w.handles[id].staged == [] && IsFenced(w, id)
              else if op.DoCompact? && op.id == id && status == Ok then false
              else IsFenced(w, id)))
  {
    hide Scan, LogInv, FenceInv, PreparedInv, LoadPending, Activates, Recovered, HeadRecord, TxnBytes, CommitBytes;
    if op.DoCommit? && op.id in w.handles {
      CommitNeedsLog(H, w, op.id);
      CommitKeepsLog(H, w, op.id, op.appendIo);
      if AfterCommit(H, w, op.id, op.appendIo).log != None {
        ScanReportsHistory(H, AfterCommit(H, w, op.id, op.appendIo));
      }
    }
  }

  /** Over every run a handle is fenced exactly when the answers to its operations say so. */
  lemma {:induction false} FencedIsTold(H: Hash, ops: seq<Op>, n: nat, id: nat)
    requires n <= |ops| && AdmissibleRun(H, Empty(), ops[..n])
    ensures IsFenced(WorldAt(H, ops, n), id) <==> Fenced(Transcript(H, ops), n, id)
    decreases n
  {
    hide Exec, Apply, StatusOf, Inv, AdmissibleRun, Admissible, StagedBy;
    StageIsTold(H, ops, n, id);
    if n == 0 {
      NothingOpen(H, ops);
    } else {
      AdmissibleAt(H, ops, n);
      FencedIsTold(H, ops, n - 1, id);
      StageIsTold(H, ops, n - 1, id);
      NextWorld(H, ops, n - 1);
      FenceStep(H, WorldAt(H, ops, n - 1), ops[n - 1], id);
    }
  }

  // ---- bases form a chain ----

  /** As long as nothing was compacted since, the prepared base names the base it is to replace. */
  predicate AnchorInv(H: Hash, w: World) {
    w.preparedAt.Some? ==>
      && w.log.Some?
      && (w.preparedAt.value.compactions == w.compactions ==>
            var p := LoadPending(H, w.files.pending);
            p.Prepared? && p.base.anchor == H(Body(w.log.value.base)) && p.base.uuid == w.log.value.base.uuid)
  }

  lemma AnchorStep(H: Hash, w: World, op: Op)
    requires Inv(H, w) && Admissible(H, w, op) && AnchorInv(H, w)
    ensures AnchorInv(H, Apply(H, w, op))
  {
    hide Scan, LogInv, FenceInv, LoadPending, Activates, HeadRecord, TxnBytes, CommitBytes, PendingBytes, Body;
    if op.DoSnapshot? && op.id in w.handles {
      var scan := Scan(H, w.files.log);
      if scan.hasHead {
        HeadMeansLog(H, w);
        ScanReportsHistory(H, w);
        LoadPrepared(H, Add64(scan.generation, 1), NextBase(H, scan));
      }
    }
    if op.DoOpen? && w.log == None {
      NoLogYet(H, w);
      NoLogNoHistory(H, w);
    }
  }

  lemma {:induction false} RunAnchors(H: Hash, w: World, ops: seq<Op>)
    requires Inv(H, w) && AdmissibleRun(H, w, ops) && AnchorInv(H, w)
    ensures AnchorInv(H, Exec(H, w, ops)) && Inv(H, Exec(H, w, ops))
    decreases ops
  {
    hide Inv, Apply, Admissible, AnchorInv;
    if ops != [] {
      AnchorStep(H, w, ops[0]);
      StepKeeps(H, w, ops[0]);
      RunAnchors(H, Apply(H, w, ops[0]), ops[1..]);
    }
  }

  /**
   * Over every run, a base this store prepared names, by its digest, the base it takes the place of, and is of the same
   * store: the bases of a log form a chain back to the first.
   */
  lemma {:induction false} BasesChain(H: Hash, ops: seq<Op>, id: nat, io: ReplaceIo, unlinked: bool)
    requires AdmissibleRun(H, Empty(), ops) && id in Exec(H, Empty(), ops).handles
    requires var w := Exec(H, Empty(), ops);
      && w.preparedAt.Some? && |w.history| < TWO_64 && w.compactions < TWO_64
      && AfterCompact(H, w, id, io, unlinked).compactions == w.compactions + 1
    ensures var w := Exec(H, Empty(), ops);
      var v := AfterCompact(H, w, id, io, unlinked);
      && w.log.Some? && v.log.Some?
      && v.log.value.base.anchor == H(Body(w.log.value.base)) && v.log.value.base.uuid == w.log.value.base.uuid
  {
    hide Exec, Inv, AdmissibleRun, Scan, LoadPending, Activates, Body, HeadRecord;
    var w := Exec(H, Empty(), ops);
    EmptyIsInv(H);
    RunAnchors(H, Empty(), ops);
    if w.preparedAt != Some(Now(w)) {
      StaleBaseFails(H, w);
    }
  }
}
