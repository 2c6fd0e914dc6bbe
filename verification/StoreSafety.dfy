/**
 * Safety over whole runs of the store: the log on disk always stands for one abstract history,
 * however it was compacted; prepared bases never activate out of turn; fenced commits are exclusive.
 */
module StoreSafety {
  import opened Bytes
  import opened Options
  import opened StoreFormat
  import opened StoreScan
  import opened StoreRefine
  import opened StoreRecovery
  import opened StoreOps
  import opened StoreRuns

  ghost predicate LogInv(H: Hash, w: World) {
    if w.log == None then w.files.log == [] && w.history == [] && w.compactions == 0
    else
      && Holds(H, w.files.log, w.log.value)
      && Covers(H, w.log.value, w.history)
      && w.log.value.generation == w.compactions % TWO_64
  }

  predicate Before(p: Point, q: Point) {
    p.sealed <= q.sealed && p.compactions <= q.compactions
  }

  /** Every armed fence is the state at the point where it was armed. */
  predicate FenceAt(f: Fence, p: Point) {
    f.generation == p.compactions % TWO_64 && f.seal == p.sealed % TWO_64
  }

  predicate FenceInv(w: World) {
    forall id :: id in w.handles && w.handles[id].fence != None ==>
      && id in w.armedAt && Before(w.armedAt[id], Now(w))
      && FenceAt(w.handles[id].fence.value, w.armedAt[id])
  }

  /** A base this store prepared says the point at which it was prepared. */
  predicate PreparedInv(H: Hash, w: World) {
    w.preparedAt != None ==>
      && Before(w.preparedAt.value, Now(w))
      && var p := LoadPending(H, w.files.pending);
      && p.Prepared?
      && p.target == (w.preparedAt.value.compactions + 1) % TWO_64
      && p.base.sealed == w.preparedAt.value.sealed % TWO_64
  }

  ghost predicate Inv(H: Hash, w: World) {
    LogInv(H, w) && FenceInv(w) && PreparedInv(H, w)
  }

  /** A commit that gets to write finds no tail; its caller can see that with a scan beforehand. */
  predicate Admissible(H: Hash, w: World, op: Op) {
    op.DoCommit? && op.id in w.handles && Writes(H, w.files, w.handles[op.id]) ==>
      Scan(H, w.files.log).state == Clean
  }

  predicate AdmissibleRun(H: Hash, w: World, ops: seq<Op>)
    decreases ops
  {
    ops == [] || (Admissible(H, w, ops[0]) && AdmissibleRun(H, Apply(H, w, ops[0]), ops[1..]))
  }

  // ---- what a scan reports in a good world ----

  /** The scan is never corrupt, and its counts, generation and replay state are those of the abstract history. */
  lemma ScanReportsHistory(H: Hash, w: World)
    requires LogInv(H, w) && w.log != None
    ensures var scan := Scan(H, w.files.log);
      && scan.hasHead && scan.state != Corrupt
      && scan.generation == w.compactions % TWO_64
      && scan.base == w.log.value.base
      && scan.sealed == |w.history| % TWO_64
      && scan.events == Events(w.history) % TWO_64
      && scan.replay == Replay(H, ZeroDigest(), w.history)
      && (scan.state == Clean ==> w.files.log == LogBytes(H, w.log.value))
      && scan.validBytes <= |w.files.log|
      && w.files.log[..scan.validBytes] == LogBytes(H, w.log.value)
  {
    hide Scan, Holds, Covers, LogBytes, Replay, Events;
    ScanOfHeld(H, w.files.log, w.log.value);
    CoveredCounts(H, w.log.value, w.history);
  }

  lemma NoLogYet(H: Hash, w: World)
    requires LogInv(H, w) && w.log == None
    ensures Scan(H, w.files.log) == Headless(Clean)
  {}

  // ---- each operation keeps the invariant ----

  lemma HeadIsLog(H: Hash, generation: U64, b: Base)
    ensures HeadRecord(H, generation, b) == LogBytes(H, Log(generation, b, []))
  {
    assert HeadRecord(H, generation, b) + [] == HeadRecord(H, generation, b);
  }

  lemma FirstLogCovers(H: Hash, uuid: Uuid)
    ensures Covers(H, Log(0, FirstBase(uuid), []), [])
  {
    assert Events([]) == 0;
    assert Replay(H, ZeroDigest(), []) == ZeroDigest();
    CoversCompacted(H, 0, FirstBase(uuid), []);
  }

  lemma OpenKeepsLog(H: Hash, w: World, id: nat, uuid: Uuid, io: ReplaceIo)
    requires LogInv(H, w) && id !in w.handles
    ensures LogInv(H, AfterOpen(H, w, id, uuid, io))
  {
    hide Scan, Covers, Holds, LogBytes, HeadRecord;
    if w.log == None {
      NoLogYet(H, w);
      HeadIsLog(H, 0, FirstBase(uuid));
      LogHoldsItself(H, Log(0, FirstBase(uuid), []));
      FirstLogCovers(H, uuid);
    } else {
      ScanReportsHistory(H, w);
      LogHoldsItself(H, w.log.value);
    }
  }

  lemma OpenKeeps(H: Hash, w: World, id: nat, uuid: Uuid, io: ReplaceIo)
    requires Inv(H, w) && id !in w.handles
    ensures Inv(H, AfterOpen(H, w, id, uuid, io))
  {
    hide Scan, LogInv, LoadPending;
    OpenKeepsLog(H, w, id, uuid, io);
  }

  lemma CommitKeepsLog(H: Hash, w: World, id: nat, io: AppendIo)
    requires LogInv(H, w) && id in w.handles && Admissible(H, w, DoCommit(id, io))
    ensures LogInv(H, AfterCommit(H, w, id, io))
  {
    hide Scan, Covers, Holds, LogBytes, TxnBytes, Recoverable;
    var h := w.handles[id];
    if w.log == None {
      NoLogYet(H, w);
    } else if Writes(H, w.files, h) {
      ScanReportsHistory(H, w);
      var l, t := w.log.value, h.staged;
      CoveredCounts(H, l, w.history);
      var bytes := Appended(H, l, t);
      AppendIsExtension(H, l, t);
      LogHoldsItself(H, Extended(l, t));
      CoversExtends(H, l, w.history, t);
      if io.AppendCut? && io.landed < |bytes| {
        var r := PrefixOfTxn(H, t, SealedEvents(l), SealedCount(l), io.landed);
        assert AfterCommit(H, w, id, io).files.log == LogBytes(H, l) + RestBytes(H, r, SealedEvents(l));
        HoldsWith(H, l, r);
      } else {
        assert bytes[..|bytes|] == bytes;
      }
    }
  }

  lemma HoldsWith(H: Hash, l: Log, r: Rest)
    requires Recoverable(H, r)
    ensures Holds(H, LogBytes(H, l) + RestBytes(H, r, SealedEvents(l)), l)
  {}

  /** An armed fence of the committing handle follows the state its own commit produced. */
  lemma CommitKeeps(H: Hash, w: World, id: nat, io: AppendIo)
    requires Inv(H, w) && id in w.handles && Admissible(H, w, DoCommit(id, io))
    ensures Inv(H, AfterCommit(H, w, id, io))
  {
    hide Scan, LoadPending, LogInv, TxnBytes;
    CommitKeepsLog(H, w, id, io);
    var w' := AfterCommit(H, w, id, io);
    CommitNeedsLog(H, w, id);
    if w'.log != None {
      ScanReportsHistory(H, w');
    }
  }

  lemma CommitNeedsLog(H: Hash, w: World, id: nat)
    requires LogInv(H, w) && id in w.handles
    ensures Writes(H, w.files, w.handles[id]) ==> w.log != None
  {
    hide Scan, Covers, Holds;
    if w.log == None {
      NoLogYet(H, w);
    }
  }

  lemma SnapshotKeeps(H: Hash, w: World, id: nat, io: ReplaceIo)
    requires Inv(H, w) && id in w.handles
    ensures Inv(H, AfterSnapshot(H, w, id, io))
  {
    hide Scan, LoadPending, LogInv, PreparedInv, PendingBytes, NextBase;
    SameLog(H, w, AfterSnapshot(H, w, id, io));
    SnapshotPrepares(H, w, id, io);
  }

  lemma SnapshotPrepares(H: Hash, w: World, id: nat, io: ReplaceIo)
    requires LogInv(H, w) && PreparedInv(H, w) && id in w.handles
    ensures PreparedInv(H, AfterSnapshot(H, w, id, io))
  {
    hide Scan, LoadPending, LogInv, PendingBytes, Events, Replay, LogBytes;
    var scan := Scan(H, w.files.log);
    if scan.state != Corrupt && scan.hasHead {
      HeadMeansLog(H, w);
      ScanReportsHistory(H, w);
      LoadPrepared(H, Add64(scan.generation, 1), NextBase(H, scan));
      ModAdd(w.compactions, 1);
    }
  }

  lemma SameLog(H: Hash, w: World, v: World)
    requires LogInv(H, w)
    requires v.log == w.log && v.files.log == w.files.log && v.history == w.history && v.compactions == w.compactions
    ensures LogInv(H, v)
  {}

  lemma HeadMeansLog(H: Hash, w: World)
    requires LogInv(H, w) && Scan(H, w.files.log).hasHead
    ensures w.log != None
  {
    hide Scan, Covers, Holds;
    if w.log == None {
      NoLogYet(H, w);
    }
  }

  lemma CompactKeepsLog(H: Hash, w: World, id: nat, io: ReplaceIo, unlinked: bool)
    requires LogInv(H, w) && id in w.handles
    ensures LogInv(H, AfterCompact(H, w, id, io, unlinked))
  {
    hide Scan, LoadPending, Holds, Covers, HeadRecord, LogBytes;
    if Activated(H, w.files) {
      HeadMeansLog(H, w);
      ScanReportsHistory(H, w);
      var p := LoadPending(H, w.files.pending);
      HeadIsLog(H, p.target, p.base);
      LogHoldsItself(H, Log(p.target, p.base, []));
      CoversCompacted(H, p.target, p.base, w.history);
    }
  }

  lemma CompactKeeps(H: Hash, w: World, id: nat, io: ReplaceIo, unlinked: bool)
    requires Inv(H, w) && id in w.handles
    ensures Inv(H, AfterCompact(H, w, id, io, unlinked))
  {
    hide Scan, LoadPending, LogInv, HeadRecord;
    CompactKeepsLog(H, w, id, io, unlinked);
  }

  lemma FenceKeeps(H: Hash, w: World, id: nat, n: U64)
    requires Inv(H, w) && id in w.handles
    ensures Inv(H, AfterFence(H, w, id, n))
  {
    hide Scan, LoadPending, LogInv;
    SameLog(H, w, AfterFence(H, w, id, n));
    if Scan(H, w.files.log).hasHead {
      HeadMeansLog(H, w);
      ScanReportsHistory(H, w);
    }
  }

  /** Closing, staging, rolling back, planting a prepared base and crashing touch neither the log nor the history. */
  lemma QuietKeeps(H: Hash, w: World, op: Op)
    requires Inv(H, w) && (op.DoClose? || op.DoStage? || op.DoRollback? || op.Plant? || op.Crash?)
    ensures Inv(H, Apply(H, w, op))
  {
    hide LogInv, LoadPending;
    SameLog(H, w, Apply(H, w, op));
  }

  /** Every operation keeps the invariant. */
  lemma StepKeeps(H: Hash, w: World, op: Op)
    requires Inv(H, w) && Admissible(H, w, op)
    ensures Inv(H, Apply(H, w, op))
  {
    hide Inv, AfterOpen, AfterCommit, AfterSnapshot, AfterCompact, AfterFence, Admissible;
    match op
    case DoOpen(id, uuid, io) => if id !in w.handles { OpenKeeps(H, w, id, uuid, io); }
    case DoCommit(id, io) => if id in w.handles { CommitKeeps(H, w, id, io); }
    case DoSnapshot(id, io) => if id in w.handles { SnapshotKeeps(H, w, id, io); }
    case DoCompact(id, io, unlinked) => if id in w.handles { CompactKeeps(H, w, id, io, unlinked); }
    case DoFence(id, n) => if id in w.handles { FenceKeeps(H, w, id, n); }
    case _ => QuietKeeps(H, w, op);
  }

  /** And so does every run. */
  lemma {:induction false} RunKeeps(H: Hash, w: World, ops: seq<Op>)
    requires Inv(H, w) && AdmissibleRun(H, w, ops)
    ensures Inv(H, Exec(H, w, ops))
    decreases ops
  {
    hide Inv, Apply, Admissible;
    if ops != [] {
      StepKeeps(H, w, ops[0]);
      RunKeeps(H, Apply(H, w, ops[0]), ops[1..]);
    }
  }
}
