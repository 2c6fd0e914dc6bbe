/**
 * What callers of the store rely on, over whole runs: one history that only grows, compactions that
 * preserve it, prepared bases that never activate out of turn, and fences that exclude lost updates.
 */
module StoreTheorems {
  import opened Bytes
  import opened Options
  import opened StoreFormat
  import opened StoreScan
  import opened StoreRefine
  import opened StoreRecovery
  import opened StoreOps
  import opened StoreRuns
  import opened StoreSafety

  // ---- refinement of one history ----

  lemma EmptyIsGood(H: Hash)
    ensures Inv(H, Empty())
  {}

  /**
   * Whatever the interleaving and however often it compacted, the log is the history and its replay state is
   * the fold from zero.
   */
  lemma {:induction false} RunRefinesHistory(H: Hash, ops: seq<Op>)
    requires AdmissibleRun(H, Empty(), ops)
    ensures var w := Exec(H, Empty(), ops);
      var scan := Scan(H, w.files.log);
      && scan.state != Corrupt
      && scan.sealed == |w.history| % TWO_64
      && scan.events == Events(w.history) % TWO_64
      && scan.replay == Replay(H, ZeroDigest(), w.history)
      && (scan.hasHead ==> scan.generation == w.compactions % TWO_64)
      && (!scan.hasHead ==> w.history == [])
  {
    hide Scan, Exec, LogInv, FenceInv, PreparedInv, AdmissibleRun;
    EmptyIsGood(H);
    RunKeeps(H, Empty(), ops);
    var w := Exec(H, Empty(), ops);
    if w.log == None {
      NoLogYet(H, w);
      NoLogNoHistory(H, w);
    } else {
      ScanReportsHistory(H, w);
    }
  }

  lemma NoLogNoHistory(H: Hash, w: World)
    requires LogInv(H, w) && w.log == None
    ensures w.history == [] && Events(w.history) == 0 && Replay(H, ZeroDigest(), w.history) == ZeroDigest()
  {}

  /** No operation takes a sealed transaction back: the history is only ever extended, by at most one transaction. */
  lemma HistoryGrows(H: Hash, w: World, op: Op)
    ensures var v := Apply(H, w, op);
      && w.history <= v.history && |v.history| <= |w.history| + 1
      && w.compactions <= v.compactions <= w.compactions + 1
      && Before(Now(w), Now(v))
  {
    hide Scan, Commit, Compact, Snapshot, Open, ArmFence, LoadPending, Activated, Writes, Lands;
  }

  lemma {:induction false} RunHistoryGrows(H: Hash, w: World, ops: seq<Op>)
    ensures w.history <= Exec(H, w, ops).history
    ensures Before(Now(w), Now(Exec(H, w, ops)))
    decreases ops
  {
    hide Apply;
    if ops != [] {
      HistoryGrows(H, w, ops[0]);
      RunHistoryGrows(H, Apply(H, w, ops[0]), ops[1..]);
    }
  }

  // ---- compaction ----

  /** A compaction, wherever its file operations stop, keeps counts and replay state, at this generation or the next. */
  lemma CompactPreserves(H: Hash, w: World, id: nat, io: ReplaceIo, unlinked: bool)
    requires Inv(H, w) && id in w.handles && w.log != None
    ensures var before := Scan(H, w.files.log);
      var after := Scan(H, AfterCompact(H, w, id, io, unlinked).files.log);
      && after.state != Corrupt && after.hasHead
      && after.sealed == before.sealed && after.events == before.events && after.replay == before.replay
      && after.base.uuid == before.base.uuid
      && (after.generation == before.generation || after.generation == Add64(before.generation, 1))
      && (StatusOf(H, w, DoCompact(id, io, unlinked)) == Ok ==> after.generation == Add64(before.generation, 1))
  {
    hide Scan, LoadPending, LogInv, FenceInv, PreparedInv, HeadRecord, Events, Replay, Holds;
    CompactKeepsLog(H, w, id, io, unlinked);
    ScanReportsHistory(H, w);
    ScanReportsHistory(H, AfterCompact(H, w, id, io, unlinked));
  }

  /** A store that opens again after any run finds the whole history, with nothing unsealed left behind it. */
  lemma ReopenFindsHistory(H: Hash, w: World, id: nat, uuid: Uuid, io: ReplaceIo)
    requires Inv(H, w) && id !in w.handles && StatusOf(H, w, DoOpen(id, uuid, io)) == Ok
    ensures var v := Apply(H, w, DoOpen(id, uuid, io));
      && v.history == w.history && id in v.handles && v.log != None
      && Scan(H, v.files.log).state == Clean
      && Scan(H, v.files.log).replay == Replay(H, ZeroDigest(), w.history)
      && v.handles[id].sealed == |w.history| % TWO_64
      && v.handles[id].events == Events(w.history) % TWO_64
      && v.handles[id].generation == v.compactions % TWO_64
      && v.handles[id].staged == []
  {
    hide Scan, LogInv, HeadRecord, Events, Replay, LogBytes;
    var v := Apply(H, w, DoOpen(id, uuid, io));
    OpenKeepsLog(H, w, id, uuid, io);
    if w.log == None {
      NoLogYet(H, w);
      assert w.files.log == [] by { NoLogNoBytes(H, w); }
      HeadIsLog(H, 0, FirstBase(uuid));
      LogScansClean(H, Log(0, FirstBase(uuid), []));
    } else {
      ScanReportsHistory(H, w);
      LogScansClean(H, w.log.value);
    }
    ScanReportsHistory(H, v);
  }

  lemma NoLogNoBytes(H: Hash, w: World)
    requires LogInv(H, w) && w.log == None
    ensures w.files.log == []
  {}

  /** A base this store prepared activates only if nothing was committed and nothing compacted since. */
  lemma StaleBaseNeverActivates(H: Hash, w: World, id: nat, io: ReplaceIo, unlinked: bool)
    requires Inv(H, w) && id in w.handles && w.preparedAt != None
    requires |w.history| < TWO_64 && w.compactions < TWO_64
    requires w.preparedAt != Some(Now(w))
    ensures AfterCompact(H, w, id, io, unlinked).files == w.files
    ensures AfterCompact(H, w, id, io, unlinked).log == w.log
    ensures StatusOf(H, w, DoCompact(id, io, unlinked)) in {Stale, Corrupted}
  {
    hide Scan, LoadPending, Inv, Activates, Add64, HeadRecord;
    StaleBaseFails(H, w);
  }

  lemma StaleBaseFails(H: Hash, w: World)
    requires Inv(H, w) && w.preparedAt != None
    requires |w.history| < TWO_64 && w.compactions < TWO_64
    requires w.preparedAt != Some(Now(w))
    ensures !Activated(H, w.files)
  {
    hide Scan, LoadPending, LogInv, FenceInv, Events, Replay, LogBytes;
    if Activated(H, w.files) {
      HeadMeansLog(H, w);
      ScanReportsHistory(H, w);
      SamePoint(w.preparedAt.value, Now(w), LoadPending(H, w.files.pending));
    }
  }

  lemma SamePoint(p: Point, now: Point, b: Pending)
    requires Before(p, now) && now.sealed < TWO_64 && now.compactions < TWO_64 && b.Prepared?
    requires b.target == (p.compactions + 1) % TWO_64 == Add64(now.compactions % TWO_64, 1)
    requires b.base.sealed == p.sealed % TWO_64 == now.sealed % TWO_64
    ensures p == now
  {
    SmallMod(p.sealed, now.sealed);
    SmallMod(p.compactions, now.compactions);
  }

  lemma SmallMod(a: nat, b: nat)
    requires a <= b < TWO_64
    ensures a % TWO_64 == b % TWO_64 <==> a == b
    ensures (a + 1) % TWO_64 == (b + 1) % TWO_64 <==> a == b
  {}

  /** A prepared base that has been activated is spent: left behind, it cannot activate again. */
  lemma SpentBaseNeverActivates(H: Hash, w: World, id: nat, io: ReplaceIo, unlinked: bool)
    requires Inv(H, w) && id in w.handles && w.preparedAt != None && w.compactions + 1 < TWO_64
    requires Activated(H, w.files) && io != BeforeRename
    ensures var v := AfterCompact(H, w, id, io, unlinked);
      v.preparedAt == None || (v.preparedAt == w.preparedAt && v.preparedAt != Some(Now(v)))
  {
    hide Scan, LogInv, LoadPending, Activates;
  }

  // ---- renames undone ----

  /** The world a power cut leaves that brings the log of w back; what else the operation wrote stays. */
  function Undone(w: World, v: World): World {
    World(Files(w.files.log, v.files.pending), map[], w.log, w.history, w.compactions, map[], w.preparedAt)
  }

  predicate StopsBehindRename(w: World, op: Op) {
    || (op.DoOpen? && op.id !in w.handles && op.openIo == AfterRename)
    || (op.DoCompact? && op.id in w.handles && op.compactIo == AfterRename)
  }

  /**
   * An operation that renamed a new log into place and never synced the directory may be undone by a power cut.
   * Nobody was told it had succeeded, no transaction is lost, and what the cut leaves is as good as what was
   * there before: it opens with the whole history, and a base that could be activated still can.
   */
  lemma UndoneRename(H: Hash, w: World, op: Op)
    requires Inv(H, w) && StopsBehindRename(w, op)
    ensures var v := Apply(H, w, op);
      && (v.files.log != w.files.log ==> StatusOf(H, w, op) == Io)
      && v.history == w.history
      && Inv(H, Undone(w, v))
      && (Activated(H, Undone(w, v).files) <==> Activated(H, w.files))
  {
    hide Scan, LoadPending, LogInv, HeadRecord, Activates;
    SameLog(H, w, Undone(w, Apply(H, w, op)));
  }

  // ---- fences ----

  predicate IsArmed(w: World, id: nat) {
    id in w.handles && w.handles[id].fence != None
  }

  /** The operation told its caller that it committed, or compacted. */
  predicate Advances(H: Hash, w: World, op: Op) {
    (op.DoCommit? || op.DoCompact?) && StatusOf(H, w, op) == Ok
  }

  /** The operation arms this handle's fence, or re-arms it by committing. */
  predicate Arms(H: Hash, w: World, op: Op, id: nat) {
    (op.DoFence? || op.DoCommit?) && op.id == id && StatusOf(H, w, op) == Ok
  }

  lemma AdvancesMoves(H: Hash, w: World, op: Op)
    requires Inv(H, w) && Advances(H, w, op)
    ensures Now(Apply(H, w, op)) != Now(w)
  {
    hide Scan, LoadPending, LogInv, TxnBytes;
    if op.DoCommit? {
      CommitNeedsLog(H, w, op.id);
    }
  }

  /** A fenced commit that succeeds finds the store at the very point where its fence was armed. */
  lemma FencedCommitIsCurrent(H: Hash, w: World, id: nat, io: AppendIo)
    requires Inv(H, w) && IsArmed(w, id)
    requires |w.history| < TWO_64 && w.compactions < TWO_64
    requires StatusOf(H, w, DoCommit(id, io)) == Ok
    ensures id in w.armedAt && w.armedAt[id] == Now(w)
  {
    hide Scan, LogInv, PreparedInv, TxnBytes;
    HeadMeansLog(H, w);
    ScanReportsHistory(H, w);
    SmallMod(w.armedAt[id].sealed, |w.history|);
    SmallMod(w.armedAt[id].compactions, w.compactions);
  }

  lemma ArmingRecords(H: Hash, w: World, op: Op, id: nat)
    requires Inv(H, w) && Arms(H, w, op, id)
    ensures id in Apply(H, w, op).armedAt && Apply(H, w, op).armedAt[id] == Now(Apply(H, w, op))
  {
    hide Scan, LogInv, PreparedInv, TxnBytes;
  }

  lemma OnlyArmingRearms(H: Hash, w: World, op: Op, id: nat)
    requires !Arms(H, w, op, id)
    ensures id in Apply(H, w, op).armedAt ==> id in w.armedAt && Apply(H, w, op).armedAt[id] == w.armedAt[id]
  {
    hide Scan, Open, Snapshot, Compact, LoadPending, Activated;
  }

  /** No operation of the run arms this handle. */
  predicate NeverArms(H: Hash, w: World, ops: seq<Op>, id: nat)
    decreases ops
  {
    ops == [] || (!Arms(H, w, ops[0], id) && NeverArms(H, Apply(H, w, ops[0]), ops[1..], id))
  }

  /** No operation of the run is a successful commit or compaction. */
  predicate NeverAdvances(H: Hash, w: World, ops: seq<Op>)
    decreases ops
  {
    ops == [] || (!Advances(H, w, ops[0]) && NeverAdvances(H, Apply(H, w, ops[0]), ops[1..]))
  }

  lemma {:induction false} ArmedPointStays(H: Hash, w: World, ops: seq<Op>, id: nat)
    requires NeverArms(H, w, ops, id) && id in Exec(H, w, ops).armedAt
    ensures id in w.armedAt && Exec(H, w, ops).armedAt[id] == w.armedAt[id]
    decreases ops
  {
    hide Apply, Arms;
    if ops != [] {
      ArmedPointStays(H, Apply(H, w, ops[0]), ops[1..], id);
      OnlyArmingRearms(H, w, ops[0], id);
    }
  }

  lemma {:induction false} StandingStill(H: Hash, w: World, ops: seq<Op>)
    requires Inv(H, w) && AdmissibleRun(H, w, ops) && Now(Exec(H, w, ops)) == Now(w)
    ensures NeverAdvances(H, w, ops)
    decreases ops
  {
    hide Apply, Inv, Admissible, Advances;
    if ops != [] {
      var v := Apply(H, w, ops[0]);
      StepKeeps(H, w, ops[0]);
      HistoryGrows(H, w, ops[0]);
      RunHistoryGrows(H, v, ops[1..]);
      StandingStill(H, v, ops[1..]);
      if Advances(H, w, ops[0]) {
        AdvancesMoves(H, w, ops[0]);
      }
    }
  }

  /**
   * No lost updates: a handle is fenced or re-fenced by `arming`; if after the operations `between`, which do
   * not arm it again, it commits with its fence still armed, then none of them committed or compacted.
   */
  lemma {:induction false} FencedCommitLosesNothing(H: Hash, w: World, arming: Op, between: seq<Op>, id: nat,
      io: AppendIo)
    requires Inv(H, w) && AdmissibleRun(H, w, [arming] + between) && Arms(H, w, arming, id)
    requires NeverArms(H, Apply(H, w, arming), between, id)
    requires var v := Exec(H, w, [arming] + between);
      && IsArmed(v, id) && |v.history| < TWO_64 && v.compactions < TWO_64
      && StatusOf(H, v, DoCommit(id, io)) == Ok
    ensures NeverAdvances(H, Apply(H, w, arming), between)
  {
    hide Apply, Inv, Arms, NeverArms, NeverAdvances, StatusOf, Admissible;
    assert ([arming] + between)[1..] == between;
    var u := Apply(H, w, arming);
    StepKeeps(H, w, arming);
    RunKeeps(H, u, between);
    var v := Exec(H, u, between);
    FencedCommitIsCurrent(H, v, id, io);
    ArmedPointStays(H, u, between, id);
    ArmingRecords(H, w, arming, id);
    StandingStill(H, u, between);
  }

  /**
   * Of any writers fenced on one state at most one wins: once one has committed, no other commits under its old
   * fence.
   */
  lemma {:induction false} OneFencedWriterWins(H: Hash, w: World, a: nat, b: nat, first: AppendIo, between: seq<Op>,
      second: AppendIo)
    requires Inv(H, w) && IsArmed(w, b) && AdmissibleRun(H, w, [DoCommit(a, first)] + between)
    requires a != b && StatusOf(H, w, DoCommit(a, first)) == Ok
    requires NeverArms(H, Apply(H, w, DoCommit(a, first)), between, b)
    requires var v := Exec(H, w, [DoCommit(a, first)] + between);
      && IsArmed(v, b) && |v.history| < TWO_64 && v.compactions < TWO_64
    ensures StatusOf(H, Exec(H, w, [DoCommit(a, first)] + between), DoCommit(b, second)) != Ok
  {
    hide Apply, Inv, Arms, NeverArms, StatusOf, Admissible;
    var op := DoCommit(a, first);
    assert ([op] + between)[1..] == between;
    var u := Apply(H, w, op);
    StepKeeps(H, w, op);
    RunKeeps(H, u, between);
    var v := Exec(H, u, between);
    if StatusOf(H, v, DoCommit(b, second)) == Ok {
      FencedCommitIsCurrent(H, v, b, second);
      ArmedPointStays(H, u, between, b);
      CommitArmsItself(H, w, op, b);
      OnlyArmingRearms(H, w, op, b);
      ArmedInThePast(H, w, b);
      HistoryGrows(H, w, op);
      CommitMoves(H, w, a, first);
      RunHistoryGrows(H, u, between);
    }
  }

  lemma CommitArmsItself(H: Hash, w: World, op: Op, b: nat)
    requires op.DoCommit? && op.id != b
    ensures !Arms(H, w, op, b)
  {}

  lemma CommitMoves(H: Hash, w: World, a: nat, io: AppendIo)
    requires Inv(H, w) && StatusOf(H, w, DoCommit(a, io)) == Ok
    ensures Now(Apply(H, w, DoCommit(a, io))) != Now(w)
  {
    AdvancesMoves(H, w, DoCommit(a, io));
  }

  lemma ArmedInThePast(H: Hash, w: World, b: nat)
    requires Inv(H, w) && IsArmed(w, b)
    ensures b in w.armedAt && Before(w.armedAt[b], Now(w))
  {}
}
