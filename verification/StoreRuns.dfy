/**
 * Whole runs of the store: any number of handles interleaving open, stage, commit, snapshot,
 * compact, fence and close, with crashes and failing writes anywhere, and anything at all planted
 * as a prepared base. The world carries, beside the real files and handles, the abstract history
 * the theorems speak of.
 */
module StoreRuns {
  import opened Bytes
  import opened Options
  import opened StoreFormat
  import opened StoreScan
  import opened StoreRefine
  import opened StoreRecovery
  import opened StoreOps

  /** A point of a run: transactions sealed so far, and compactions so far. */
  datatype Point = Point(sealed: nat, compactions: nat)

  datatype World = World(
    files: Files, handles: map<nat, Handle>,
    log: Option<Log>, history: seq<Txn>, compactions: nat,
    armedAt: map<nat, Point>, preparedAt: Option<Point>)

  datatype Op =
    | DoOpen(id: nat, uuid: Uuid, openIo: ReplaceIo)
    | DoClose(id: nat)
    | DoStage(id: nat, payload: Payload)
    | DoRollback(id: nat)
    | DoCommit(id: nat, appendIo: AppendIo)
    | DoSnapshot(id: nat, snapIo: ReplaceIo)
    | DoCompact(id: nat, compactIo: ReplaceIo, unlinked: bool)
    | DoFence(id: nat, expected: U64)
    | Plant(base: Option<seq<Byte>>)
    | Crash

  function Now(w: World): Point {
    Point(|w.history|, w.compactions)
  }

  /** The commit passes every check and starts to write. */
  predicate Writes(H: Hash, f: Files, h: Handle) {
    var scan := Scan(H, f.log);
    && h.staged != [] && scan.state != Corrupt && scan.hasHead
    && scan.generation == h.generation && Armed(h, scan)
  }

  /** The whole transaction reached the file, whatever the commit reported. */
  predicate Lands(H: Hash, f: Files, h: Handle, io: AppendIo)
    requires h.staged != []
  {
    io.AppendDone? || io.landed >= |CommitBytes(H, Scan(H, f.log), h.staged)|
  }

  /** One operation; an unknown handle changes nothing. */
  function Apply(H: Hash, w: World, op: Op): World {
    match op
    case DoOpen(id, uuid, io) => if id in w.handles then w else AfterOpen(H, w, id, uuid, io)
    case DoClose(id) => w.(handles := w.handles - {id}, armedAt := w.armedAt - {id})
    case DoStage(id, p) => if id in w.handles then WithHandle(w, id, Staged(w.handles[id], p)) else w
    case DoRollback(id) => if id in w.handles then WithHandle(w, id, w.handles[id].(staged := [])) else w
    case DoCommit(id, io) => if id in w.handles then AfterCommit(H, w, id, io) else w
    case DoSnapshot(id, io) => if id in w.handles then AfterSnapshot(H, w, id, io) else w
    case DoCompact(id, io, unlinked) => if id in w.handles then AfterCompact(H, w, id, io, unlinked) else w
    case DoFence(id, n) => if id in w.handles then AfterFence(H, w, id, n) else w
    case Plant(base) => w.(files := w.files.(pending := base), preparedAt := None)
    case Crash => w.(handles := map[], armedAt := map[])
  }

  function WithHandle(w: World, id: nat, h: Handle): World {
    w.(handles := w.handles[id := h])
  }

  function Staged(h: Handle, p: Payload): Handle {
    h.(staged := h.staged + [p])
  }

  function AfterOpen(H: Hash, w: World, id: nat, uuid: Uuid, io: ReplaceIo): World {
    var o := Open(H, w.files, uuid, io);
    var created := w.log == None && o.files.log != w.files.log;
    w.(files := o.files,
       handles := if o.handle == None then w.handles else w.handles[id := o.handle.value],
       log := if created then Some(Log(0, FirstBase(uuid), [])) else w.log)
  }

  function AfterCommit(H: Hash, w: World, id: nat, io: AppendIo): World
    requires id in w.handles
  {
    var h := w.handles[id];
    var o := Commit(H, w.files, h, io);
    var landed := Writes(H, w.files, h) && Lands(H, w.files, h, io) && w.log != None;
    var history := if landed then w.history + [h.staged] else w.history;
    w.(files := o.files, handles := w.handles[id := o.handle],
       log := if landed then Some(Extended(w.log.value, h.staged)) else w.log,
       history := history,
       armedAt := if o.status == Ok then w.armedAt[id := Point(|history|, w.compactions)] else w.armedAt)
  }

  function AfterSnapshot(H: Hash, w: World, id: nat, io: ReplaceIo): World
    requires id in w.handles
  {
    var o := Snapshot(H, w.files, w.handles[id], io);
    w.(files := o.files,
       preparedAt := if o.status == Corrupted || io == BeforeRename then w.preparedAt else Some(Now(w)))
  }

  function AfterCompact(H: Hash, w: World, id: nat, io: ReplaceIo, unlinked: bool): World
    requires id in w.handles
  {
    var o := Compact(H, w.files, w.handles[id], io, unlinked);
    var p := LoadPending(H, w.files.pending);
    var activated := p.Prepared? && Activated(H, w.files) && io != BeforeRename;
    w.(files := o.files, handles := w.handles[id := o.handle],
       log := if activated then Some(Log(p.target, p.base, [])) else w.log,
       compactions := if activated then w.compactions + 1 else w.compactions,
       preparedAt := if o.files.pending == None then None else w.preparedAt)
  }

  /** A compaction passes every check. */
  predicate Activated(H: Hash, f: Files) {
    var scan := Scan(H, f.log);
    scan.state != Corrupt && scan.hasHead && Activates(LoadPending(H, f.pending), scan)
  }

  function AfterFence(H: Hash, w: World, id: nat, n: U64): World
    requires id in w.handles
  {
    var o := ArmFence(H, w.files, w.handles[id], n);
    w.(handles := w.handles[id := o.handle],
       armedAt := if o.status == Ok then w.armedAt[id := Now(w)] else w.armedAt)
  }

  /** What the caller of an operation is told. */
  function StatusOf(H: Hash, w: World, op: Op): Status {
    match op
    case DoOpen(id, uuid, io) => Open(H, w.files, uuid, io).status
    case DoCommit(id, io) => if id in w.handles then Commit(H, w.files, w.handles[id], io).status else Stale
    case DoSnapshot(id, io) => if id in w.handles then Snapshot(H, w.files, w.handles[id], io).status else Stale
    case DoCompact(id, io, u) => if id in w.handles then Compact(H, w.files, w.handles[id], io, u).status else Stale
    case DoFence(id, n) => if id in w.handles then ArmFence(H, w.files, w.handles[id], n).status else Stale
    case _ => Ok
  }

  function Exec(H: Hash, w: World, ops: seq<Op>): World
    decreases ops
  {
    if ops == [] then w else Exec(H, Apply(H, w, ops[0]), ops[1..])
  }

  function Empty(): World {
    World(Files([], None), map[], None, [], 0, map[], None)
  }

  // ---- what a log stands for ----

  /** The file is this log, followed at most by an unsealed or torn tail. */
  ghost predicate Holds(H: Hash, file: seq<Byte>, l: Log) {
    exists r: Rest :: Recoverable(H, r) && file == LogBytes(H, l) + RestBytes(H, r, SealedEvents(l))
  }

  /** The log's base and transactions together are this history, folded from zero. */
  predicate Covers(H: Hash, l: Log, history: seq<Txn>) {
    && |l.txns| <= |history|
    && var cut := |history| - |l.txns|;
    && l.txns == history[cut..]
    && l.base.sealed == cut % TWO_64
    && l.base.events == Events(history[..cut]) % TWO_64
    && l.base.state == Replay(H, ZeroDigest(), history[..cut])
  }

  lemma ScanOfHeld(H: Hash, file: seq<Byte>, l: Log)
    requires Holds(H, file, l)
    ensures Scan(H, file) == Found(H, l, Clean) || Scan(H, file) == Found(H, l, Tail)
    ensures Scan(H, file).state == Clean ==> file == LogBytes(H, l)
    ensures Scan(H, file).validBytes <= |file| && file[..Scan(H, file).validBytes] == LogBytes(H, l)
  {
    hide LogBytes, Recoverable, RestBytes, Scan;
    var r: Rest :| Recoverable(H, r) && file == LogBytes(H, l) + RestBytes(H, r, SealedEvents(l));
    RestScans(H, l, r);
    RestIsEmpty(H, SealedEvents(l));
    assert file[..|LogBytes(H, l)|] == LogBytes(H, l);
  }

  lemma LogHoldsItself(H: Hash, l: Log)
    ensures Holds(H, LogBytes(H, l), l)
  {
    hide LogBytes;
    var r := Rest([], []);
    RestIsEmpty(H, SealedEvents(l));
    assert Recoverable(H, r) && LogBytes(H, l) == LogBytes(H, l) + RestBytes(H, r, SealedEvents(l));
  }

  lemma {:induction false} EventsConcat(a: seq<Txn>, b: seq<Txn>)
    ensures Events(a + b) == Events(a) + Events(b)
    decreases a
  {
    if a == [] {
      assert a + b == b;
    } else {
      EventsConcat(a[1..], b);
      assert (a + b)[1..] == a[1..] + b;
    }
  }

  lemma {:induction false} ReplayConcat(H: Hash, chain: Digest, a: seq<Txn>, b: seq<Txn>)
    ensures Replay(H, chain, a + b) == Replay(H, Replay(H, chain, a), b)
    decreases a
  {
    hide FoldTxn;
    if a == [] {
      assert a + b == b;
    } else {
      ReplayConcat(H, FoldTxn(H, chain, a[0]), a[1..], b);
      assert (a + b)[1..] == a[1..] + b;
    }
  }

  lemma ModAdd(a: nat, n: nat)
    ensures Add64(a % TWO_64, n) == (a + n) % TWO_64
  {}

  /** A covering log's scan reports the whole history: counts, and the fold from zero. */
  lemma {:induction false} CoveredCounts(H: Hash, l: Log, history: seq<Txn>)
    requires Covers(H, l, history)
    ensures SealedCount(l) == |history| % TWO_64
    ensures SealedEvents(l) == Events(history) % TWO_64
    ensures Replay(H, l.base.state, l.txns) == Replay(H, ZeroDigest(), history)
  {
    hide Replay, Events, Add64;
    var cut := |history| - |l.txns|;
    assert history == history[..cut] + history[cut..];
    ModAdd(cut, |l.txns|);
    ModAdd(Events(history[..cut]), Events(l.txns));
    EventsConcat(history[..cut], history[cut..]);
    ReplayConcat(H, ZeroDigest(), history[..cut], history[cut..]);
  }

  lemma CoversExtends(H: Hash, l: Log, history: seq<Txn>, t: Txn)
    requires Covers(H, l, history)
    ensures Covers(H, Extended(l, t), history + [t])
  {
    var cut := |history| - |l.txns|;
    assert (history + [t])[..cut] == history[..cut];
    assert (history + [t])[cut..] == history[cut..] + [t];
  }

  /** A base with the counts and state of the whole history covers it with no transactions of its own. */
  lemma {:induction false} CoversCompacted(H: Hash, generation: U64, b: Base, history: seq<Txn>)
    requires b.sealed == |history| % TWO_64 && b.events == Events(history) % TWO_64
    requires b.state == Replay(H, ZeroDigest(), history)
    ensures Covers(H, Log(generation, b, []), history)
  {
    assert history[..|history|] == history;
  }
}
