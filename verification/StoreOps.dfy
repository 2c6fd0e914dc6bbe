/**
 * What each store operation does to the files and to its handle, as functions: open with recovery,
 * stage, commit, snapshot, compact and fence. Every operation runs in one critical section, so its
 * effect is a function of the files it finds. How far the file system got is an input (`io`).
 */
module StoreOps {
  import opened Bytes
  import opened Options
  import opened StoreFormat
  import opened StoreScan

  datatype Status = Ok | Io | Corrupted | Stale

  /** The compare-and-set token: generation, sealed count and replay state together. */
  datatype Fence = Fence(generation: U64, seal: U64, state: Digest)

  datatype Handle = Handle(
    uuid: Uuid, generation: U64, base: Base, sealed: U64, events: U64, validBytes: int,
    fence: Option<Fence>, staged: seq<Payload>)

  /** The log (empty when there is none) and the prepared base. */
  datatype Files = Files(log: seq<Byte>, pending: Option<seq<Byte>>)

  /** How far an append got: everything with every sync, or only some bytes. */
  datatype AppendIo = AppendDone | AppendCut(landed: nat)

  /** How far an atomic replacement got: all of it, stopped before the rename, or renamed and then failed. */
  datatype ReplaceIo = ReplaceDone | BeforeRename | AfterRename

  /** A replacement's effect: what the file holds afterwards, and whether it was reported as done. */
  function Replaced<T>(before: T, next: T, io: ReplaceIo): (T, bool) {
    match io
    case ReplaceDone => (next, true)
    case BeforeRename => (before, false)
    case AfterRename => (next, false)
  }

  function Adopt(scan: ScanResult, staged: seq<Payload>): Handle {
    Handle(scan.base.uuid, scan.generation, scan.base, scan.sealed, scan.events, scan.validBytes, None, staged)
  }

  // ---- open ----

  function FirstBase(uuid: Uuid): Base {
    Base(uuid, 0, 0, ZeroDigest(), ZeroDigest())
  }

  /** Creates the first generation or cuts a tail; the log afterwards and whether that went through. */
  function Recovered(H: Hash, log: seq<Byte>, uuid: Uuid, io: ReplaceIo): (seq<Byte>, bool) {
    var scan := Scan(H, log);
    if !scan.hasHead then Replaced(log, HeadRecord(H, 0, FirstBase(uuid)), io)
    else if scan.state == Tail then
      ValidBytesInFile(H, log);
      Replaced(log, log[..scan.validBytes], io)
    else (log, true)
  }

  datatype Opened = Opened(files: Files, status: Status, handle: Option<Handle>, recovered: bool)

  function Open(H: Hash, f: Files, uuid: Uuid, io: ReplaceIo): Opened {
    var scan := Scan(H, f.log);
    if scan.state == Corrupt then Opened(f, Corrupted, None, false)
    else
      var (log, done) := Recovered(H, f.log, uuid, io);
      if !done then Opened(f.(log := log), Io, None, false)
      else
        var found := if scan.hasHead then scan else Scan(H, log);
        Opened(f.(log := log), Ok, Some(Adopt(found, [])), scan.state == Tail)
  }

  // ---- commit ----

  function FenceOf(scan: ScanResult): Fence {
    Fence(scan.generation, scan.sealed, scan.replay)
  }

  function Armed(h: Handle, scan: ScanResult): bool {
    h.fence == None || h.fence == Some(FenceOf(scan))
  }

  datatype Outcome = Outcome(files: Files, handle: Handle, status: Status)

  function CommitBytes(H: Hash, scan: ScanResult, t: Txn): seq<Byte> {
    TxnBytes(H, t, scan.events, scan.sealed)
  }

  function Commit(H: Hash, f: Files, h: Handle, io: AppendIo): Outcome {
    var scan := Scan(H, f.log);
    if h.staged == [] then Outcome(f, h, Stale)
    else if scan.state == Corrupt || !scan.hasHead then Outcome(f, h, Corrupted)
    else if scan.generation != h.generation || !Armed(h, scan) then Outcome(f, h.(fence := None), Stale)
    else Append(H, f, h.(sealed := scan.sealed, events := scan.events, validBytes := scan.validBytes), io)
  }

  /** The write itself, from a handle that has adopted the position on disk. */
  function Append(H: Hash, f: Files, h: Handle, io: AppendIo): Outcome
    requires h.staged != []
  {
    var bytes := TxnBytes(H, h.staged, h.events, h.sealed);
    match io
    case AppendCut(landed) =>
      Outcome(f.(log := f.log + bytes[..if landed < |bytes| then landed else |bytes|]), h, Io)
    case AppendDone =>
      var log := f.log + bytes;
      Outcome(f.(log := log), Committed(H, h, log), Ok)
  }

  /** The handle after a commit: its counts advance, its stage is empty, and an armed fence follows the new state. */
  function Committed(H: Hash, h: Handle, log: seq<Byte>): Handle {
    var now := Scan(H, log);
    h.(sealed := Add64(h.sealed, 1), events := Add64(h.events, |h.staged|), validBytes := -1, staged := [],
       fence := if h.fence == None || now.state == Corrupt || !now.hasHead then None else Some(FenceOf(now)))
  }

  // ---- snapshot and compact ----

  const PEND_BODY: nat := 104
  const PEND_SIZE: nat := 136

  /** The base that would succeed what this scan found; its anchor commits to the head it replaces. */
  function NextBase(H: Hash, scan: ScanResult): Base {
    Base(scan.base.uuid, scan.sealed, scan.events, scan.replay, H(Body(scan.base)))
  }

  function PendingBytes(H: Hash, target: U64, b: Base): (r: seq<Byte>)
    ensures |r| == PEND_SIZE
  {
    var body := LE(target, 8) + Body(b);
    body + H(body)
  }

  datatype Pending = NoPending | BadPending | Prepared(target: U64, base: Base)

  function LoadPending(H: Hash, p: Option<seq<Byte>>): Pending {
    if p == None then NoPending
    else if |p.value| != PEND_SIZE || H(p.value[..PEND_BODY]) != p.value[PEND_BODY..] then BadPending
    else
      Widths();
      Prepared(FromLE(p.value[..8]), ParseBody(p.value[8..PEND_BODY]))
  }

  lemma LoadPrepared(H: Hash, target: U64, b: Base)
    ensures LoadPending(H, Some(PendingBytes(H, target, b))) == Prepared(target, b)
  {
    hide LE, FromLE;
    var body := LE(target, 8) + Body(b);
    var p := PendingBytes(H, target, b);
    assert p[..PEND_BODY] == body && p[PEND_BODY..] == H(body);
    assert p[..8] == LE(target, 8) && p[8..PEND_BODY] == Body(b);
    Widths();
    LERoundTrip(target, 8);
    ParseBodyOf(b);
  }

  function Snapshot(H: Hash, f: Files, h: Handle, io: ReplaceIo): Outcome {
    var scan := Scan(H, f.log);
    if scan.state == Corrupt || !scan.hasHead then Outcome(f, h, Corrupted)
    else
      var p := PendingBytes(H, Add64(scan.generation, 1), NextBase(H, scan));
      var (pending, done) := Replaced(f.pending, Some(p), io);
      Outcome(f.(pending := pending), h, if done then Ok else Io)
  }

  /** A prepared base may be activated: same store, the very next generation, the whole sealed prefix. */
  predicate Activates(p: Pending, scan: ScanResult) {
    && p.Prepared?
    && p.base.uuid == scan.base.uuid
    && p.target == Add64(scan.generation, 1)
    && p.base.sealed == scan.sealed && p.base.events == scan.events && p.base.state == scan.replay
  }

  function Compact(H: Hash, f: Files, h: Handle, io: ReplaceIo, unlinked: bool): Outcome {
    var p := LoadPending(H, f.pending);
    var scan := Scan(H, f.log);
    if p == BadPending then Outcome(f, h, Corrupted)
    else if p == NoPending then Outcome(f, h, Stale)
    else if scan.state == Corrupt || !scan.hasHead then Outcome(f, h, Corrupted)
    else if p.base.uuid != scan.base.uuid then Outcome(f, h, Corrupted)
    else if !Activates(p, scan) then Outcome(f, h, Stale)
    else
      var (log, done) := Replaced(f.log, HeadRecord(H, p.target, p.base), io);
      if !done then Outcome(f.(log := log), h, Io)
      else
        Outcome(Files(log, if unlinked then None else f.pending),
                h.(generation := p.target,
                   base := Base(h.base.uuid, scan.sealed, scan.events, scan.replay, p.base.anchor),
                   sealed := scan.sealed, events := scan.events, validBytes := HEAD_SIZE, fence := None),
                Ok)
  }

  // ---- fence ----

  function ArmFence(H: Hash, f: Files, h: Handle, expected: U64): Outcome {
    var scan := Scan(H, f.log);
    if scan.state == Corrupt || !scan.hasHead then Outcome(f, h, Corrupted)
    else if scan.sealed != expected then Outcome(f, h.(fence := None), Stale)
    else Outcome(f, h.(fence := Some(FenceOf(scan))), Ok)
  }
}
