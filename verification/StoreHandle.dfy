/**
 * The store handle as the program has it: an object whose methods read and rewrite the files and
 * its own fields, step by step. Each method computes exactly what the operation is specified to do.
 */
module StoreHandle {
  import opened Bytes
  import opened Options
  import opened StoreFormat
  import opened StoreScan
  import opened StoreRefine
  import opened StoreOps
  import opened StoreDisk

  lemma {:induction false} DataRecordsAppend(H: Hash, ps: seq<Payload>, p: Payload, events: U64)
    ensures DataRecords(H, ps + [p], events) == DataRecords(H, ps, events) + DataRecord(H, p, Add64(events, |ps| + 1))
    decreases ps
  {
    hide DataRecord, Add64;
    if ps == [] {
      assert ps + [p] == [p];
      assert DataRecords(H, [], Add64(events, 1)) == [];
    } else {
      DataRecordsAppend(H, ps[1..], p, Add64(events, 1));
      assert (ps + [p])[1..] == ps[1..] + [p];
      AddAdd(events, 1, |ps|);
    }
  }

  class Store {
    const disk: Disk
    var uuid: Uuid
    var generation: U64
    var base: Base
    var sealed: U64
    var events: U64
    var validBytes: int
    var fence: Option<Fence>
    var staged: seq<Payload>

    /** The handle's fields as one value. */
    function View(): Handle
      reads this
    {
      Handle(uuid, generation, base, sealed, events, validBytes, fence, staged)
    }

    constructor (disk: Disk, scan: ScanResult)
      ensures this.disk == disk && View() == Adopt(scan, [])
    {
      this.disk := disk;
      uuid, generation, base := scan.base.uuid, scan.generation, scan.base;
      sealed, events, validBytes := scan.sealed, scan.events, scan.validBytes;
      fence, staged := None, [];
    }

    /**
     * Opens a store: creates the first generation, or cuts an unsealed tail off; refuses a corrupt log untouched.
     * A temporary file an earlier process left behind has no influence. What opening wrote is durable.
     */
    static method OpenStore(H: Hash, disk: Disk, newUuid: Uuid, create: PublishIo, cut: TruncateIo)
      returns (status: Status, store: Store?, recovered: bool)
      modifies disk
      ensures var f := old(disk.Contents());
        var o := Open(H, f, newUuid, if Scan(H, f.log).hasHead then ReachCut(cut) else Reach(create));
        && disk.Contents() == o.files && status == o.status && recovered == o.recovered
        && (store != null) == o.handle.Some?
        && (store != null ==> fresh(store) && store.disk == disk && store.View() == o.handle.value)
      ensures forall b :: disk.MayBecome(b) ==> old(disk.MayBecome(b)) || b == disk.log.bytes
      ensures status == Ok && disk.log.bytes != old(disk.log.bytes) ==> disk.Settled()
    {
      hide Scan, HeadRecord, Survives;
      var scan := ScanLog(H, disk.log.bytes);
      if scan.state == Corrupt {
        return Corrupted, null, false;
      }
      recovered := false;
      if !scan.hasHead {
        var record := HeadRecord(H, 0, FirstBase(newUuid));
        var done := disk.PublishLog(record, create);
        if !done {
          return Io, null, false;
        }
        FirstHeadScans(H, newUuid);
        HeadlessIsClean(H, old(disk.log.bytes));
        scan := ScanLog(H, disk.log.bytes);
      }
      if scan.state == Tail {
        ValidBytesInFile(H, disk.log.bytes);
        var done := disk.Truncate(scan.validBytes, cut);
        if !done {
          return Io, null, false;
        }
        recovered := true;
      }
      store := new Store(disk, scan);
      status := Ok;
    }

    method Stage(payload: seq<Byte>) returns (ok: bool)
      modifies this`staged
      ensures ok == (|payload| <= MAX_RECORD)
      ensures View() == old(View()).(staged := if ok then old(staged) + [payload] else old(staged))
    {
      if |payload| > MAX_RECORD {
        return false;
      }
      staged := staged + [payload];
      ok := true;
    }

    method Rollback()
      modifies this`staged
      ensures View() == old(View()).(staged := [])
    {
      staged := [];
    }

    /** Everything the commit writes, one record after another, the seal last. */
    method WriteRecords(H: Hash) returns (buffer: seq<Byte>)
      requires staged != []
      ensures buffer == TxnBytes(H, staged, events, sealed)
    {
      hide DataRecord;
      buffer := [];
      var sealCtx: seq<Byte> := [];
      var i := 0;
      while i < |staged|
        invariant 0 <= i <= |staged|
        invariant buffer == DataRecords(H, staged[..i], events)
        invariant sealCtx == Digests(H, staged[..i])
      {
        var payload := staged[i];
        sealCtx := sealCtx + H(payload);
        buffer := buffer + DataRecord(H, payload, Add64(events, i + 1));
        DataRecordsAppend(H, staged[..i], payload, events);
        DigestsAppend(H, staged[..i], payload);
        assert staged[..i + 1] == staged[..i] + [payload];
        i := i + 1;
      }
      assert staged[..i] == staged;
      buffer := buffer + Header(H, SEAL, Add64(sealed, 1), 0, H(sealCtx));
    }

    /**
     * Appends the staged transaction if the log is still the one this handle, and its fence, knew. A commit that
     * reports success is durable; one that does not leaves, even after a power cut, a prefix of what it appended.
     */
    method CommitStaged(H: Hash, io: AppendIo) returns (status: Status)
      modifies this, disk`log, disk`replaced
      ensures Outcome(disk.Contents(), View(), status) == Commit(H, old(disk.Contents()), old(View()), io)
      ensures status == Ok ==> disk.Settled()
      ensures status != Ok ==>
        disk.replaced == old(disk.replaced) && disk.log == old(disk.log).(bytes := disk.log.bytes)
    {
      hide Scan, TxnBytes;
      if staged == [] {
        return Stale;
      }
      var now := ScanLog(H, disk.log.bytes);
      if now.state == Corrupt || !now.hasHead {
        return Corrupted;
      }
      if now.generation != generation {
        fence := None;
        return Stale;
      }
      if fence.Some? && fence.value != Fence(now.generation, now.sealed, now.replay) {
        fence := None;
        return Stale;
      }
      sealed, events, validBytes := now.sealed, now.events, now.validBytes;
      var buffer := WriteRecords(H);
      if io.AppendCut? {
        disk.Append(buffer[..if io.landed < |buffer| then io.landed else |buffer|]);
        return Io;
      }
      disk.Append(buffer);
      disk.SyncLog();
      disk.SyncDirectory();
      events := Add64(events, |staged|);
      sealed := Add64(sealed, 1);
      if fence.Some? {
        now := ScanLog(H, disk.log.bytes);
        fence :=
          if now.state != Corrupt && now.hasHead then Some(Fence(now.generation, now.sealed, now.replay)) else None;
      }
      validBytes := -1;
      Rollback();
      status := Ok;
    }

    /** Prepares a base for the next generation, covering the whole sealed prefix. */
    method PrepareBase(H: Hash, io: PublishIo) returns (status: Status)
      modifies disk`pending, disk`pendingNext, disk`replaced
      ensures Outcome(disk.Contents(), View(), status) == Snapshot(H, old(disk.Contents()), old(View()), Reach(io))
    {
      hide Scan, PendingBytes;
      var scan := ScanLog(H, disk.log.bytes);
      if scan.state == Corrupt || !scan.hasHead {
        return Corrupted;
      }
      var anchor := H(Body(scan.base));
      var next := Base(scan.base.uuid, scan.sealed, scan.events, scan.replay, anchor);
      var done := disk.PublishPending(PendingBytes(H, Add64(scan.generation, 1), next), io);
      status := if done then Ok else Io;
    }

    /** Reads the prepared base back: absent, malformed, or a target generation and a base. */
    method ReadPending(H: Hash) returns (p: Pending)
      ensures p == LoadPending(H, disk.pending)
    {
      if disk.pending.None? {
        return NoPending;
      }
      var buffer := disk.pending.value;
      if |buffer| != PEND_SIZE {
        return BadPending;
      }
      if H(buffer[..PEND_BODY]) != buffer[PEND_BODY..] {
        return BadPending;
      }
      Widths();
      p := Prepared(FromLE(buffer[..8]), ParseBody(buffer[8..PEND_BODY]));
    }

    /** Replaces the log by the prepared base if that base is this store's, the next generation, and complete. */
    method ActivateBase(H: Hash, io: PublishIo, unlinked: bool) returns (status: Status)
      modifies this, disk
      ensures Outcome(disk.Contents(), View(), status)
           == Compact(H, old(disk.Contents()), old(View()), Reach(io), unlinked)
      ensures forall b :: disk.MayBecome(b) ==> old(disk.MayBecome(b)) || b == disk.log.bytes
      ensures status == Ok ==> disk.Settled()
    {
      hide Scan, LoadPending, HeadRecord, Survives, Disk.MayBecome;
      var p := ReadPending(H);
      if p.BadPending? {
        return Corrupted;
      }
      if p.NoPending? {
        return Stale;
      }
      var scan := ScanLog(H, disk.log.bytes);
      if scan.state == Corrupt || !scan.hasHead {
        return Corrupted;
      }
      if p.base.uuid != scan.base.uuid {
        return Corrupted;
      }
      if p.target != Add64(scan.generation, 1) {
        return Stale;
      }
      if p.base.sealed != scan.sealed || p.base.events != scan.events || p.base.state != scan.replay {
        return Stale;
      }
      var done := disk.PublishLog(HeadRecord(H, p.target, p.base), io);
      if !done {
        return Io;
      }
      if unlinked {
        disk.pending := None;
      }
      generation := p.target;
      base := Base(base.uuid, scan.sealed, scan.events, scan.replay, p.base.anchor);
      sealed, events, validBytes := scan.sealed, scan.events, HEAD_SIZE;
      fence := None;
      status := Ok;
    }

    /** Arms the compare-and-set token if the caller's view of the sealed count is current. */
    method Arm(H: Hash, expected: U64) returns (status: Status)
      modifies this`fence
      ensures Outcome(disk.Contents(), View(), status) == ArmFence(H, old(disk.Contents()), old(View()), expected)
    {
      hide Scan;
      var scan := ScanLog(H, disk.log.bytes);
      if scan.state == Corrupt || !scan.hasHead {
        return Corrupted;
      }
      if scan.sealed != expected {
        fence := None;
        return Stale;
      }
      fence := Some(Fence(scan.generation, scan.sealed, scan.replay));
      status := Ok;
    }
  }

  /** A first generation is a whole, clean log. */
  lemma FirstHeadScans(H: Hash, uuid: Uuid)
    ensures Scan(H, HeadRecord(H, 0, FirstBase(uuid))).hasHead
    ensures Scan(H, HeadRecord(H, 0, FirstBase(uuid))).state == Clean
  {
    var b := FirstBase(uuid);
    var l := Log(0, b, []);
    assert HeadRecord(H, 0, b) + [] == HeadRecord(H, 0, b);
    LogScansClean(H, l);
  }

  lemma HeadlessIsClean(H: Hash, file: seq<Byte>)
    requires Scan(H, file).state != Corrupt && !Scan(H, file).hasHead
    ensures Scan(H, file).state == Clean
  {}
}
