/**
 * The directory of the store: what processes read, and what a power cut may leave of it. Bytes become
 * durable by syncing their file, names by syncing the directory; until then a power cut may keep only some
 * of the bytes, or bring an older file back under the log's name. Publishing replaces the log step by step,
 * and every place where it can stop is an input.
 */
module StoreDisk {
  import opened Bytes
  import opened Options
  import opened StoreFormat
  import opened StoreScan
  import opened StoreRefine
  import opened StoreRecovery
  import opened StoreOps

  /** Its bytes, how many of them are surely durable, and the file an unsynced truncation may bring back. */
  datatype File = File(bytes: seq<Byte>, kept: nat, longer: Option<File>)

  const NO_FILE: File := File([], 0, None)

  function Synced(bytes: seq<Byte>): File {
    File(bytes, |bytes|, None)
  }

  /**
   * What a power cut may leave of a file: any prefix that contains the durable bytes, or what it was before a
   * truncation.
   */
  predicate Survives(f: File, b: seq<Byte>) {
    (f.kept <= |b| && b <= f.bytes) || (f.longer.Some? && Survives(f.longer.value, b))
  }

  lemma SyncedSurvives(bytes: seq<Byte>, b: seq<Byte>)
    ensures Survives(Synced(bytes), b) <==> b == bytes
  {}

  /** Where publishing stops: a step fails, the process dies behind a step (or inside the write), or all is well. */
  datatype PublishIo =
    | PublishDone
    | OpenFails
    | DiesOpened
    | WriteFails
    | DiesWriting(landed: nat)
    | DiesWritten
    | SyncFails
    | DiesSynced
    | RenameFails
    | DiesRenamed
    | DirectoryFails

  /** How far the replacement got, as the operations see it. */
  function Reach(io: PublishIo): ReplaceIo {
    match io
    case PublishDone => ReplaceDone
    case DiesRenamed => AfterRename
    case DirectoryFails => AfterRename
    case _ => BeforeRename
  }

  datatype TruncateIo = TruncateDone | TruncateFails | DiesTruncated | CutSyncFails | CutDirectoryFails

  function ReachCut(io: TruncateIo): ReplaceIo {
    match io
    case TruncateDone => ReplaceDone
    case TruncateFails => BeforeRename
    case _ => AfterRename
  }

  class Disk {
    var log: File
    /** Files that a power cut may bring back under the log's name: its renames are not durable yet. */
    var replaced: set<File>
    var next: Option<File>
    var pending: Option<seq<Byte>>
    var pendingNext: Option<seq<Byte>>

    /** What the store's operations read: the log (empty when there is none) and the prepared base. */
    function Contents(): Files
      reads this
    {
      Files(log.bytes, pending)
    }

    /** The log reads b after some power cut. */
    predicate MayBecome(b: seq<Byte>)
      reads this`log, this`replaced
    {
      Survives(log, b) || exists f <- replaced :: Survives(f, b)
    }

    /** Everything the log says is durable. */
    predicate Settled()
      reads this`log, this`replaced
    {
      log == Synced(log.bytes) && replaced == {}
    }

    /** Then no power cut changes the log. */
    lemma SettledStays(b: seq<Byte>)
      requires Settled()
      ensures MayBecome(b) <==> b == log.bytes
    {
      SyncedSurvives(log.bytes, b);
    }

    // ---- the steps ----

    method SyncLog()
      modifies this`log
      ensures log == Synced(old(log.bytes))
    {
      log := Synced(log.bytes);
    }

    method SyncDirectory()
      modifies this`replaced
      ensures replaced == {}
    {
      replaced := {};
    }

    /** The temporary file: created empty, whatever was there; written; synced; removed. */
    method OpenNext()
      modifies this`next
      ensures next == Some(NO_FILE)
    {
      next := Some(NO_FILE);
    }

    method WriteNext(bytes: seq<Byte>)
      requires next.Some?
      modifies this`next
      ensures next == Some(old(next.value).(bytes := old(next.value.bytes) + bytes))
    {
      next := Some(next.value.(bytes := next.value.bytes + bytes));
    }

    method SyncNext()
      requires next.Some?
      modifies this`next
      ensures next == Some(Synced(old(next.value.bytes)))
    {
      next := Some(Synced(next.value.bytes));
    }

    method UnlinkNext()
      modifies this`next
      ensures next == None
    {
      next := None;
    }

    /** The temporary file gets the log's name; until the directory is synced a power cut may give the name back. */
    method RenameNext()
      requires next.Some?
      modifies this`log, this`replaced, this`next
      ensures log == old(next.value) && next == None && replaced == old(replaced) + {old(log)}
    {
      replaced := replaced + {log};
      log := next.value;
      next := None;
    }

    /** An append is read at once; no byte of it is durable before a sync. */
    method Append(bytes: seq<Byte>)
      modifies this`log
      ensures log == old(log).(bytes := old(log.bytes) + bytes)
    {
      log := log.(bytes := log.bytes + bytes);
    }

    /**
     * Replaces the log by way of a temporary file: opened, written, synced, renamed over the log, directory
     * synced. Wherever this stops, processes read the old log or the new one, and a power cut adds no third;
     * it reports success only when no power cut can bring the old one back. What an earlier attempt left in
     * the temporary file is overwritten.
     */
    method PublishLog(bytes: seq<Byte>, io: PublishIo) returns (done: bool)
      modifies this`log, this`replaced, this`next
      ensures (log.bytes, done) == Replaced(old(log.bytes), bytes, Reach(io))
      ensures forall b :: MayBecome(b) ==> old(MayBecome(b)) || b == log.bytes
      ensures done ==> Settled() && next == None
      ensures Reach(io) == BeforeRename ==> log == old(log) && replaced == old(replaced)
      ensures Reach(io) == AfterRename ==> log == Synced(bytes) && replaced == old(replaced) + {old(log)}
      ensures io == OpenFails || next == None || next.value.bytes <= bytes
    {
      hide Survives;
      SyncedSurvivesAll(bytes);
      assert [] + bytes == bytes;
      if io == OpenFails {
        return false;
      }
      OpenNext();
      if io == DiesOpened {
        return false;
      }
      if io == WriteFails {
        UnlinkNext();
        return false;
      }
      if io.DiesWriting? {
        WriteNext(bytes[..if io.landed < |bytes| then io.landed else |bytes|]);
        return false;
      }
      WriteNext(bytes);
      if io == DiesWritten {
        return false;
      }
      if io == SyncFails {
        UnlinkNext();
        return false;
      }
      SyncNext();
      if io == DiesSynced {
        return false;
      }
      if io == RenameFails {
        UnlinkNext();
        return false;
      }
      RenameNext();
      if io == DiesRenamed || io == DirectoryFails {
        return false;
      }
      SyncDirectory();
      done := true;
    }

    /**
     * The same steps without the sync of the temporary file, to show what that sync is for: though every other step
     * succeeds and the directory is synced, a power cut may leave any prefix of the new log, and nothing else.
     */
    method PublishUnsynced(bytes: seq<Byte>)
      modifies this`log, this`replaced, this`next
      ensures log.bytes == bytes && replaced == {} && next == None
      ensures forall b :: MayBecome(b) <==> b <= bytes
    {
      OpenNext();
      WriteNext(bytes);
      assert [] + bytes == bytes;
      RenameNext();
      SyncDirectory();
    }

    /** Cuts an unsealed tail off: truncated, log synced, directory synced. */
    method Truncate(n: nat, io: TruncateIo) returns (done: bool)
      requires n <= |log.bytes|
      modifies this`log, this`replaced
      ensures (log.bytes, done) == Replaced(old(log.bytes), old(log.bytes)[..n], ReachCut(io))
      ensures forall b :: MayBecome(b) ==> old(MayBecome(b)) || b == log.bytes
      ensures done ==> Settled()
    {
      if io == TruncateFails {
        return false;
      }
      log := File(log.bytes[..n], n, Some(log));
      if io == DiesTruncated || io == CutSyncFails {
        return false;
      }
      SyncLog();
      SyncedSurvivesAll(log.bytes);
      if io == CutDirectoryFails {
        return false;
      }
      SyncDirectory();
      done := true;
    }

    /** The same five steps for the prepared base. What a power cut makes of it is not recorded: no reader trusts it. */
    method PublishPending(bytes: seq<Byte>, io: PublishIo) returns (done: bool)
      modifies this`pending, this`pendingNext, this`replaced
      ensures (pending, done) == Replaced(old(pending), Some(bytes), Reach(io))
      ensures replaced <= old(replaced)
      ensures io == OpenFails || pendingNext == None || pendingNext.value <= bytes
    {
      if io == OpenFails {
        return false;
      }
      pendingNext := Some([]);
      if io == DiesOpened || io == WriteFails {
        pendingNext := None;
        return false;
      }
      if io.DiesWriting? {
        pendingNext := Some(bytes[..if io.landed < |bytes| then io.landed else |bytes|]);
        return false;
      }
      pendingNext := Some(bytes);
      if io == SyncFails {
        pendingNext := None;
        return false;
      }
      if io == DiesWritten || io == DiesSynced {
        return false;
      }
      if io == RenameFails {
        pendingNext := None;
        return false;
      }
      pending := pendingNext;
      pendingNext := None;
      if io == DiesRenamed || io == DirectoryFails {
        return false;
      }
      SyncDirectory();
      done := true;
    }
  }

  lemma SyncedSurvivesAll(bytes: seq<Byte>)
    ensures forall b :: Survives(Synced(bytes), b) <==> b == bytes
  {
    forall b ensures Survives(Synced(bytes), b) <==> b == bytes {
      SyncedSurvives(bytes, b);
    }
  }

  /** The log up to its first k transactions. */
  function Upto(l: Log, k: nat): Log
    requires k <= |l.txns|
  {
    l.(txns := l.txns[..k])
  }

  /** What a scan finds in the first n bytes of a log: no head, or the log of fewer transactions, or all of it. */
  ghost predicate TornScan(H: Hash, l: Log, n: nat, scan: ScanResult) {
    if n < HEAD_SIZE then scan == Headless(if n == 0 then Clean else Corrupt)
    else
      exists k: nat :: k <= |l.txns| && (k < |l.txns| <==> n < |LogBytes(H, l)|)
                       && scan in {Found(H, Upto(l, k), Clean), Found(H, Upto(l, k), Tail)}
  }

  /**
   * What a publication that does not sync its temporary file may leave (PublishUnsynced): of each prefix of a log
   * the scan finds no head, or fewer transactions than the log has, unless the prefix is the whole log.
   */
  lemma {:induction false} TornPublishLoses(H: Hash, l: Log, n: nat)
    requires n <= |LogBytes(H, l)|
    ensures HEAD_SIZE <= |LogBytes(H, l)| && TornScan(H, l, n, Scan(H, LogBytes(H, l)[..n]))
    decreases |l.txns|
  {
    hide Scan, Found, TxnBytes, HeadRecord, LogTail;
    var file := LogBytes(H, l);
    if n < HEAD_SIZE {
      NoWholeHead(H, file[..n]);
    } else if n == |file| {
      assert file[..n] == file && Upto(l, |l.txns|) == l;
      LogScansClean(H, l);
    } else {
      HeadAlone(H, l);
      var m := |l.txns| - 1;
      var shorter := Upto(l, m);
      var append := Appended(H, shorter, l.txns[m]);
      AppendIsExtension(H, shorter, l.txns[m]);
      assert Extended(shorter, l.txns[m]) == l;
      if n < |LogBytes(H, shorter)| {
        TornPublishLoses(H, shorter, n);
        assert file[..n] == LogBytes(H, shorter)[..n];
        var scan := Scan(H, file[..n]);
        var k: nat :| k <= m && scan in {Found(H, Upto(shorter, k), Clean), Found(H, Upto(shorter, k), Tail)};
        assert Upto(shorter, k) == Upto(l, k);
      } else {
        var landed := n - |LogBytes(H, shorter)|;
        CrashAtomic(H, shorter, l.txns[m], landed);
        assert file[..n] == LogBytes(H, shorter) + append[..landed];
      }
    }
  }

  lemma NoWholeHead(H: Hash, b: seq<Byte>)
    requires |b| < HEAD_SIZE
    ensures Scan(H, b) == Headless(if b == [] then Clean else Corrupt)
  {}

  lemma HeadAlone(H: Hash, l: Log)
    ensures l.txns == [] ==> |LogBytes(H, l)| == HEAD_SIZE
  {}

  /**
   * A power cut behind a commit that stopped halfway: the log was durable, so what is left of the append is a
   * prefix of it, and a scan finds the old log, clean or with a tail, or the new one.
   */
  lemma {:induction false} CutAppendRecovers(H: Hash, l: Log, t: Txn, landed: nat, b: seq<Byte>)
    requires landed <= |Appended(H, l, t)|
    requires Survives(File(LogBytes(H, l) + Appended(H, l, t)[..landed], |LogBytes(H, l)|, None), b)
    ensures var scan := Scan(H, b);
      && scan.hasHead && scan.state != Corrupt && scan.validBytes <= |b|
      && b[..scan.validBytes] in {LogBytes(H, l), LogBytes(H, Extended(l, t))}
      && (|b| < |LogBytes(H, l)| + |Appended(H, l, t)| ==> b[..scan.validBytes] == LogBytes(H, l))
  {
    hide LogBytes, TxnBytes, Scan;
    var head, append := LogBytes(H, l), Appended(H, l, t);
    var k := |b| - |head|;
    assert b == (head + append[..landed])[..|b|] == head + append[..k];
    CrashAtomic(H, l, t, k);
  }
}
