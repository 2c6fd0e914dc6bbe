/**
 * The log scanner: it tells a clean log from one with a torn or unsealed tail (recoverable by
 * truncation) and from one that violates its own integrity (never to be touched).
 */
module StoreScan {
  import opened Bytes
  import opened StoreFormat

  datatype ScanState = Clean | Tail | Corrupt

  datatype ScanResult = ScanResult(
    state: ScanState, hasHead: bool, generation: U64, base: Base,
    sealed: U64, events: U64, validBytes: nat, replay: Digest)

  function NoBase(): Base {
    Base(seq(16, _ => 0), 0, 0, ZeroDigest(), ZeroDigest())
  }

  /** The scan's variables between two records. */
  datatype Cursor = Cursor(
    offset: nat, expectEvent: U64, expectSeal: U64, txnOpen: bool, txn: seq<Byte>, chain: Digest,
    sealed: U64, events: U64, validBytes: nat, replay: Digest)

  datatype Turn = Stop(state: ScanState) | More(next: Cursor)

  function TakeData(c: Cursor, digest: Digest, len: nat, H: Hash): Cursor {
    c.(offset := c.offset + HEADER_SIZE + len,
       expectEvent := Add64(c.expectEvent, 1),
       txnOpen := true,
       txn := (if c.txnOpen then c.txn else []) + digest,
       chain := Fold(H, c.chain, digest))
  }

  function TakeSeal(c: Cursor, digest: Digest, H: Hash): Cursor {
    var chain := Fold(H, c.chain, digest);
    c.(offset := c.offset + HEADER_SIZE,
       expectSeal := Add64(c.expectSeal, 1),
       txnOpen := false,
       chain := chain,
       sealed := Add64(c.sealed, 1),
       events := Add64(c.expectEvent, TWO_64 - 1),
       validBytes := c.offset + HEADER_SIZE,
       replay := chain)
  }

  /** One turn of the scan loop. */
  function Step(H: Hash, file: seq<Byte>, c: Cursor): Turn
    requires c.offset <= |file|
  {
    if c.offset == |file| then Stop(Clean)
    else if |file| - c.offset < HEADER_SIZE then Stop(Tail)
    else
      var h := file[c.offset..c.offset + HEADER_SIZE];
      if !Authentic(H, h) || PayloadLen(h) > MAX_RECORD then Stop(Corrupt)
      else if Kind(h) == DATA then StepData(H, file, c, h)
      else if Kind(h) == SEAL then
        if PayloadLen(h) != 0 || Sequence(h) != c.expectSeal || !c.txnOpen || H(c.txn) != RecordDigest(h)
        then Stop(Corrupt)
        else More(TakeSeal(c, RecordDigest(h), H))
      else Stop(Corrupt)
  }

  function StepData(H: Hash, file: seq<Byte>, c: Cursor, h: seq<Byte>): Turn
    requires c.offset + HEADER_SIZE <= |file| && h == file[c.offset..c.offset + HEADER_SIZE]
  {
    var at := c.offset + HEADER_SIZE;
    if |file| - at < PayloadLen(h) then Stop(Tail)
    else if H(file[at..at + PayloadLen(h)]) != RecordDigest(h) || Sequence(h) != c.expectEvent then Stop(Corrupt)
    else More(TakeData(c, RecordDigest(h), PayloadLen(h), H))
  }

  lemma StepAdvances(H: Hash, file: seq<Byte>, c: Cursor)
    requires c.offset <= |file|
    ensures Step(H, file, c).More? ==> c.offset + HEADER_SIZE <= Step(H, file, c).next.offset <= |file|
  {}

  /** Where a scan from c stops, and why. */
  datatype End = End(state: ScanState, c: Cursor)

  function ScanFrom(H: Hash, file: seq<Byte>, c: Cursor): (e: End)
    requires c.offset <= |file|
    decreases |file| - c.offset
  {
    StepAdvances(H, file, c);
    match Step(H, file, c)
    case Stop(state) => End(state, c)
    case More(next) => ScanFrom(H, file, next)
  }

  /** Valid DATA records behind the last seal are an unsealed tail. */
  function Finish(e: End): ScanState {
    if e.state == Clean && e.c.offset != e.c.validBytes then Tail else e.state
  }

  function StartCursor(b: Base): Cursor {
    Cursor(HEAD_SIZE, Add64(b.events, 1), Add64(b.sealed, 1), false, [], b.state,
           b.sealed, b.events, HEAD_SIZE, b.state)
  }

  function Headless(state: ScanState): ScanResult {
    ScanResult(state, false, 0, NoBase(), 0, 0, 0, ZeroDigest())
  }

  predicate HeadValid(H: Hash, file: seq<Byte>) {
    && |file| >= HEAD_SIZE
    && var h := file[..HEADER_SIZE];
    && Authentic(H, h) && Kind(h) == HEAD && PayloadLen(h) == HEAD_BODY
    && H(file[HEADER_SIZE..HEAD_SIZE]) == RecordDigest(h)
  }

  function HeadBase(file: seq<Byte>): Base
    requires |file| >= HEAD_SIZE
  {
    ParseBody(file[HEADER_SIZE..HEAD_SIZE])
  }

  /** The scan of a whole file; an empty file is a store that does not exist yet. */
  function Scan(H: Hash, file: seq<Byte>): ScanResult {
    if file == [] then Headless(Clean)
    else if !HeadValid(H, file) then Headless(Corrupt)
    else
      var b := HeadBase(file);
      var e := ScanFrom(H, file, StartCursor(b));
      ScanResult(Finish(e), true, Sequence(file[..HEADER_SIZE]), b,
                 e.c.sealed, e.c.events, e.c.validBytes, e.c.replay)
  }

  lemma {:induction false} EndInFile(H: Hash, file: seq<Byte>, c: Cursor)
    requires c.validBytes <= c.offset <= |file|
    ensures ScanFrom(H, file, c).c.validBytes <= ScanFrom(H, file, c).c.offset <= |file|
    decreases |file| - c.offset
  {
    StepAdvances(H, file, c);
    if Step(H, file, c).More? {
      EndInFile(H, file, Step(H, file, c).next);
    }
  }

  lemma ValidBytesInFile(H: Hash, file: seq<Byte>)
    ensures Scan(H, file).validBytes <= |file|
  {
    if file != [] && HeadValid(H, file) {
      EndInFile(H, file, StartCursor(HeadBase(file)));
    }
  }

  /** Up to n bytes from a position, as a read returns them. */
  function Read(file: seq<Byte>, at: nat, n: nat): (r: seq<Byte>)
    requires at <= |file|
    ensures |r| == if |file| - at < n then |file| - at else n
  {
    if |file| - at < n then file[at..] else file[at..at + n]
  }

  /** The scanner itself, reading the file front to back. */
  method ScanLog(H: Hash, file: seq<Byte>) returns (result: ScanResult)
    ensures result == Scan(H, file)
  {
    var header := Read(file, 0, HEADER_SIZE);
    if |header| == 0 {
      return Headless(Clean);
    }
    if |header| < HEADER_SIZE {
      return Headless(Corrupt);
    }
    if header[..4] != MAGIC || header[4] != HEAD || H(header[..FRAMING_SIZE]) != header[17..49]
       || PayloadLen(header) != HEAD_BODY {
      return Headless(Corrupt);
    }
    var body := Read(file, HEADER_SIZE, HEAD_BODY);
    if |body| != HEAD_BODY {
      return Headless(Corrupt);
    }
    if H(body) != header[49..81] {
      return Headless(Corrupt);
    }
    assert body == file[HEADER_SIZE..HEAD_SIZE] && header == file[..HEADER_SIZE];
    var base := ParseBody(body);
    var e := ScanRecords(H, file, base);
    var state := if e.state == Clean && e.c.offset != e.c.validBytes then Tail else e.state;
    result := ScanResult(state, true, Sequence(header), base,
                         e.c.sealed, e.c.events, e.c.validBytes, e.c.replay);
  }

  /** The record loop of the scanner. */
  method ScanRecords(H: Hash, file: seq<Byte>, base: Base) returns (e: End)
    requires |file| >= HEAD_SIZE
    ensures e == ScanFrom(H, file, StartCursor(base))
  {
    var c := StartCursor(base);
    while true
      invariant HEAD_SIZE <= c.offset <= |file|
      invariant ScanFrom(H, file, c) == ScanFrom(H, file, StartCursor(base))
      decreases |file| - c.offset
    {
      StepAdvances(H, file, c);
      var turn := ScanRecord(H, file, c);
      if turn.Stop? {
        return End(turn.state, c);
      }
      c := turn.next;
    }
  }

  /** Reads one record and checks it in the scanner's order: magic, tag, length, then what its type asks for. */
  method ScanRecord(H: Hash, file: seq<Byte>, c: Cursor) returns (turn: Turn)
    requires c.offset <= |file|
    ensures turn == Step(H, file, c)
  {
    var header := Read(file, c.offset, HEADER_SIZE);
    if |header| == 0 {
      return Stop(Clean);
    }
    if |header| < HEADER_SIZE {
      return Stop(Tail);
    }
    assert header == file[c.offset..c.offset + HEADER_SIZE];
    if header[..4] != MAGIC {
      return Stop(Corrupt);
    }
    if H(header[..FRAMING_SIZE]) != header[17..49] {
      return Stop(Corrupt);
    }
    var kind, sequence, len := Kind(header), Sequence(header), PayloadLen(header);
    var digest := RecordDigest(header);
    if len > MAX_RECORD {
      return Stop(Corrupt);
    }
    if kind == DATA {
      var payload := Read(file, c.offset + HEADER_SIZE, len);
      if |payload| != len {
        return Stop(Tail);
      }
      if H(payload) != digest || sequence != c.expectEvent {
        return Stop(Corrupt);
      }
      turn := More(TakeData(c, digest, len, H));
    } else if kind == SEAL {
      if len != 0 || sequence != c.expectSeal || !c.txnOpen {
        return Stop(Corrupt);
      }
      if H(c.txn) != digest {
        return Stop(Corrupt);
      }
      turn := More(TakeSeal(c, digest, H));
    } else {
      turn := Stop(Corrupt);
    }
  }
}
