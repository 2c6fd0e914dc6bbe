# BiDi runtime: a verified model

This project models the parts of the BiDi C runtime (`runtime/`) on which everything else rests, and
proves what they promise. Nothing of the C program is executed; every statement is about the model.

- **The durable log store** (`cdc_store.c`). A log is a HEAD record followed by transactions of DATA records closed
  by a SEAL. `StoreFormat` has the bytes, `StoreScan` the scanner, `StoreReader` the second reader that hands sealed
  payloads to a visitor. `StoreRefine` and `StoreRecovery` show that scanner and format are inverses and that every
  byte prefix of an append is recoverable; `StoreTamper` that a changed byte never is. `StoreDisk` is the directory
  with its temporary files and what a power cut may leave of it; its methods go step by step and may stop anywhere.
  `StoreOps` says what each operation does, `StoreHandle` has the operations as methods on an object and that
  directory, and `StoreRuns`, `StoreSafety` and `StoreTheorems` speak about whole runs: any number of handles
  interleaving every operation, with crashes and failing writes anywhere and arbitrary bytes planted as a prepared
  base. `StoreStage` and `StoreAnswers` say what a caller knows of its handle from the answers it got.
- **The two-level lock of the store** (same file). `StoreLock` is a state machine over processes, threads, handles,
  a reference-counted registry and POSIX record locks, with a crash of any process at any point; `StoreLockFree` shows
  that whatever is taken is given back, and that nobody waits for ever.
- **The BLAKE3 hasher** (`cdc_blake3.c`). `Blake3Tree` is the tree hash of the BLAKE3 paper (sections 2.1, 2.4 and
  2.5), `Blake3Stack` the theory of the chaining-value stack, `Blake3` the incremental hasher. `Blake3Unique` shows that
  equal digests mean equal inputs or a meeting of the compression.
- **Rings, frames, topology, cells** (`cdc_frame.c`, `cdc_topology.c`, `cdc_cell.c`). Unordered observations become
  one canonical oriented ring, the ring gets an integer winding number, and a cell's states form a chain. Phases are
  real numbers and pi is the rational the program computes with, so the laws hold exactly. `FrameLaws` and `CellLaws`
  say which frames seal and which are reduced, and `Layouts` that the digests determine what they cover.
- **The recursive scheduler** (`cdc_scheduler.c`). A forest of leaf and composite cells, pending readings, an event
  queue drained by least key, and commits that climb from child to parent. `Scheduler` and `SchedulerWorld` are the
  specification, `SchedulerEngine` the object that meets it. `SchedulerLaws`, `SchedulerDrain` and `SchedulerRuns`
  have what every reachable state satisfies, `SchedulerTrail` and `SchedulerFate` what never mends within an epoch,
  `SchedulerBlock` when a drain cannot get to its events, `SchedulerSettle` what one that goes through leaves undone,
  namely nothing. `SchedulerAnswers`, `SchedulerMemory`, `SchedulerQueue`, `SchedulerReport` and `SchedulerLayout` say
  what is taken, remembered, queued, reported and digested, and `ExampleFrames`, `ExampleRounds` and `SchedulerExample`
  runs that get there, for every digest that never gives zero and every phase reduction within its domain.
- **Lexer, printer, parser** (`cdc_lexer.c`, `cdc_ast.c`, `cdc_parser.c`) and the **scheduler wire codec**
  (`cdc_scheduler_wire.c`): print/parse and encode/decode pairs. `Quoting` and `ParserLaws` say what a line and a
  buffer mean without the lexer.
- **Authority guard, transport peer, supervisor** (`cdc_authority.c`, `cdc_transport.c`, `cdc_supervisor.c`): the
  check, reserve, apply, consume protocol, and the screening of envelopes by their tags. `Admittance` says from the
  fields of leases, tickets and envelopes which are taken, `Admissions` that over whole runs all that was consumed was
  granted.

Code that changes state step by step is modelled by classes and loops, and each such method is proved equal to a
function of the old state; the laws are then proved about that function. The digest and BLAKE3's compression
are parameters: nothing is assumed about them. Where "no collision" is needed it is a hypothesis about the
strings at hand.

## What the proofs show about the code

Six places where the code falls short of what one might expect, each kept as it is, with a run or an input that gets
there and the exact condition; and two places where a step turns out to be necessary.

1. *A commit over a tail.* `cdc_store_commit` refuses a corrupt log only (`runtime/cdc_store.c:1203`), so it appends
   behind an unsealed tail and reports OK. That OK is true, the log is the old one with the transaction behind it, if
   and only if a scan before the commit is clean; fences do not matter, and nothing is assumed about the digest
   (`StoreTails.OkIsTrueIff`, `OkMeansSealed`). `UnreopenedRunCorrupts` is a run of five operations that ends with OK
   and a corrupt log. For each kind of tail the other lemmas of `StoreTails` say what the log becomes. Runs in
   which every torn append is followed by the end of all live handles never get there (`DisciplineIsEnough`).
2. *A zero-width window.* Every ring whose readings were taken at one time, in a window with equal ends, seals and is
   reduced, but the state it yields fails validation and nothing can follow it (`Cell.MomentaryEnds`); a reduced state
   is valid if and only if its window has positive width (`Cell.ReducedStateValid`). In the scheduler such a cell never
   commits again (`SchedulerFate.EndedForever`), and two readings are enough (`SchedulerExample.EndedIsReachable`).
3. *A missed witness.* A composite that holds a witness for clock T loses it if and only if its children stand at
   exactly T in a frame that seals and that no guard of the reduction bars (`SchedulerFate.HeldLeavesIff`). As soon as
   one child is past T, or the composite has reached it, that cannot happen any more: over every run the witness stays,
   no other witness for that cell is taken, every further commit is without a transition, and the winding, once there is
   one, stands still (`MissedForever`, `MissedBlocks`). `SchedulerExample.SkippedWitnessIsReachable` is a run that gets
   there.
4. *A blocked drain.* A drain retries before it takes an event, and a retry that fails ends it. A retry fails at a
   *stuck* cell, whose own frame bars its reduction, or at a refused transition that drops its witness
   (`SchedulerBlock.ErrorComesFrom`, `DrainErrorComesFrom`). It fails and leaves every cell as it was if and only if a
   stuck cell comes, in name order, behind quiet ones only (`RetryBlockedIff`, `BlockedOrHeadway`), and then every later
   drain fails in the same way and leaves the queue as it found it (`BlockedForever`). A leaf is stuck with a full
   batch that has an edge of half a turn, or behind a state that ended its chain; such a leaf stops all drains wherever
   it stands (`SchedulerFate.JammedStopsDrains`, `SchedulerExample.JamIsReachable`). A composite is stuck, with no leaf
   jammed, when two children agree within and stand half a turn apart (`SchedulerExample.CompositeBlockIsReachable`).
5. *Vertical tab and form feed.* The trim set of the lexer is wider than the set the printer quotes for
   (`runtime/cdc_lexer.c:12-15`, `runtime/cdc_ast.c:160-173`), so a last token ending in one of them is cut short on
   the way back. `Parser.RoundTripIff` has the exact condition and `Parser.VerticalTabIsLost` an input.
6. *Two witnesses for one frame.* A reading published again with a witness has it attached to its queued copy, and the
   search through the queue ends there; a reading queued behind it for the same frame may carry another witness
   (`runtime/cdc_scheduler.c:1327-1332`). `SchedulerQueue.PublishAgreesIff` has the exact condition and
   `SchedulerExample.TwoWitnessesAreReachable` a run of three publications, each told OK.
7. *The order of close and unlock in release.* With the two steps the other way round two processes end up inside one
   critical section (`StoreLockWindow.EarlyUnlockBreaksExclusion`); as written they do not.
8. *The sync before the rename.* Without it a power cut behind a publication that reported success may leave any prefix
   of the new log (`StoreDisk.Disk.PublishUnsynced`), in which a scan finds no head or too few transactions
   (`StoreDisk.TornPublishLoses`); as written it cannot (`StoreDisk.Disk.PublishLog`).

## Model

| member | source | states |
|---|---|---|
| StoreFormat.HeaderFields | runtime/cdc_store.c:1145-1175 | a header authenticates and gives back its kind, number, length and digest |
| StoreFormat.HeaderOfFields | runtime/cdc_store.c:348-365 | conversely, every authentic header is the one built from its fields |
| StoreFormat.ParseBodyOf | runtime/cdc_store.c:756-767 | parsing a HEAD body gives back the base it was built from |
| StoreScan.ScanLog | runtime/cdc_store.c:241-438 | the scan loop over a whole file computes the recursive scan that all store theorems are about |
| StoreScan.ScanRecord | runtime/cdc_store.c:331-437 | one turn of the loop: accepts, stops clean, stops at a tail or refuses exactly as the specified step does |
| StoreRefine.LogScansClean | runtime/cdc_store.c:241-438 | every encoded log scans clean, with its generation, base, counts, length and replay state |
| StoreRecovery.RestScans | runtime/cdc_store.c:331-437 | a log with a recoverable rest behind it scans as that log, clean if the rest is empty and a tail otherwise |
| StoreRecovery.Decode | runtime/cdc_store.c:241-438 | every file with a head that is not refused is an encoded log and a recoverable rest; the scan reports that log |
| StoreRecovery.ScanDecides | runtime/cdc_store.c:241-438 | clean if and only if the file encodes a log; tail if and only if it encodes a log and a nonempty recoverable rest |
| StoreRecovery.PrefixOfTxn | runtime/cdc_store.c:1235-1248 | every proper byte prefix of what a commit appends is recoverable, and only the empty one is no tail |
| StoreRecovery.AppendIsExtension | runtime/cdc_store.c:1235-1248 | appending a transaction's bytes to a log's bytes gives exactly the bytes of the extended log |
| StoreRecovery.CrashAtomic | runtime/cdc_store.c:940-956 | for every cut of the append the scan is clean or tail, never corrupt, and truncation yields the old log, or the new one when the whole seal landed |
| StoreTamper.OneByteChangeIsCorrupt | runtime/cdc_store.c:269-436 | changing any one byte of any sealed log makes it scan corrupt, never clean and never a tail, given no collision on the framings, payloads and base the scanner compares |
| StoreReader.VisitSealedPrefix | runtime/cdc_store.c:1334-1454 | over an authenticated prefix the visitor is called for exactly the sealed payloads, in order, until it stops |
| StoreReader.VisitEvents | runtime/cdc_store.c:1456-1488 | after any uncorrupt scan with an empty base the reader never finds corruption of its own and never visits the tail; otherwise it refuses before any visit |
| StoreReader.CallsOfEvent | runtime/cdc_store.c:1334-1454 | there is one visit per event, and payload j of transaction i is visited with its own event and transaction ordinals |
| StoreDisk.Disk.PublishLog | runtime/cdc_store.c:785-832 | wherever the five steps stop, processes read all old bytes or all new ones and a power cut adds no third; success means no power cut brings the old log back; what an earlier attempt left in the temporary file is overwritten |
| StoreDisk.Disk.Truncate | runtime/cdc_store.c:940-956 | the same for cutting a tail off: the tail may come back until success is reported, and not after |
| StoreDisk.Disk.PublishPending | runtime/cdc_store.c:1653-1694 | the prepared base is replaced whole or not at all, wherever the steps stop |
| StoreDisk.Disk.SettledStays | runtime/cdc_store.c:441-452 | once file and directory are synced no power cut changes the log |
| StoreDisk.Disk.PublishUnsynced | runtime/cdc_store.c:813-821 | the same steps without the sync of the temporary file: success is reported, and yet a power cut may leave every prefix of the new log, and nothing else |
| StoreDisk.TornPublishLoses | runtime/cdc_store.c:241-346 | what a scan finds in each such prefix: shorter than the head it is taken for no store or refused as corrupt; otherwise it is the log of the first k transactions, clean or with a tail, and k is the full number if and only if no byte is missing |
| StoreDisk.CutAppendRecovers | runtime/cdc_store.c:1235-1278 | a power cut behind a commit that stopped halfway leaves a log that recovers to the old one, or the new one if all of it landed |
| StoreHandle.Store.OpenStore | runtime/cdc_store.c:834-969 | opening creates, adopts, truncates or refuses, as a function of log and base alone (a leftover temporary file has no influence), hands out a handle that agrees with the disk, and what it wrote is durable |
| StoreHandle.Store.Stage | runtime/cdc_store.c:1062-1088 | staging appends one payload, or nothing when it is too long |
| StoreHandle.Store.Rollback | runtime/cdc_store.c:1090-1100 | rolling back forgets the staged payloads and nothing else |
| StoreHandle.Store.WriteRecords | runtime/cdc_store.c:1235-1248 | the record loop writes exactly the transaction's encoding, with the running numbers |
| StoreHandle.Store.CommitStaged | runtime/cdc_store.c:1177-1306 | commit in full: stale generation, fence, appended bytes, counters, re-arming, and what remains when the append is cut; a commit that reports OK survives every power cut |
| StoreHandle.Store.PrepareBase | runtime/cdc_store.c:1619-1695 | snapshot prepares a base for the next generation and leaves the log alone |
| StoreHandle.Store.ReadPending | runtime/cdc_store.c:1583-1617 | reading the prepared base accepts only whole, authentic files |
| StoreHandle.Store.ActivateBase | runtime/cdc_store.c:1697-1775 | compact in full: missing, malformed and stale bases, the publish step by step, the handle afterwards; one that reports OK survives every power cut |
| StoreHandle.Store.Arm | runtime/cdc_store.c:1778-1810 | fencing arms on the scanned state when the expected count matches, is disarmed when it does not, and a refused log leaves it as it was |
| StoreStage.StageIsTold | runtime/cdc_store.c:1062-1100 | over every run a handle's stage is exactly what was staged with it since it was opened, last rolled back, or last committed with OK, in order |
| StoreStage.SealedOnce | runtime/cdc_store.c:1297-1305 | no staging is sealed by two commits that report OK |
| StoreStage.OkCommitSeals | runtime/cdc_store.c:1177-1306 | a commit that reports OK extends the history by exactly what was staged, and leaves nothing staged |
| StoreStage.EmptyCommitIsStale | runtime/cdc_store.c:1187-1189 | with nothing staged since the last commit that reported OK another one answers stale and changes nothing, however many other operations came between |
| StoreAnswers.PreparedIff | runtime/cdc_store.c:1583-1617 | a prepared base is read back exactly from the file prepared for it; every other file is malformed |
| StoreAnswers.OpenAnswers | runtime/cdc_store.c:834-969 | when opening answers corrupt, I/O error or OK, and when it reports a recovery |
| StoreAnswers.CommitAnswers | runtime/cdc_store.c:1177-1278 | when commit answers stale, corrupt or I/O error, and what it leaves of log and handle then |
| StoreAnswers.CompactAnswers | runtime/cdc_store.c:1697-1757 | when compact answers stale, corrupt or I/O error |
| StoreAnswers.FenceAnswers | runtime/cdc_store.c:1778-1810 | when fencing answers stale or corrupt |
| StoreAnswers.OkIsCurrent | runtime/cdc_store.c:1280-1305 | after an open, a commit or a compaction that reports OK the handle has the generation, counts and length a scan of the log reports |
| StoreAnswers.FencedIsTold | runtime/cdc_store.c:1208-1223 | over every run a handle is fenced exactly when the answers to its operations say so |
| StoreAnswers.BasesChain | runtime/cdc_store.c:1640-1652 | over every run an activated base of the store's own names, by its digest, the base it took the place of: bases chain back to the first |
| StoreOps.LoadPrepared | runtime/cdc_store.c:1583-1617 | a prepared base reads back as the base and generation it was made for |
| StoreRuns.ScanOfHeld | runtime/cdc_store.c:940-956 | a file that holds a log scans as that log, and its valid bytes are the log's encoding |
| StoreRuns.CoveredCounts | runtime/cdc_store.c:162-171 | a log that covers a history has its counts, and its replay state is the fold of the whole history from zero |
| StoreRuns.CoversCompacted | runtime/cdc_store.c:1697-1775 | a new log with nothing but a base that sums up the history covers the history |
| StoreSafety.ScanReportsHistory | runtime/cdc_store.c:241-438 | in every good world the scan reports the abstract generation, counts and replay state |
| StoreSafety.CommitKeeps | runtime/cdc_store.c:1177-1306 | commit, however far it got, leaves a log that stands for the old history, or for the extended one exactly when everything landed |
| StoreSafety.OpenKeeps | runtime/cdc_store.c:834-969 | opening, with recovery and with a failing first publish, keeps the history |
| StoreSafety.SnapshotKeeps | runtime/cdc_store.c:1619-1695 | snapshot keeps the history, and the prepared base names the point at which it was taken |
| StoreSafety.CompactKeeps | runtime/cdc_store.c:1697-1775 | compact keeps the history, wherever it stops and whatever was planted as prepared base |
| StoreSafety.FenceKeeps | runtime/cdc_store.c:1778-1810 | an armed fence is the state at the point where it was armed |
| StoreSafety.RunKeeps | runtime/cdc_store.c:834-1810 | every run keeps the whole invariant |
| StoreTheorems.RunRefinesHistory | runtime/cdc_store.c:162-171 | after every run from the empty directory the log scans uncorrupt, its counts are those of one abstract history, and its replay state is the fold from zero however often it was compacted |
| StoreTheorems.RunHistoryGrows | runtime/cdc_store.c:1177-1306 | no run ever drops or reorders a sealed transaction |
| StoreTheorems.CompactPreserves | runtime/cdc_store.c:1697-1775 | a compaction, stopped anywhere, keeps counts and replay state and moves the generation by at most one |
| StoreTheorems.ReopenFindsHistory | runtime/cdc_store.c:834-969 | opening after any crash gives a clean log and a handle with the whole history's counts, replay state and generation |
| StoreTheorems.StaleBaseNeverActivates | runtime/cdc_store.c:1697-1775 | a base prepared before a later commit or compaction never activates and touches nothing |
| StoreTheorems.SpentBaseNeverActivates | runtime/cdc_store.c:1697-1775 | a base that activated is gone, or if its unlink failed it is stale |
| StoreTheorems.UndoneRename | runtime/cdc_store.c:822-830 | a rename whose directory was never synced may be undone by a power cut: nobody was told OK, no transaction is lost, every invariant holds, and a base that could be activated still can |
| StoreTheorems.FencedCommitIsCurrent | runtime/cdc_store.c:1197-1229 | a commit that returns OK under an armed fence happens at the very point where the fence was armed |
| StoreTheorems.FencedCommitLosesNothing | runtime/cdc_store.c:1197-1229 | between arming (or re-arming) and the fenced commit that returns OK there was no other successful commit or compaction |
| StoreTheorems.OneFencedWriterWins | runtime/cdc_store.c:1215-1223 | of two writers, once one has committed the other, fenced before, does not |
| StoreTails.CommitBehindDataCorrupts | runtime/cdc_store.c:1203-1206 | a commit behind complete unsealed records makes the log corrupt |
| StoreTails.CommitBehindCutPayload | runtime/cdc_store.c:1203-1206 | behind a cut payload, a commit too short to fill it seals nothing, and a longer one corrupts the log unless two digests coincide |
| StoreTails.CommitBehindCutHeader | runtime/cdc_store.c:348-362 | behind a cut header the splice of the two decides: corrupt if it does not authenticate, which from 49 bytes on depends on the cut header alone |
| StoreTails.CommitBehindCutDataHeader | runtime/cdc_store.c:355-402 | behind a DATA header cut past its tag the payload is read out of the appended bytes: nothing is sealed, or the log is corrupt, unless a digest coincides with a splice of two |
| StoreTails.CommitBehindCutSeal | runtime/cdc_store.c:404-416 | behind a seal cut past its tag the log is corrupt unless the appended bytes happen to complete its digest |
| StoreTails.OkIsTrueIff | runtime/cdc_store.c:1203-1229 | with any tail, fenced or not, the commit reports OK, and the log is then the old one extended by the transaction if and only if a scan before it was clean |
| StoreTails.OkMeansSealed | runtime/cdc_store.c:1203-1229 | the same of every commit that reports OK, whatever the file |
| StoreTails.UnreopenedRunCorrupts | runtime/cdc_store.c:1203-1229 | open, stage twice, a commit cut behind its first record, a second commit on the live handle: it reports OK and the log is corrupt |
| StoreTails.DisciplineIsEnough | runtime/cdc_store.c:940-956 | if every torn append ends all live handles, no commit ever meets a tail |
| StoreLock.StepKeeps | runtime/cdc_store.c:496-726 | every step of acquire, enter, exit and release, by any number of threads and also through one handle, every death of a process and every re-creation of the lock file keeps the protocol's invariant |
| StoreLock.MutexKeepsOut | runtime/cdc_store.c:684-702 | whoever has a coordination object's mutex keeps every other thread of the process out of that file's section |
| StoreLock.MutualExclusion | runtime/cdc_store.c:684-718 | in every reachable state at most one thread of all processes is inside the critical section of a lock file |
| StoreLock.InsideIsLocked | runtime/cdc_store.c:684-718 | whoever is inside has the record lock for its process |
| StoreLock.CloseHurtsNobody | runtime/cdc_store.c:548-682 | neither the close in release nor that of a redundant descriptor in acquire drops a lock some thread relies on |
| StoreLockFree.LockIsUsed | runtime/cdc_store.c:705-718 | in every reachable state a process that has the record lock on a file has a thread inside on that file |
| StoreLockFree.EnterGetsIn | runtime/cdc_store.c:684-702 | so a thread that asks for the record lock gets inside if and only if no thread of another process is inside on that file |
| StoreLockFree.IdleIsFree | runtime/cdc_store.c:548-718 | when every thread is idle no registry, mutex or record lock is held and every object has a handle |
| StoreLockFree.NoDeadlock | runtime/cdc_store.c:548-718 | in every reachable state in which some thread is at work, some thread at work can go on |
| StoreLockWindow.EarlyUnlockBreaksExclusion | runtime/cdc_store.c:639-682 | with unlock before close there is a run with two processes inside: the source's order is necessary |
| Blake3Tree.LeftSubtreeIsLargestFull | runtime/cdc_blake3.c:251-262 | the left subtree has the greatest power of two of chunks that leaves the right one nonempty |
| Blake3Stack.StackLength | runtime/cdc_blake3.c:244-262 | the stack after t chunks has one entry per one bit of t |
| Blake3Stack.PopCountBound | runtime/cdc_blake3.c:244-247 | j slots are enough below 2^j chunks |
| Blake3Stack.SizesShape | runtime/cdc_blake3.c:251-262 | the subtree sizes are strictly decreasing powers of two that sum to t |
| Blake3Stack.StackEntries | runtime/cdc_blake3.c:251-262 | entry i is the chaining value of the complete subtree at its place |
| Blake3Stack.PopMerge | runtime/cdc_blake3.c:255-260 | one merge of the loop takes the top of the stack and halves the counter; there always is a top |
| Blake3Stack.PushLast | runtime/cdc_blake3.c:255-261 | the push that ends the merge loop gives the stack of the next count |
| Blake3Stack.MergeSubtrees | runtime/cdc_blake3.c:221-227 | the parent of two neighbouring complete subtrees is the complete subtree over both |
| Blake3Stack.FoldIsTree | runtime/cdc_blake3.c:289-302 | folding the stack from the top over the last chunk gives the tree of the whole input |
| Blake3.StackShape | runtime/cdc_blake3.c:244-287 | in every valid hasher the stack has popcount-many entries, at most 54, each a complete subtree, sizes decreasing |
| Blake3.Chunk.Update | runtime/cdc_blake3.c:177-200 | the lazy block buffer absorbs any piece of a chunk and keeps the chunk's chaining value |
| Blake3.Chunk.Out | runtime/cdc_blake3.c:202-208 | the chunk's output is the one of section 2.4 for the bytes absorbed |
| Blake3.Hasher.AddChunkCv | runtime/cdc_blake3.c:251-262 | adding a chunk keeps the stack that of the chunk count |
| Blake3.Hasher.Update | runtime/cdc_blake3.c:264-287 | update appends its input, whatever its length |
| Blake3.Hasher.Final | runtime/cdc_blake3.c:289-302 | the result is the recursive tree hash of everything absorbed |
| Blake3.DigestPieces | runtime/cdc_blake3.c:229-302 | for every cutting of the input into updates the digest is the tree hash of the concatenation |
| Blake3.KeyedDigestPieces | runtime/cdc_blake3.c:236-302 | the same for the keyed hash |
| Blake3Unique.OneDigestOneInput | runtime/cdc_blake3.c:177-302 | two inputs with one digest are the same, unless the compression meets on two different calls, one made for each input |
| Blake3Unique.CallsTell | runtime/cdc_blake3.c:177-227 | by flags and counter, the call that ends a chunk is none that continues one, a parent is neither, and chunks at different places share no call |
| Blake3Unique.OnlyRootIsMarked | runtime/cdc_blake3.c:287-302 | the last call of a digest, marked as the root, is made nowhere else, whatever the inputs |
| Angle.WrapTurns | runtime/cdc_topology.c:15-23 | wrapping subtracts whole turns and lands in (-pi, pi] |
| Angle.WrapUnique | runtime/cdc_frame.c:33-41 | it is the only such value |
| Ring.LinkValid | runtime/cdc_scheduler.c:155-170 | the per-member test refuses only non-rings |
| Ring.LinksValid | runtime/cdc_scheduler.c:143-171 | the link scan finds the least member, distinct members and distinct successors, or there is no ring |
| Ring.RingValid | runtime/cdc_scheduler.c:138-191 | the test accepts if and only if the successor relation is one cycle through all members |
| Ring.RingIsRound | runtime/cdc_scheduler.c:172-190 | being one cycle is the same as the walk from any member going once round |
| Ring.NoMerge | runtime/cdc_scheduler.c:172-190 | with distinct successors a walk can only repeat at its start, which is why one early-return test suffices |
| Ring.CycleIsTour | runtime/cdc_scheduler.c:138-191 | a cycle is determined by where it starts |
| Ring.TourReordered | runtime/cdc_frame.c:155-179 | listing the members in another order gives the same tour |
| Frame.ScreenAll | runtime/cdc_frame.c:116-147 | the screening loop reports the first fault, the least member and the oldest observation |
| Frame.ScreenedIsFine | runtime/cdc_frame.c:116-143 | the screening finds nothing if and only if every observation is in window, all clocks agree and all members differ |
| Frame.WalkRing | runtime/cdc_frame.c:155-179 | the walk succeeds if and only if the links go once round, and it lists the observations in ring order with wrapped phases |
| Frame.DigestFrame | runtime/cdc_frame.c:182-218 | the snapshot and its digest cover every header field and every ordered observation |
| Frame.SealFrame | runtime/cdc_frame.c:84-219 | sealing in full, every refusal in its order |
| Frame.SealYieldsRing | runtime/cdc_frame.c:155-180 | a sealed snapshot is a permutation of its input, is the one ring the links form, and starts at the least member |
| Frame.SealDecidesRing | runtime/cdc_frame.c:155-180 | of screened observations exactly the rings seal |
| Frame.SealIgnoresArrival | runtime/cdc_frame.c:84-219 | every arrival order gives the same snapshot and digest |
| Frame.RefusalIgnoresArrival | runtime/cdc_frame.c:84-219 | and every arrival order of a refused frame is refused |
| FrameLaws.SealsIff | runtime/cdc_frame.c:97-180 | exactly these frames seal: asked for, each observation admissible, of one clock and not too old, the links one ring |
| FrameLaws.StaleIff | runtime/cdc_frame.c:144-146 | a frame is held as stale exactly when all is in order, its links aside, but some observation is too old |
| FrameLaws.FreshnessIsAge | runtime/cdc_frame.c:182-218 | a sealed frame's freshness is the age of its oldest observation |
| Layouts.OneDigestOneFrame | runtime/cdc_frame.c:182-218 | two sealed frames with one digest are one frame, unless the digest collides on the two |
| Topology.BoundaryDigest | runtime/cdc_topology.c:56-122 | non-rings are refused, and a ring's digest covers its links walked from the least member |
| Topology.ClassifySnapshot | runtime/cdc_topology.c:125-185 | the classifying loop in full, with its tolerances |
| Topology.WindingIsInteger | runtime/cdc_topology.c:142-171 | the wrapped differences sum to exactly a whole number of turns, at most n/2 in magnitude and below it when no edge is antipodal |
| Topology.ClassifySealed | runtime/cdc_topology.c:125-185 | classifying a sealed ring never reports a boundary error, fails exactly on an antipodal edge, and the integer test never fails |
| Topology.BoundariesAgree | runtime/cdc_topology.c:56-160 | classifying digests the same bytes as the boundary digest of the unordered links |
| Topology.AcceptedIff | runtime/cdc_topology.c:188-231 | a transition is accepted if and only if it leads to a later clock on the same boundary, and the winding stays, unwitnessed or with a local deformation on record, or moves by one, with a phase slip on record |
| Layouts.BoundaryDetermined | runtime/cdc_topology.c:56-160 | two rings with one boundary string are one ring, under one version |
| Layouts.SectorDetermined | runtime/cdc_topology.c:178-184 | two sectors with one string have one boundary, version and winding |
| Cell.ReduceCell | runtime/cdc_cell.c:175-298 | reduction in full, every refusal in its order, every field of the new state |
| Cell.ReduceLinks | runtime/cdc_cell.c:198-296 | each later state is linked to its predecessor: generation, clock, window, digest, winding |
| Cell.ReduceMovesWinding | runtime/cdc_cell.c:208-227 | within one frame version a commit moves the winding if and only if it records a phase slip, and then by one |
| Cell.TurnsAreSlips | runtime/cdc_cell.c:208-227 | over any run of one frame version the winding moves exactly as often as a phase slip is on record |
| CellLaws.ReducesIff | runtime/cdc_cell.c:175-233 | exactly these frames are reduced: sound, later than the state before, and either of its version, on its boundary and accounting for the winding, or of the next version with a witness for the change |
| CellLaws.ReducedSays | runtime/cdc_cell.c:235-298 | what a new state says of the frame, of the ring, of the witness and of the reduction |
| CellLaws.ValidIff | runtime/cdc_cell.c:105-160 | exactly these states are valid: sealing gives them back, nothing is lacking, within the horizon in a window with width, a macro state that is right up to rounding, all of an event or nothing, and a predecessor unless they are the first |
| Layouts.OneDigestOneState | runtime/cdc_cell.c:64-103 | two valid states with one digest are the same in all it covers, unless the digest collides on the two |
| Cell.ChainLaws | runtime/cdc_cell.c:198-296 | along every chain generations count 1, 2, 3 ..., clocks and window ends increase strictly, and each state names its predecessor's digest |
| Cell.DriftIsWitnessed | runtime/cdc_cell.c:208-227 | over any run of one frame version the winding drifts by at most the number of witnessed phase slips |
| Cell.MomentarySeals | runtime/cdc_frame.c:97-180 | every ring whose readings were taken at one time seals in a window of no width |
| Cell.MomentaryEnds | runtime/cdc_cell.c:105-160 | and is reduced to a state that fails validation, after which every reduction fails |
| Cell.ReducedStateValid | runtime/cdc_cell.c:105-160 | a reduced state passes validation if and only if its window has positive width |
| SchedulerOrder.MinimumIsLeast | runtime/cdc_scheduler.c:247-276 | the search returns an event no other event comes before |
| SchedulerAnswers.EventOrder | runtime/cdc_scheduler.c:247-264 | lower clocks first, at one clock readings before witnesses, then by name, by member, and by age |
| SchedulerAnswers.AnswersAscend | runtime/cdc_scheduler.c:1528-1550 | a drain answers its events in that order |
| SchedulerOrder.SameMinimum | runtime/cdc_scheduler.c:247-276 | in any rearrangement of a queue with distinct keys the minimum is the same event |
| SchedulerOrder.QueueOrderIrrelevant | runtime/cdc_scheduler.c:1511-1558 | the drain loop takes rearranged queues through the same machine states, and leaves rearranged queues |
| SchedulerOrder.DrainIgnoresPublicationOrder | runtime/cdc_scheduler.c:1511-1558 | equal cells and rearranged queues drain to equal cells, execution digest, report and outcome, whatever the sequence numbers and the limit |
| SchedulerRuns.ReachableDrainIgnoresOrder | runtime/cdc_scheduler.c:1511-1558 | the same in every reachable scheduler, without further hypotheses: its keys always are distinct |
| SchedulerRuns.AppendIsNew | runtime/cdc_scheduler.c:1172-1358 | a reading that publishing appends has a key no queued event has |
| SchedulerRuns.WitnessIsNew | runtime/cdc_scheduler.c:1361-1465 | and so has a witness |
| SchedulerAnswers.PublishAccepts | runtime/cdc_scheduler.c:1172-1358 | publishing a reading reports OK exactly when it can be told of its leaf, in time and of its frame, the leaf can use it, the queue does not refuse it, and there is room |
| SchedulerAnswers.PublishesLate | runtime/cdc_scheduler.c:1250-1268 | for a clock already committed it is a duplicate if it retells that frame, and an error if not |
| SchedulerAnswers.WitnessAccepts | runtime/cdc_scheduler.c:1361-1465 | publishing a witness reports OK exactly when it is for a later clock and neither cell nor queue has one |
| SchedulerQueue.ReachableQueue | runtime/cdc_scheduler.c:1172-1465 | in every reachable scheduler each queued event is one its cell has a place for, of its frame version, within its horizon and in time, and readings for one frame agree on its batch |
| SchedulerQueue.PublishAgreesIff | runtime/cdc_scheduler.c:1296-1345 | publishing keeps queued witnesses in agreement unless it attaches one before a reading that carries another for the same frame |
| SchedulerExample.TwoWitnessesAreReachable | runtime/cdc_scheduler.c:1327-1332 | three publications, each told OK, that get there |
| SchedulerWorld.ResolveOrphans | runtime/cdc_scheduler.c:951-986 | the children found for a new cell exist, are distinct and have no parent, and the depth exceeds theirs |
| SchedulerWorld.AddedSound | runtime/cdc_scheduler.c:890-1027 | adding a cell keeps the forest: one parent per child, at a larger index, strictly deeper, within the limits, distinct names, rings |
| SchedulerAnswers.AddAccepts | runtime/cdc_scheduler.c:890-1027 | adding reports OK exactly when the forest is open and has room, the cell is well put, its name new, its links a ring, and a composite's children free and not too deep |
| SchedulerLaws.CommitKeeps | runtime/cdc_scheduler.c:422-675 | a commit keeps every invariant of cells, clocks, histories and trace |
| SchedulerLaws.ReduceLeafKeeps | runtime/cdc_scheduler.c:422-534 | so does reducing a leaf, with all that climbs from it |
| SchedulerLaws.ReduceCompositeKeeps | runtime/cdc_scheduler.c:537-675 | and reducing a composite |
| SchedulerLaws.PropagateKeeps | runtime/cdc_scheduler.c:407-419 | and propagation, whose recursion ends because parents have larger indices |
| SchedulerDrain.ApplyReadingKeeps | runtime/cdc_scheduler.c:678-767 | so does every way of applying a reading |
| SchedulerDrain.ApplyWitnessKeeps | runtime/cdc_scheduler.c:770-826 | and a witness |
| SchedulerAnswers.LateReading | runtime/cdc_scheduler.c:694-708 | a reading for a clock already committed changes nothing: a duplicate if it retells that frame, else an error |
| SchedulerAnswers.LateWitness | runtime/cdc_scheduler.c:780-790 | the same for a witness: a duplicate if it is the one used up at that clock |
| SchedulerAnswers.OtherBatch | runtime/cdc_scheduler.c:709-721 | beside the open batch, one for a later clock stays queued and any other is an error |
| SchedulerAnswers.OtherClock | runtime/cdc_scheduler.c:793-800 | the same for a leaf's witness |
| SchedulerAnswers.SecondWitness | runtime/cdc_scheduler.c:801-809 | a cell that holds a witness takes no other |
| SchedulerAnswers.JoinsBatch | runtime/cdc_scheduler.c:709-767 | a reading of the open batch, or the first of a new one, fills its slot and has its witness held; which is a duplicate, which a conflict, and what becomes of a full batch |
| SchedulerAnswers.HoldsWitness | runtime/cdc_scheduler.c:809-826 | a witness the cell can take is held and counted, and what becomes of the cell then |
| SchedulerAnswers.LeafSays | runtime/cdc_scheduler.c:422-492 | a leaf's new state is of its batch and its readings, up to its horizon |
| SchedulerAnswers.CompositeSays | runtime/cdc_scheduler.c:558-640 | a composite's is at its children's clock, over the span of their windows, up to the nearest horizon, of their mean phases |
| SchedulerAnswers.SpanCovers | runtime/cdc_scheduler.c:558-584 | that span runs from the earliest start to the latest end, up to the nearest horizon |
| SchedulerDrain.RetryKeeps | runtime/cdc_scheduler.c:1468-1508 | and retrying |
| SchedulerDrain.DrainKeeps | runtime/cdc_scheduler.c:1511-1558 | and draining, stopped anywhere |
| SchedulerSettle.DrainSettles | runtime/cdc_scheduler.c:1547-1549 | after a drain that reports OK every cell is quiet: nothing is left that could still be reduced |
| SchedulerSettle.QuietRetry | runtime/cdc_scheduler.c:1468-1508 | and a round of retries among quiet cells goes through and changes no cell |
| SchedulerReport.DrainReports | runtime/cdc_scheduler.c:1528-1558 | the report counts the answers (all, duplicates, errors), the witnesses taken and the states committed by leaves and composites, and every event was answered or is still queued |
| SchedulerReport.QueueEnds | runtime/cdc_scheduler.c:1528-1550 | the loop ends for want of events, at the limit, or at the first answer that is neither OK nor a duplicate |
| SchedulerRuns.StepGood | runtime/cdc_scheduler.c:841-1558 | every public operation keeps the invariant of the whole scheduler |
| SchedulerRuns.ReachableState | runtime/cdc_scheduler.c:406-826 | in every reachable state: one parent, later and deeper; pending count, open batch and held witness agree with the slots; clocks in order; no composite ahead of a child; the trace is the fold of the commits |
| SchedulerRuns.HistoriesAreChains | runtime/cdc_scheduler.c:216-227 | each cell's commits count up from one with strictly increasing clocks and window ends, each naming its predecessor's digest |
| SchedulerMemory.ReachableMemory | runtime/cdc_scheduler.c:498-515 | in every reachable scheduler a leaf keeps the very readings its state was reduced from, which seal to the frame the state names, and every cell the witness of its last transition |
| SchedulerRuns.HistoriesDrift | runtime/cdc_scheduler.c:421-675 | each cell's winding moves exactly as often as it recorded a phase slip, and so drifts by at most as much |
| SchedulerFate.HeldLeavesIff | runtime/cdc_scheduler.c:585-675 | a composite's witness leaves it if and only if its children stand at exactly the clock it waits for, in a frame that seals and that no guard of the reduction bars |
| SchedulerFate.HeldLeavesWithChildren | runtime/cdc_scheduler.c:537-675 | over any run it can only leave if every child has committed at that clock |
| SchedulerFate.MissedForever | runtime/cdc_scheduler.c:537-675 | once a child is past that clock, or the composite has reached it, the witness stays over every run, every further commit is without a transition, and the winding, once there is one, never moves again |
| SchedulerFate.MissedBlocks | runtime/cdc_scheduler.c:770-826 | and no witness for the cell is ever taken: publishing is refused, a queued one is dropped without effect |
| SchedulerExample.SkippedWitnessIsReachable | runtime/cdc_scheduler.c:537-826 | sixteen operations on a new scheduler that get there |
| SchedulerFate.EndedForever | runtime/cdc_scheduler.c:422-675 | a cell whose state fails validation never commits again, over every run |
| SchedulerExample.EndedIsReachable | runtime/cdc_scheduler.c:422-534 | two readings of one time in a window of no width get there |
| SchedulerFate.JammedStopsDrains | runtime/cdc_scheduler.c:1468-1558 | while a leaf's full batch can never be reduced every drain answers an error and leaves the queue as it was, and the leaf stays so over every run |
| SchedulerFate.AntipodalIsJammed | runtime/cdc_topology.c:150-153 | a sealed full batch with an edge near half a turn is such a batch |
| SchedulerFate.EndedIsJammed | runtime/cdc_cell.c:198-207 | so is one behind a state that ended its chain |
| SchedulerExample.JamIsReachable | runtime/cdc_scheduler.c:678-767 | two readings half a turn apart get there |
| SchedulerTrail.ReduceOutcome | runtime/cdc_cell.c:175-298 | what the reduction answers, from its guards alone: barred, passed, or a transition refused |
| SchedulerBlock.CellTried | runtime/cdc_scheduler.c:422-675 | trying a cell, from its guards alone: a quiet one is left alone without an error, a stuck one fails and leaves everything, one with a refused witness fails and drops it, any other commits and climbs |
| SchedulerBlock.CommitIsOk | runtime/cdc_scheduler.c:407-419 | a commit is answered OK unless an error of a cell above it is passed down |
| SchedulerBlock.FramesHeld | runtime/cdc_scheduler.c:422-675 | a try that commits nothing counts one frame as held if a frame was put to the reduction and not barred, or a composite's did not seal; and none otherwise |
| SchedulerBlock.ErrorComesFrom | runtime/cdc_scheduler.c:407-675 | trying a cell ends in an error if and only if the climb from it ends at a stuck cell or at a refused transition that drops a witness |
| SchedulerBlock.RetryErrorComesFrom | runtime/cdc_scheduler.c:1468-1508 | so an error of a whole round of retries comes from one or the other |
| SchedulerBlock.DrainErrorComesFrom | runtime/cdc_scheduler.c:1511-1526 | and so, in every scheduler with the invariant, does the error that keeps a drain from its first event |
| SchedulerBlock.RetryBlockedIff | runtime/cdc_scheduler.c:1468-1508 | a round of retries fails and leaves every cell as it was if and only if a stuck cell comes, in name order, behind quiet ones only |
| SchedulerBlock.BlockedOrHeadway | runtime/cdc_scheduler.c:1511-1526 | for the drain: blocked, or its first retry goes through, commits, or drops a witness |
| SchedulerBlock.BlockedDrain | runtime/cdc_scheduler.c:1511-1558 | a blocked drain answers an error, takes no event, leaves every cell as it was, and is blocked again |
| SchedulerBlock.BlockedForever | runtime/cdc_scheduler.c:1511-1558 | over every run no cell changes any more, and every drain answers an error and leaves the queue as it found it |
| SchedulerBlock.JammedIsStuck | runtime/cdc_scheduler.c:422-492 | a jammed leaf is stuck |
| SchedulerBlock.AntipodalIsStuck | runtime/cdc_topology.c:150-153 | so is a composite whose children's frame has an edge near half a turn |
| SchedulerBlock.EndedIsStuck | runtime/cdc_cell.c:198-207 | and one behind a state that ended its chain, once its children's next frame seals |
| SchedulerExample.CompositeBlockIsReachable | runtime/cdc_scheduler.c:537-675 | four readings and one drain that end with a stuck composite, every later drain blocked, no leaf jammed |
| SchedulerRetry.RetryVisitsAll | runtime/cdc_scheduler.c:1468-1508 | retrying visits every cell exactly once, in identifier order |
| SchedulerRetry.RetryNeverRunsOut | runtime/cdc_scheduler.c:1468-1508 | its exits for a missing next cell and at a limit are unreachable: it goes through or fails |
| SchedulerDigest.StructureDigest | runtime/cdc_scheduler.c:292-345 | the walk from the least member digests exactly the structure's bytes |
| SchedulerDigest.StructureIgnoresListing | runtime/cdc_scheduler.c:292-345 | the order in which a cell's members were listed does not matter |
| SchedulerLayout.StructureDetermined | runtime/cdc_scheduler.c:292-345 | two structures with one string are one structure: the same numbers and, from the least member on, the same ring |
| SchedulerDigest.SoundShapes | runtime/cdc_scheduler.c:292-345 | every cell of a sound forest is a ring, and no two have one name |
| SchedulerDigest.SortCells | runtime/cdc_scheduler.c:355-366 | the in-place insertion sort yields all cells in identifier order |
| SchedulerDigest.AscendingIsUnique | runtime/cdc_scheduler.c:287-290 | there is only one such order |
| SchedulerDigest.ConfigDigest | runtime/cdc_scheduler.c:347-400 | the configuration digest covers the limits, the predecessor's configuration, and every cell's structure and imported state in that order |
| SchedulerDigest.ConfigIgnoresAdditionOrder | runtime/cdc_scheduler.c:347-400 | the order in which cells were added does not matter |
| SchedulerEngine.Engine.FindMinimum | runtime/cdc_scheduler.c:266-276 | the loop finds the specified minimum |
| SchedulerEngine.Engine.RemoveEvent | runtime/cdc_scheduler.c:278-285 | the event at the index is gone, exactly one fewer, and all others stay in the order they were in |
| SchedulerEngine.Engine.ReduceLeafCell | runtime/cdc_scheduler.c:422-534 | updates cells, report, trace and commits as the specified leaf reduction does |
| SchedulerEngine.Engine.ReduceCompositeCell | runtime/cdc_scheduler.c:537-675 | the same for composites |
| SchedulerEngine.Engine.ScanChildren | runtime/cdc_scheduler.c:558-584 | ready if and only if every child has committed and all clocks agree; the window spans all children's |
| SchedulerEngine.Engine.PropagateParent | runtime/cdc_scheduler.c:407-419 | the same for propagation |
| SchedulerEngine.Engine.ApplyObservation | runtime/cdc_scheduler.c:678-767 | the same for a reading: late, duplicate, conflicting, filling, completing |
| SchedulerEngine.Engine.ApplyAttestation | runtime/cdc_scheduler.c:770-826 | the same for a witness |
| SchedulerEngine.Engine.RetryReadyCells | runtime/cdc_scheduler.c:1468-1508 | the retry loop, in name order |
| SchedulerEngine.Engine.DrainLoop | runtime/cdc_scheduler.c:1511-1550 | the drain loop, with its limit and its early exits |
| SchedulerEngine.Engine.DrainEvents | runtime/cdc_scheduler.c:1511-1558 | a whole drain |
| SchedulerEngine.Engine.PublishReading | runtime/cdc_scheduler.c:1172-1358 | publishing: every refusal, duplicates, conflicts, the witness that joins a queued reading, the queue's limit |
| SchedulerEngine.Engine.PublishAttestation | runtime/cdc_scheduler.c:1361-1465 | the same for witnesses |
| SchedulerEngine.Engine.AddNewCell | runtime/cdc_scheduler.c:890-1027 | adding a cell: every refusal in its order, the new forest, and that it is sound again |
| SchedulerEngine.Engine.SealCells | runtime/cdc_scheduler.c:1147-1169 | sealing needs at least one cell and returns the configuration digest of the forest; sealing again returns the same |
| Lexer.LexRawLine | runtime/cdc_lexer.c:135-314 | a raw line: comment cut, trimmed, structural end, too long, or lexed |
| Lexer.TrimmedRange | runtime/cdc_lexer.c:165-180 | the range left by comment strip and trim |
| ParserLaws.StrippedIs | runtime/cdc_lexer.c:165-180 | what is lexed of a line is the line up to its first hash sign, less the blanks at both ends |
| ParserLaws.StrippedIsUnique | runtime/cdc_lexer.c:165-180 | and no other part of it |
| Lexer.LexRange | runtime/cdc_lexer.c:190-314 | the quote and escape loop computes the recursive lexer that the print theorems are about |
| Quoting.LexIsReading | runtime/cdc_lexer.c:190-314 | every line is separators, bare, escaped and quoted pieces up to where it stops, and the lexer answers what that says: its tokens, or where it stopped |
| Quoting.LineReads | runtime/cdc_lexer.c:190-314 | conversely, whatever is written of such pieces is read as the tokens they say |
| Quoting.SingleQuoted | runtime/cdc_lexer.c:243-250 | in single quotes everything but a single quote stands for itself, behind any text and before any rest |
| Quoting.DoubleQuoted | runtime/cdc_lexer.c:252-276 | in double quotes so does a text without double quote and without a backslash that stands last or before another |
| Quoting.EscapedReads | runtime/cdc_lexer.c:215-226 | outside quotes a text with a backslash before every byte stands for the text |
| Quoting.PiecesJoin | runtime/cdc_lexer.c:190-284 | pieces with nothing between them are one token |
| Lexer.TokensComeFromLine | runtime/cdc_lexer.c:190-314 | no token has a byte the line has not |
| Printer.WriteToken | runtime/cdc_ast.c:175-190 | a token is written plain, or in double quotes with quotes and backslashes escaped |
| Printer.WriteTokens | runtime/cdc_ast.c:192-205 | tokens are separated by single spaces |
| Printer.ShownLexes | runtime/cdc_ast.c:160-190 | whatever the token, the lexer reads its printed form back as one token and goes on behind it |
| Printer.JoinedLexes | runtime/cdc_ast.c:192-205 | the lexer reads a printed statement back as exactly its tokens |
| Printer.TrimJoined | runtime/cdc_lexer.c:12-15 | what trimming takes from a printed statement: trailing vertical tabs and form feeds of an unquoted last token |
| Printer.ChoppedShorter | runtime/cdc_lexer.c:12-15 | it takes nothing if and only if the last token is quoted or ends in neither |
| Printer.PrintedLine | runtime/cdc_ast.c:192-205 | a printed line that is short enough lexes to its tokens, less what trimming takes |
| Parser.FirstArg | runtime/cdc_ast.c:94-115 | the first token after the directive that is no attribute |
| Parser.CheckStmt | runtime/cdc_parser.c:51-96 | every complaint about a statement after those before it, in order |
| Parser.ParseBuffer | runtime/cdc_parser.c:98-177 | the line loop over a buffer |
| ParserLaws.CheckIs | runtime/cdc_parser.c:51-96 | which statement is unknown, lacks an argument, or declares a framework again |
| ParserLaws.AcceptedIff | runtime/cdc_parser.c:98-177 | a buffer is accepted if and only if every line is free of NUL, lexes, and is in order behind those before; and it is then the unit of their statements |
| Parser.KnownIsWord | runtime/cdc_ast.c:15-60 | every known directive is a plain lower-case word, so it survives printing |
| Parser.AcceptedIsAcceptable | runtime/cdc_parser.c:98-177 | an accepted buffer yields statements that are well formed and in order |
| Parser.PrintThenParse | runtime/cdc_ast.c:207-234 | parsing the canonical text of an accepted unit gives that unit and no complaint, if every line is short enough and every last token survives |
| Parser.RoundTripIff | runtime/cdc_ast.c:207-234 | and only then |
| Parser.VerticalTabIsLost | runtime/cdc_lexer.c:12-15 | an accepted unit that does not come back |
| Parser.WriteUnit | runtime/cdc_ast.c:207-212 | the unit writer produces the canonical text of the round trip |
| Parser.UnitEqual | runtime/cdc_ast.c:214-234 | the comparison decides equality |
| Wire.QuantiseRange | runtime/cdc_scheduler_wire.c:172-175 | every phase quantises into (-3141592653590, 3141592653590] |
| Wire.QuantiseDequantise | runtime/cdc_scheduler_wire.c:41-49 | quantising a dequantised angle gives it back, also at the end point above pi that wraps and is folded back |
| Wire.ReadingRoundTrip | runtime/cdc_scheduler_wire.c:142-199 | every valid reading encodes, and decodes to itself up to phase quantisation and an ignored witness |
| Wire.WitnessRoundTrip | runtime/cdc_scheduler_wire.c:202-232 | every valid witness encodes, and decodes to itself |
| Wire.EncodesIff | runtime/cdc_scheduler_wire.c:76-232 | exactly these payloads encode: named cells, nonzero members, clocks, versions and digests, an observation within its window before the seal time, and witnesses that are due and of a known kind |
| Wire.FieldSlices | runtime/cdc_scheduler_wire.c:142-199 | where each field of a reading lies in its payload |
| Wire.DecodeInjective | runtime/cdc_scheduler_wire.c:252-368 | no two byte strings decode to one payload |
| WireCodec.PutU64 | runtime/cdc_scheduler_wire.c:56-61 | the shifting loop writes eight big-endian bytes and leaves the rest |
| WireCodec.GetU64 | runtime/cdc_scheduler_wire.c:67-74 | the loop reads them |
| WireCodec.PutHeader | runtime/cdc_scheduler_wire.c:118-128 | the header's bytes, in place |
| WireCodec.PutWitness | runtime/cdc_scheduler_wire.c:130-139 | a witness body, in place |
| WireCodec.EncodeReadingInto | runtime/cdc_scheduler_wire.c:142-199 | the buffer holds exactly the encoding, or is untouched on refusal |
| WireCodec.EncodeWitnessInto | runtime/cdc_scheduler_wire.c:202-232 | the same for a witness |
| WireCodec.ReadWitness | runtime/cdc_scheduler_wire.c:234-249 | a witness body read back, or refused |
| WireCodec.DecodePayload | runtime/cdc_scheduler_wire.c:252-368 | decoding in full, with the final comparison against re-encoding |
| Authority.AuthorityGuard.Find | runtime/cdc_authority.c:35-44 | the table search finds the lease |
| Authority.AuthorityGuard.NonceSeen | runtime/cdc_authority.c:46-57 | whether the pair of lease and nonce is spent |
| Authority.AuthorityGuard.Add | runtime/cdc_authority.c:125-148 | adding a lease: every refusal, the grown table, the bumped revision |
| Authority.AuthorityGuard.RevokeLease | runtime/cdc_authority.c:150-165 | revoking marks one lease and bumps the revision |
| Authority.AuthorityGuard.Check | runtime/cdc_authority.c:168-227 | a check changes nothing, and gives a ticket only on acceptance |
| Authority.AcceptsIff | runtime/cdc_authority.c:168-227 | a check accepts exactly the well-put requests which the lease of that name grants (in force, not revoked, its subject, frame, horizon, action, quorum) with a nonce not spent under it |
| Admittance.AddsIff | runtime/cdc_authority.c:125-148 | which leases are added, and what that changes |
| Admittance.RevokesIff | runtime/cdc_authority.c:150-165 | what is revoked, and what that changes |
| Admittance.StandsIff | runtime/cdc_authority.c:230-278 | a ticket stands exactly as long as no lease was added or revoked since, its lease backs it, and its nonce is new |
| Admittance.ChangesMakeStale | runtime/cdc_authority.c:242-244 | every change of the table makes all tickets of before stale |
| Authority.AuthorityGuard.Prepare | runtime/cdc_authority.c:230-278 | reserving changes at most the capacity |
| Authority.AuthorityGuard.ConsumeTicket | runtime/cdc_authority.c:281-294 | consuming spends one nonce, or nothing |
| Authority.ReservedConsumes | runtime/cdc_authority.c:230-294 | after a reservation consuming cannot fail, whatever the memory, and spends exactly one fresh nonce |
| Transport.TransportPeer.InspectEnvelope | runtime/cdc_transport.c:516-603 | inspection changes nothing; it refuses by structure, schema, key, recipient, size and each of three tags, in that order, then holds or refuses by sequence, parent and clock |
| Admittance.ScreensIff | runtime/cdc_transport.c:516-556 | an envelope passes the screening exactly when it is well put, for this peer, within its size, and all three tags are right |
| Admittance.InspectsIff | runtime/cdc_transport.c:557-603 | when a screened envelope is accepted, held as a duplicate or for a partition, or refused as a replay |
| Admittance.TicketsGoOnce | runtime/cdc_transport.c:628-681 | a transport ticket is good once: when its stream has moved it is stale |
| Transport.SignedPasses | runtime/cdc_transport.c:213-224 | what was signed for a peer passes its screening |
| Transport.MessageIsDetermined | runtime/cdc_transport.c:109-142 | the signed bytes determine every signed field of a well-formed envelope |
| Transport.OneTagOneMessage | runtime/cdc_transport.c:516-556 | two accepted envelopes with one tag are one message, unless the keyed digest collides on the two |
| Transport.TransportPeer.Prepare | runtime/cdc_transport.c:628-656 | reserving changes at most the capacity |
| Transport.TransportPeer.Advance | runtime/cdc_transport.c:659-681 | accepting advances one stream or nothing |
| Transport.ReservedAccepts | runtime/cdc_transport.h:122-135 | after a reservation accepting cannot fail |
| Transport.AdvancedStreams | runtime/cdc_transport.c:659-681 | it moves the ticket's stream to the ticket's position and no other stream |
| Supervisor.AdmissionSupervisor.AdmitEnvelope | runtime/cdc_supervisor.c:146-266 | admission in full: guard, peer, verdict and receipt |
| Supervisor.AdmissionSupervisor.ReserveAndApply | runtime/cdc_supervisor.c:206-265 | its second half, from the reservations on |
| Supervisor.AdmitIsTransactional | runtime/cdc_supervisor.c:145-266 | accept and application-reject consume exactly one nonce and one causal position; every other verdict changes no lease, nonce, revision or stream; an internal error never follows the application |
| Supervisor.ConsumingMeansChecked | runtime/cdc_supervisor.c:171-205 | whatever consumes was authorised and next in its stream |
| Supervisor.ConsumesIff | runtime/cdc_supervisor.c:171-258 | an envelope is consumed if and only if transport and authority accept it, its ticket is well formed, both sides have room, and the application applies or refuses it |
| Supervisor.RunKeeps | runtime/cdc_supervisor.c:110-266 | every run of admissions, leases, revocations and partitions keeps guard and streams in step with what was consumed, and both within their reserved room |
| Supervisor.NoNonceTwice | runtime/cdc_authority.c:281-294 | in no run is a pair of lease and nonce consumed twice |
| Admissions.ConsumedWasGranted | runtime/cdc_supervisor.c:146-266 | over every run, whatever an operation consumes was granted at that moment by a lease added before, in force, not revoked since, with its quorum of approvals |
| Admissions.EveryConsumedWasGranted | runtime/cdc_supervisor.c:146-266 | and so was every envelope a run has consumed |
| Supervisor.LanesAreChains | runtime/cdc_transport.c:659-681 | per sender and frame the consumed envelopes count 1, 2, 3 ..., with increasing clocks, each naming its predecessor |
| Supervisor.RevokedStep | runtime/cdc_authority.c:150-165 | a step after a revocation consumes nothing under that lease and does not restore it |
| Supervisor.RevokedForever | runtime/cdc_authority.c:150-165 | nor does any run |

## Left out

- StoreSafety.RunKeeps: for runs in which no commit writes behind a tail; StoreTails.DisciplineIsEnough gives a sufficient rule and the other lemmas there what happens otherwise.
- StoreTheorems.RunRefinesHistory: for the same runs.
- StoreTheorems.FencedCommitLosesNothing: below 2^64 transactions and compactions, where the fence's counters have not wrapped; without `cdc_store_reset`.
- StoreTheorems.OneFencedWriterWins: with the same bounds.
- StoreTheorems.StaleBaseNeverActivates: with the same bounds.
- StoreTheorems.SpentBaseNeverActivates: below 2^64 compactions.
- StoreTamper.OneByteChangeIsCorrupt: under the hypothesis that the digest does not collide on the two versions of a string the scanner digests.
- StoreLock.MutualExclusion: without the allocation and fstat failure exits of `coord_acquire` (`runtime/cdc_store.c:578-582`, `602-604`), and without fork.
- Blake3.DigestPieces: for inputs up to 2^64 bytes, the bound the 54 slots are made for.
- Blake3Unique.OneDigestOneInput: that the compression does not meet on the calls made for the two inputs is its hypothesis.
- Cell.ChainLaws: for chains shorter than 2^64, where the generation has not wrapped.
- SchedulerRuns.HistoriesAreChains: with the same bound, and without states imported from an earlier epoch.
- Supervisor.LanesAreChains: with the same bound.
- SchedulerExample.CompositeBlockIsReachable: for reductions that give two equal phases, at 0 and at pi, that phase as their mean, as the circular mean does.
- StoreStage.OkCommitSeals: for runs in which no commit writes behind a tail.
- StoreAnswers.FencedIsTold: for the same runs.
- StoreAnswers.BasesChain: for the same runs, below 2^64 transactions and compactions, and for bases the store prepared itself; the program does not check the anchor of a planted one.
- StoreLockFree.NoDeadlock: it does not say that a given thread is served; fairness of mutexes and record locks is not modelled.
- SchedulerSettle.DrainSettles: it says nothing of cells that wait for readings or for other children.
- Layouts.OneDigestOneState: for numbers within the program's 64-bit fields, and real ones up to the twelve digits they are taken at.
- Layouts.OneDigestOneFrame: the same.
- SchedulerLayout.StructureDetermined: for numbers within 64 bits.
- Admittance.AddsIff: while no more is stored than there is reserved room for.
- Supervisor.ConsumesIff: while no more is stored than there is reserved room for, which every run keeps (Supervisor.RunKeeps).
- Cell.ReducedStateValid: when the reduction's macro values are in their domain, no digest comes out as zero, versions and clock are positive and the generation does not wrap.
- Topology.WindingIsInteger: over real numbers, with the program's value of pi; rounding is not modelled.
- BLAKE3's compression, and collision resistance of any digest.
- Floating point: phases that are not finite, rounding, and the trigonometry of the phase reduction, which is a parameter.
- Allocation failure where it only adds an exit, read faults of the scanner, the injected crashes as such (every cut they can cause is covered), hex output, attest, verify, replay and reset of the store.
- Power cuts inside whole runs: the runs know processes that die and appends and publishes that stop anywhere; what a power cut takes back is stated for each operation, and for a rename that is undone. What one makes of the prepared base is not recorded: runs allow any bytes, or none, in its place.
- Epoch import and export of the scheduler (its runs start without predecessor), state queries, the queued count and digest copies in its report.
- Columns, raw lengths and quote flags of tokens, the text of diagnostics, reading source from streams and files, attribute lookup.
- Transport.OneTagOneMessage: under the hypothesis that the keyed digest does not collide on the two messages.
- The envelope codec, and the parts of a receipt that only repeat the envelope.
- Mutexes of scheduler and supervisor: each call is one critical section.
- Command-line drivers, output formats, the U2 tangent and linear-algebra code, the bridge tables, registry, ABI and shared-record voting: input and output, floating point, or easier members.
