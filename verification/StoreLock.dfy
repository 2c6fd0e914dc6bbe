/**
 * The two-level lock of the store: per process a registry of shared, reference-counted coordination
 * objects, each with a mutex and one descriptor on the lock file; between processes a POSIX record
 * lock, which belongs to (process, file) and which closing ANY descriptor of the process on that
 * file drops (`fcntl()` and `close()`, System Interfaces volume of IEEE Std 1003.1).
 *
 * The protocol is a state machine; an action names the thread that moves. Any number of processes,
 * threads and handles interleave, other programs may re-create the lock file at any time, and a
 * process may die at any time.
 */
module StoreLock {
  import opened Options

  type Pid = nat
  type Ino = nat

  datatype Thread = Thread(pid: Pid, n: nat)

  /** `ino` is the file its descriptor is open on. */
  datatype Coord = Coord(pid: Pid, ino: Ino, refcount: int, registered: bool, mutex: Option<Thread>)

  /** Where a thread is; `h` is the handle it works with. */
  datatype Pc =
    | Idle
    | AcqLooking                     // holds the registry lock
    | AcqOpening                     // looked in vain
    | AcqOpened(fd: Ino)             // has a new descriptor
    | AcqWaiting(h: nat, fd: Ino)    // counted in; its descriptor is redundant
    | AcqClosing(h: nat, fd: Ino)    // holds the mutex
    | AcqLeaving(h: nat)
    | Entering(h: nat)
    | Locking(h: nat)                // holds the mutex
    | Inside(h: nat)                 // holds the mutex and the record lock
    | Leaving(h: nat)                // gave the record lock back
    | Releasing(h: nat)
    | RelCounting(h: nat)            // holds the registry lock
    | RelClosing(c: nat)             // last reference gone, object unlinked
    | RelLeaving

  datatype State = State(
    path: Option<Ino>, pcs: map<Thread, Pc>, registry: map<Pid, Thread>,
    coords: map<nat, Coord>, refs: map<nat, nat>, locks: map<Ino, Pid>)

  function PcOf(s: State, t: Thread): Pc {
    if t in s.pcs then s.pcs[t] else Idle
  }

  function At(s: State, t: Thread, pc: Pc): State {
    s.(pcs := s.pcs[t := pc])
  }

  /** The registry lookup of one object, by file and process. */
  predicate Names(s: State, c: nat, pid: Pid, ino: Ino) {
    c in s.coords && s.coords[c].registered && s.coords[c].pid == pid && s.coords[c].ino == ino
  }

  predicate Unknown(s: State, pid: Pid, ino: Ino) {
    forall c <- s.coords :: !Names(s, c, pid, ino)
  }

  /** Closing a descriptor: the process loses its record lock on that file. */
  function Close(s: State, pid: Pid, ino: Ino): State {
    if ino in s.locks && s.locks[ino] == pid then s.(locks := s.locks - {ino}) else s
  }

  function FreeRegistry(s: State, pid: Pid): State {
    s.(registry := s.registry - {pid})
  }

  /** One more handle on an object. */
  function Count(s: State, c: nat, h: nat): State
    requires c in s.coords
  {
    s.(coords := s.coords[c := s.coords[c].(refcount := s.coords[c].refcount + 1)], refs := s.refs[h := c])
  }

  /** A new object for a file on which the process has none, with its first handle. */
  function Fresh(s: State, pid: Pid, ino: Ino, c: nat, h: nat): State {
    s.(coords := s.coords[c := Coord(pid, ino, 1, true, None)], refs := s.refs[h := c])
  }

  function SetMutex(s: State, c: nat, owner: Option<Thread>): State
    requires c in s.coords
  {
    s.(coords := s.coords[c := s.coords[c].(mutex := owner)])
  }

  datatype Action =
    | AcqLock(t: Thread)
    | AcqHit(t: Thread, c: nat, newHandle: nat)
    | AcqMiss(t: Thread)
    | AcqOpen(t: Thread, created: Ino)
    | AcqRace(t: Thread, c: nat, newHandle: nat)
    | AcqNew(t: Thread, newCoord: nat, newHandle: nat)
    | AcqMutex(t: Thread)
    | AcqClose(t: Thread)
    | AcqUnlock(t: Thread)
    | EnterStart(t: Thread, handle: nat)
    | EnterMutex(t: Thread)
    | EnterLock(t: Thread)
    | EnterFail(t: Thread)
    | ExitUnlock(t: Thread)
    | ExitMutex(t: Thread)
    | RelStart(t: Thread, handle: nat)
    | RelLock(t: Thread)
    | RelCount(t: Thread)
    | RelClose(t: Thread)
    | RelUnlock(t: Thread)
    | Recreate(newPath: Option<Ino>)
    | Die(pid: Pid)

  /** Between the start of an enter and the end of its exit; any number of threads may be there with one handle. */
  predicate Sharing(pc: Pc) {
    pc.Entering? || pc.Locking? || pc.Inside? || pc.Leaving?
  }

  /** No thread works with this handle. */
  predicate Unused(s: State, h: nat) {
    forall t <- s.pcs :: HandleOf(s.pcs[t]) != Some(h)
  }

  function HandleOf(pc: Pc): Option<nat> {
    match pc
    case AcqWaiting(k, _) => Some(k)
    case AcqClosing(k, _) => Some(k)
    case AcqLeaving(k) => Some(k)
    case Entering(k) => Some(k)
    case Locking(k) => Some(k)
    case Inside(k) => Some(k)
    case Leaving(k) => Some(k)
    case Releasing(k) => Some(k)
    case RelCounting(k) => Some(k)
    case _ => None
  }

  /** The object a handle refers to. */
  predicate Holds(s: State, h: nat) {
    h in s.refs && s.refs[h] in s.coords
  }

  /** The handle is this thread's process's. */
  predicate Owned(s: State, t: Thread, h: nat) {
    Holds(s, h) && s.coords[s.refs[h]].pid == t.pid
  }

  /** Whoever works with this handle enters, is inside or leaves: nobody acquires or releases it. */
  predicate Shareable(s: State, h: nat) {
    forall t <- s.pcs :: HandleOf(s.pcs[t]) == Some(h) ==> Sharing(s.pcs[t])
  }

  // ---- acquiring a handle, one atomic step at a time ----

  function AcqLockStep(s: State, t: Thread): State {
    if PcOf(s, t).Idle? && t.pid !in s.registry then At(s.(registry := s.registry[t.pid := t]), t, AcqLooking) else s
  }

  function AcqHitStep(s: State, t: Thread, c: nat, h: nat): State {
    if PcOf(s, t).AcqLooking? && s.path.Some? && Names(s, c, t.pid, s.path.value) && h !in s.refs
    then At(FreeRegistry(Count(s, c, h), t.pid), t, Idle) else s
  }

  function AcqMissStep(s: State, t: Thread): State {
    if PcOf(s, t).AcqLooking? && (s.path.None? || Unknown(s, t.pid, s.path.value)) then At(s, t, AcqOpening) else s
  }

  function AcqOpenStep(s: State, t: Thread, created: Ino): State {
    if !PcOf(s, t).AcqOpening? then s
    else
      var ino := if s.path.Some? then s.path.value else created;
      At(s.(path := Some(ino)), t, AcqOpened(ino))
  }

  /** The file was re-created between looking and opening: the object exists, the new descriptor is redundant. */
  function AcqRaceStep(s: State, t: Thread, c: nat, h: nat): State {
    var pc := PcOf(s, t);
    if pc.AcqOpened? && Names(s, c, t.pid, pc.fd) && h !in s.refs
    then At(FreeRegistry(Count(s, c, h), t.pid), t, AcqWaiting(h, pc.fd)) else s
  }

  function AcqNewStep(s: State, t: Thread, c: nat, h: nat): State {
    var pc := PcOf(s, t);
    if pc.AcqOpened? && Unknown(s, t.pid, pc.fd) && h !in s.refs && c !in s.coords
    then At(FreeRegistry(Fresh(s, t.pid, pc.fd, c, h), t.pid), t, Idle) else s
  }

  /** The redundant descriptor is closed inside the object's mutex. */
  function AcqMutexStep(s: State, t: Thread): State {
    var pc := PcOf(s, t);
    if pc.AcqWaiting? && Holds(s, pc.h) && s.coords[s.refs[pc.h]].mutex.None?
    then At(SetMutex(s, s.refs[pc.h], Some(t)), t, AcqClosing(pc.h, pc.fd)) else s
  }

  function AcqCloseStep(s: State, t: Thread): State {
    var pc := PcOf(s, t);
    if pc.AcqClosing? then At(Close(s, t.pid, pc.fd), t, AcqLeaving(pc.h)) else s
  }

  function AcqUnlockStep(s: State, t: Thread): State {
    var pc := PcOf(s, t);
    if pc.AcqLeaving? && Holds(s, pc.h) then At(SetMutex(s, s.refs[pc.h], None), t, Idle) else s
  }

  // ---- entering and leaving the critical section ----

  /** The kernel grants a record lock nobody holds, and grants a process the lock it already has. */
  predicate Grantable(s: State, pid: Pid, ino: Ino) {
    ino !in s.locks || s.locks[ino] == pid
  }

  function EnterStartStep(s: State, t: Thread, h: nat): State {
    if PcOf(s, t).Idle? && Owned(s, t, h) && Shareable(s, h) then At(s, t, Entering(h)) else s
  }

  function EnterMutexStep(s: State, t: Thread): State {
    var pc := PcOf(s, t);
    if pc.Entering? && Holds(s, pc.h) && s.coords[s.refs[pc.h]].mutex.None?
    then At(SetMutex(s, s.refs[pc.h], Some(t)), t, Locking(pc.h)) else s
  }

  function EnterLockStep(s: State, t: Thread): State {
    var pc := PcOf(s, t);
    if pc.Locking? && Holds(s, pc.h) && Grantable(s, t.pid, s.coords[s.refs[pc.h]].ino)
    then At(s.(locks := s.locks[s.coords[s.refs[pc.h]].ino := t.pid]), t, Inside(pc.h)) else s
  }

  function EnterFailStep(s: State, t: Thread): State {
    var pc := PcOf(s, t);
    if pc.Locking? && Holds(s, pc.h) then At(SetMutex(s, s.refs[pc.h], None), t, Idle) else s
  }

  function ExitUnlockStep(s: State, t: Thread): State {
    var pc := PcOf(s, t);
    if pc.Inside? && Holds(s, pc.h) then At(Close(s, t.pid, s.coords[s.refs[pc.h]].ino), t, Leaving(pc.h)) else s
  }

  function ExitMutexStep(s: State, t: Thread): State {
    var pc := PcOf(s, t);
    if pc.Leaving? && Holds(s, pc.h) then At(SetMutex(s, s.refs[pc.h], None), t, Idle) else s
  }

  // ---- giving a handle back; the last one closes the descriptor while the registry is still locked ----

  function RelStartStep(s: State, t: Thread, h: nat): State {
    if PcOf(s, t).Idle? && Owned(s, t, h) && Unused(s, h) then At(s, t, Releasing(h)) else s
  }

  function RelLockStep(s: State, t: Thread): State {
    var pc := PcOf(s, t);
    if pc.Releasing? && t.pid !in s.registry
    then At(s.(registry := s.registry[t.pid := t]), t, RelCounting(pc.h)) else s
  }

  /** The handle is counted out; with the last one the object leaves the registry. */
  function Uncount(s: State, c: nat, h: nat): State
    requires c in s.coords
  {
    var left := s.coords[c].refcount - 1;
    s.(coords := s.coords[c := s.coords[c].(refcount := left, registered := left > 0)], refs := s.refs - {h})
  }

  function RelCountStep(s: State, t: Thread): State {
    var pc := PcOf(s, t);
    if !(pc.RelCounting? && Holds(s, pc.h)) then s
    else
      var c := s.refs[pc.h];
      var v := Uncount(s, c, pc.h);
      if v.coords[c].registered then At(FreeRegistry(v, t.pid), t, Idle) else At(v, t, RelClosing(c))
  }

  function RelCloseStep(s: State, t: Thread): State {
    var pc := PcOf(s, t);
    if pc.RelClosing? && pc.c in s.coords
    then At(Close(s, t.pid, s.coords[pc.c].ino).(coords := s.coords - {pc.c}), t, RelLeaving) else s
  }

  function RelUnlockStep(s: State, t: Thread): State {
    if PcOf(s, t).RelLeaving? then At(FreeRegistry(s, t.pid), t, Idle) else s
  }

  /** A process dies: its threads, objects, handles and record locks are gone. */
  function Death(s: State, pid: Pid): State {
    State(s.path,
          map t <- s.pcs | t.pid != pid :: s.pcs[t],
          s.registry - {pid},
          map c <- s.coords | s.coords[c].pid != pid :: s.coords[c],
          map h <- s.refs | s.refs[h] in s.coords && s.coords[s.refs[h]].pid != pid :: s.refs[h],
          map i <- s.locks | s.locks[i] != pid :: s.locks[i])
  }

  function Do(s: State, a: Action): State {
    match a
    case AcqLock(t) => AcqLockStep(s, t)
    case AcqHit(t, c, h) => AcqHitStep(s, t, c, h)
    case AcqMiss(t) => AcqMissStep(s, t)
    case AcqOpen(t, created) => AcqOpenStep(s, t, created)
    case AcqRace(t, c, h) => AcqRaceStep(s, t, c, h)
    case AcqNew(t, c, h) => AcqNewStep(s, t, c, h)
    case AcqMutex(t) => AcqMutexStep(s, t)
    case AcqClose(t) => AcqCloseStep(s, t)
    case AcqUnlock(t) => AcqUnlockStep(s, t)
    case EnterStart(t, h) => EnterStartStep(s, t, h)
    case EnterMutex(t) => EnterMutexStep(s, t)
    case EnterLock(t) => EnterLockStep(s, t)
    case EnterFail(t) => EnterFailStep(s, t)
    case ExitUnlock(t) => ExitUnlockStep(s, t)
    case ExitMutex(t) => ExitMutexStep(s, t)
    case RelStart(t, h) => RelStartStep(s, t, h)
    case RelLock(t) => RelLockStep(s, t)
    case RelCount(t) => RelCountStep(s, t)
    case RelClose(t) => RelCloseStep(s, t)
    case RelUnlock(t) => RelUnlockStep(s, t)
    case Recreate(newPath) => s.(path := newPath)
    case Die(pid) => Death(s, pid)
  }

  function Run(s: State, actions: seq<Action>): State
    decreases actions
  {
    if actions == [] then s else Run(Do(s, actions[0]), actions[1..])
  }

  function Start(path: Option<Ino>): State {
    State(path, map[], map[], map[], map[], map[])
  }

  // ---- the invariant ----

  /** Every handle refers to a registered object. */
  predicate RefsInv(s: State) {
    forall h <- s.refs :: s.refs[h] in s.coords && s.coords[s.refs[h]].registered
  }

  function HandlesOn(s: State, c: nat): set<nat> {
    set h | h in s.refs && s.refs[h] == c
  }

  /** A reference count is the number of handles. */
  predicate CountInv(s: State) {
    forall c <- s.coords :: s.coords[c].refcount == |HandlesOn(s, c)|
  }

  /** A process has one object per file. */
  predicate UniqueInv(s: State) {
    forall c <- s.coords, d <- s.coords ::
      s.coords[c].pid == s.coords[d].pid && s.coords[c].ino == s.coords[d].ino ==> c == d
  }

  /** An unregistered object is being closed by a thread that keeps the registry locked. */
  predicate ClosingInv(s: State) {
    forall c <- s.coords :: !s.coords[c].registered ==>
      s.coords[c].pid in s.registry && PcOf(s, s.registry[s.coords[c].pid]) == RelClosing(c)
  }

  predicate HoldsRegistry(pc: Pc) {
    pc.AcqLooking? || pc.AcqOpening? || pc.AcqOpened? || pc.RelCounting? || pc.RelClosing? || pc.RelLeaving?
  }

  predicate HoldsMutex(pc: Pc) {
    pc.AcqClosing? || pc.AcqLeaving? || pc.Locking? || pc.Inside? || pc.Leaving?
  }

  predicate RegistryInv(s: State) {
    forall t <- s.pcs :: HoldsRegistry(s.pcs[t]) ==> t.pid in s.registry && s.registry[t.pid] == t
  }

  /** Where a thread is says which handle, object, mutex and record lock it has. */
  predicate ThreadInv(s: State, t: Thread, pc: Pc) {
    && (HandleOf(pc).Some? ==>
          var h := HandleOf(pc).value;
          && Holds(s, h) && s.coords[s.refs[h]].pid == t.pid
          && (HoldsMutex(pc) ==> s.coords[s.refs[h]].mutex == Some(t))
          && (pc.AcqWaiting? || pc.AcqClosing? ==> s.coords[s.refs[h]].ino == pc.fd)
          && (pc.Inside? ==> s.coords[s.refs[h]].ino in s.locks && s.locks[s.coords[s.refs[h]].ino] == t.pid))
    && (pc.RelClosing? ==> pc.c in s.coords && s.coords[pc.c].pid == t.pid && !s.coords[pc.c].registered)
  }

  predicate ThreadsInv(s: State) {
    forall t <- s.pcs :: ThreadInv(s, t, s.pcs[t])
  }

  /** Whoever acquires or releases a handle is alone with it. */
  predicate ExclusiveInv(s: State) {
    forall t <- s.pcs, u <- s.pcs ::
      HandleOf(s.pcs[t]).Some? && HandleOf(s.pcs[t]) == HandleOf(s.pcs[u]) && !Sharing(s.pcs[t]) ==> t == u
  }

  predicate Inv(s: State) {
    && RefsInv(s) && CountInv(s) && UniqueInv(s) && ClosingInv(s)
    && RegistryInv(s) && ThreadsInv(s) && ExclusiveInv(s)
  }

  // ---- every step keeps it ----

  /** The same handles on the same objects, none closed: the counts stay right. */
  lemma CountsStay(s: State, v: State)
    requires CountInv(s) && v.refs == s.refs
    requires forall c <- v.coords :: c in s.coords && v.coords[c].refcount == s.coords[c].refcount
    ensures CountInv(v)
  {
    forall c <- v.coords ensures v.coords[c].refcount == |HandlesOn(v, c)| {
      assert HandlesOn(v, c) == HandlesOn(s, c);
    }
  }

  lemma HandlesGrow(s: State, v: State, c: nat, h: nat, d: nat)
    requires h !in s.refs && v.refs == s.refs[h := c]
    ensures HandlesOn(v, d) == if d == c then HandlesOn(s, d) + {h} else HandlesOn(s, d)
    ensures h !in HandlesOn(s, d)
  {}

  lemma CountsGrow(s: State, v: State, c: nat, h: nat)
    requires CountInv(s) && c in s.coords && h !in s.refs && v.refs == s.refs[h := c]
    requires v.coords == s.coords[c := s.coords[c].(refcount := s.coords[c].refcount + 1)]
    ensures CountInv(v)
  {
    hide HandlesOn;
    forall d <- v.coords ensures v.coords[d].refcount == |HandlesOn(v, d)| {
      HandlesGrow(s, v, c, h, d);
    }
  }

  lemma CountsShrink(s: State, h: nat)
    requires CountInv(s) && Holds(s, h)
    ensures var v := Uncount(s, s.refs[h], h);
      CountInv(v) && (!v.coords[s.refs[h]].registered ==> HandlesOn(v, s.refs[h]) == {})
  {
    var c := s.refs[h];
    var v := Uncount(s, c, h);
    forall d <- v.coords ensures v.coords[d].refcount == |HandlesOn(v, d)| {
      assert HandlesOn(v, d) == HandlesOn(s, d) - {h};
      assert h in HandlesOn(s, c);
    }
  }

  lemma NewCounts(s: State, v: State, c: nat, h: nat)
    requires CountInv(s) && RefsInv(s) && c !in s.coords && h !in s.refs
    requires v.refs == s.refs[h := c] && v.coords.Keys == s.coords.Keys + {c} && v.coords[c].refcount == 1
    requires forall d <- s.coords :: v.coords[d].refcount == s.coords[d].refcount
    ensures CountInv(v)
  {
    forall d <- v.coords ensures v.coords[d].refcount == |HandlesOn(v, d)| {
      assert HandlesOn(v, d) == if d == c then {h} else HandlesOn(s, d);
    }
  }

  lemma NoHandleLeft(s: State, c: nat)
    requires HandlesOn(s, c) == {}
    ensures forall h <- s.refs :: s.refs[h] != c
  {
    forall h <- s.refs ensures s.refs[h] != c {
      assert h !in HandlesOn(s, c);
    }
  }

  lemma MutexMovesThreads(s: State, t: Thread, h: nat, owner: Option<Thread>, pc: Pc)
    requires Inv(s) && t in s.pcs && HandleOf(s.pcs[t]) == Some(h) && Holds(s, h)
    requires s.coords[s.refs[h]].mutex in {None, Some(t)} && owner in {None, Some(t)}
    requires !HoldsRegistry(pc) && !HoldsRegistry(s.pcs[t]) && HandleOf(pc) in {None, Some(h)}
    requires HandleOf(pc).Some? && Sharing(s.pcs[t]) ==> Sharing(pc)
    requires ThreadInv(SetMutex(s, s.refs[h], owner), t, pc)
    ensures ThreadsInv(At(SetMutex(s, s.refs[h], owner), t, pc))
  {
    hide CountInv, HandlesOn;
    var v := At(SetMutex(s, s.refs[h], owner), t, pc);
    forall u <- v.pcs ensures ThreadInv(v, u, v.pcs[u]) {
      if u != t {
        assert ThreadInv(s, u, s.pcs[u]);
      }
    }
  }

  lemma OwnPlace(s: State, t: Thread)
    requires ThreadsInv(s) && t in s.pcs
    ensures ThreadInv(s, t, s.pcs[t])
  {}

  /** A thread takes or gives back the mutex of the object it works with. */
  lemma MutexMoves(s: State, t: Thread, h: nat, owner: Option<Thread>, pc: Pc)
    requires Inv(s) && t in s.pcs && HandleOf(s.pcs[t]) == Some(h) && Holds(s, h)
    requires s.coords[s.refs[h]].mutex in {None, Some(t)} && owner in {None, Some(t)}
    requires !HoldsRegistry(pc) && !HoldsRegistry(s.pcs[t]) && HandleOf(pc) in {None, Some(h)}
    requires HandleOf(pc).Some? && Sharing(s.pcs[t]) ==> Sharing(pc)
    requires ThreadInv(SetMutex(s, s.refs[h], owner), t, pc)
    ensures Inv(At(SetMutex(s, s.refs[h], owner), t, pc))
  {
    hide CountInv, HandlesOn, ThreadsInv;
    var v := At(SetMutex(s, s.refs[h], owner), t, pc);
    CountsStay(s, v);
    MutexMovesThreads(s, t, h, owner, pc);
  }

  /** A thread leaves the registry, working with a handle nobody else works with, or with none. */
  lemma RegistryLeft(s: State, t: Thread, pc: Pc)
    requires Inv(s) && t in s.pcs && HoldsRegistry(s.pcs[t]) && !s.pcs[t].RelClosing?
    requires !HoldsRegistry(pc) && ThreadInv(s, t, pc)
    requires HandleOf(pc).Some? ==> Unused(s, HandleOf(pc).value)
    ensures Inv(At(FreeRegistry(s, t.pid), t, pc))
  {
    hide CountInv, HandlesOn;
    var v := At(FreeRegistry(s, t.pid), t, pc);
    CountsStay(s, v);
    forall u <- v.pcs ensures ThreadInv(v, u, v.pcs[u]) {
      if u != t {
        assert ThreadInv(s, u, s.pcs[u]);
      }
    }
  }

  /** Counting in a new handle disturbs nobody. */
  lemma HandleAppears(s: State, c: nat, h: nat)
    requires Inv(s) && c in s.coords && s.coords[c].registered && h !in s.refs
    ensures Inv(Count(s, c, h)) && Unused(Count(s, c, h), h)
  {
    hide CountInv, HandlesOn;
    var v := Count(s, c, h);
    CountsGrow(s, v, c, h);
    forall u <- v.pcs ensures ThreadInv(v, u, v.pcs[u]) && HandleOf(v.pcs[u]) != Some(h) {
      assert ThreadInv(s, u, s.pcs[u]);
    }
  }

  /** While one thread of a process holds the registry, that process closes no object. */
  lemma NobodyCloses(s: State, t: Thread)
    requires ClosingInv(s) && RegistryInv(s) && t in s.pcs && HoldsRegistry(s.pcs[t]) && !s.pcs[t].RelClosing?
    ensures forall c <- s.coords :: s.coords[c].pid == t.pid ==> s.coords[c].registered
  {}

  lemma ObjectAppearsThreads(s: State, pid: Pid, ino: Ino, c: nat, h: nat)
    requires ThreadsInv(s) && c !in s.coords && h !in s.refs
    ensures ThreadsInv(Fresh(s, pid, ino, c, h))
  {
    var v := Fresh(s, pid, ino, c, h);
    forall u <- v.pcs ensures ThreadInv(v, u, v.pcs[u]) {
      OwnPlace(s, u);
    }
  }

  lemma ObjectAppears(s: State, t: Thread, c: nat, h: nat)
    requires Inv(s) && t in s.pcs && s.pcs[t].AcqOpened? && Unknown(s, t.pid, s.pcs[t].fd)
    requires c !in s.coords && h !in s.refs
    ensures Inv(Fresh(s, t.pid, s.pcs[t].fd, c, h))
  {
    hide CountInv, HandlesOn, ThreadsInv;
    NewCounts(s, Fresh(s, t.pid, s.pcs[t].fd, c, h), c, h);
    NobodyCloses(s, t);
    forall d <- s.coords ensures !(s.coords[d].pid == t.pid && s.coords[d].ino == s.pcs[t].fd) {
      assert !Names(s, d, t.pid, s.pcs[t].fd);
    }
    ObjectAppearsThreads(s, t.pid, s.pcs[t].fd, c, h);
  }

  /** A thread gets the registry lock. */
  lemma RegistryTakenThreads(s: State, t: Thread, pc: Pc)
    requires ThreadsInv(s) && ThreadInv(s, t, pc)
    ensures ThreadsInv(At(s.(registry := s.registry[t.pid := t]), t, pc))
  {
    var v := At(s.(registry := s.registry[t.pid := t]), t, pc);
    forall u <- v.pcs ensures ThreadInv(v, u, v.pcs[u]) {
      if u != t {
        OwnPlace(s, u);
      }
    }
  }

  lemma RegistryTaken(s: State, t: Thread, pc: Pc)
    requires Inv(s) && t.pid !in s.registry && HandleOf(pc) == HandleOf(PcOf(s, t)) && ThreadInv(s, t, pc)
    requires HandleOf(pc).Some? ==> !Sharing(pc) && !Sharing(PcOf(s, t))
    requires !pc.RelClosing?
    ensures Inv(At(s.(registry := s.registry[t.pid := t]), t, pc))
  {
    hide CountInv, HandlesOn, ThreadsInv, ThreadInv;
    CountsStay(s, At(s.(registry := s.registry[t.pid := t]), t, pc));
    RegistryTakenThreads(s, t, pc);
  }

  /** Closing a descriptor while its process has nobody inside on that file takes no lock anybody relies on. */
  lemma CloseKeepsOthers(s: State, pid: Pid, ino: Ino)
    requires Inv(s)
    requires forall u <- s.pcs :: s.pcs[u].Inside? && u.pid == pid && Holds(s, s.pcs[u].h) ==>
      s.coords[s.refs[s.pcs[u].h]].ino != ino
    ensures Inv(Close(s, pid, ino))
  {
    hide CountInv, HandlesOn;
    var v := Close(s, pid, ino);
    CountsStay(s, v);
    forall u <- v.pcs ensures ThreadInv(v, u, v.pcs[u]) {
      OwnPlace(s, u);
    }
  }

  /** Whoever holds an object's mutex keeps every other thread of the process out of that file. */
  lemma MutexKeepsOut(s: State, t: Thread, u: Thread)
    requires UniqueInv(s) && ThreadsInv(s) && t in s.pcs && u in s.pcs && t.pid == u.pid
    requires HandleOf(s.pcs[t]).Some? && HoldsMutex(s.pcs[t]) && s.pcs[u].Inside?
    requires Holds(s, HandleOf(s.pcs[t]).value) && Holds(s, s.pcs[u].h)
    requires s.coords[s.refs[HandleOf(s.pcs[t]).value]].ino == s.coords[s.refs[s.pcs[u].h]].ino
    ensures t == u
  {
    assert ThreadInv(s, t, s.pcs[t]) && ThreadInv(s, u, s.pcs[u]);
  }

  lemma AcqLockKeeps(s: State, t: Thread)
    requires Inv(s)
    ensures Inv(AcqLockStep(s, t))
  {
    hide Inv;
    if AcqLockStep(s, t) != s {
      RegistryTaken(s, t, AcqLooking);
    }
  }

  lemma AcqHitKeeps(s: State, t: Thread, c: nat, h: nat)
    requires Inv(s)
    ensures Inv(AcqHitStep(s, t, c, h))
  {
    hide CountInv, HandlesOn;
    var v := AcqHitStep(s, t, c, h);
    if v != s {
      HandleAppears(s, c, h);
      RegistryLeft(Count(s, c, h), t, Idle);
    }
  }

  lemma AcqMissKeeps(s: State, t: Thread)
    requires Inv(s)
    ensures Inv(AcqMissStep(s, t))
  {
    hide CountInv, HandlesOn;
    CountsStay(s, AcqMissStep(s, t));
  }

  lemma AcqOpenKeeps(s: State, t: Thread, created: Ino)
    requires Inv(s)
    ensures Inv(AcqOpenStep(s, t, created))
  {
    hide CountInv, HandlesOn;
    CountsStay(s, AcqOpenStep(s, t, created));
  }

  lemma AcqRaceKeeps(s: State, t: Thread, c: nat, h: nat)
    requires Inv(s)
    ensures Inv(AcqRaceStep(s, t, c, h))
  {
    hide CountInv, HandlesOn;
    var v := AcqRaceStep(s, t, c, h);
    if v != s {
      HandleAppears(s, c, h);
      RegistryLeft(Count(s, c, h), t, AcqWaiting(h, s.pcs[t].fd));
    }
  }

  lemma AcqNewKeeps(s: State, t: Thread, c: nat, h: nat)
    requires Inv(s)
    ensures Inv(AcqNewStep(s, t, c, h))
  {
    hide CountInv, HandlesOn;
    var v := AcqNewStep(s, t, c, h);
    if v != s {
      ObjectAppears(s, t, c, h);
      RegistryLeft(Fresh(s, t.pid, s.pcs[t].fd, c, h), t, Idle);
    }
  }

  lemma AcqMutexKeeps(s: State, t: Thread)
    requires Inv(s)
    ensures Inv(AcqMutexStep(s, t))
  {
    hide CountInv, HandlesOn;
    var pc := PcOf(s, t);
    if pc.AcqWaiting? && Holds(s, pc.h) && s.coords[s.refs[pc.h]].mutex.None? {
      assert ThreadInv(s, t, pc);
      MutexMoves(s, t, pc.h, Some(t), AcqClosing(pc.h, pc.fd));
    }
  }

  lemma AcqCloseKeeps(s: State, t: Thread)
    requires Inv(s)
    ensures Inv(AcqCloseStep(s, t))
  {
    hide CountInv, HandlesOn, ExclusiveInv, RegistryInv, ClosingInv;
    var pc := PcOf(s, t);
    if pc.AcqClosing? {
      OwnPlace(s, t);
      forall u <- s.pcs | s.pcs[u].Inside? && u.pid == t.pid && Holds(s, s.pcs[u].h)
        ensures s.coords[s.refs[s.pcs[u].h]].ino != pc.fd
      {
        if s.coords[s.refs[s.pcs[u].h]].ino == pc.fd {
          MutexKeepsOut(s, t, u);
        }
      }
      CloseKeepsOthers(s, t.pid, pc.fd);
      StillHasMutex(Close(s, t.pid, pc.fd), t, pc.h, AcqLeaving(pc.h));
    }
  }

  lemma StillHasMutex(s: State, t: Thread, h: nat, pc: Pc)
    requires Inv(s) && t in s.pcs && HandleOf(s.pcs[t]) == Some(h) == HandleOf(pc) && Holds(s, h)
    requires HoldsMutex(s.pcs[t]) && !HoldsRegistry(pc) && ThreadInv(s, t, pc) && Sharing(pc) == Sharing(s.pcs[t])
    ensures Inv(At(s, t, pc))
  {
    OwnPlace(s, t);
    assert SetMutex(s, s.refs[h], Some(t)) == s;
    MutexMoves(s, t, h, Some(t), pc);
  }

  lemma AcqUnlockKeeps(s: State, t: Thread)
    requires Inv(s)
    ensures Inv(AcqUnlockStep(s, t))
  {
    hide CountInv, HandlesOn;
    var pc := PcOf(s, t);
    if pc.AcqLeaving? && Holds(s, pc.h) {
      assert ThreadInv(s, t, pc);
      MutexMoves(s, t, pc.h, None, Idle);
    }
  }

  lemma EnterStartKeeps(s: State, t: Thread, h: nat)
    requires Inv(s)
    ensures Inv(EnterStartStep(s, t, h))
  {
    hide CountInv, HandlesOn;
    CountsStay(s, EnterStartStep(s, t, h));
  }

  lemma EnterMutexKeeps(s: State, t: Thread)
    requires Inv(s)
    ensures Inv(EnterMutexStep(s, t))
  {
    hide CountInv, HandlesOn;
    var pc := PcOf(s, t);
    if pc.Entering? && Holds(s, pc.h) && s.coords[s.refs[pc.h]].mutex.None? {
      assert ThreadInv(s, t, pc);
      MutexMoves(s, t, pc.h, Some(t), Locking(pc.h));
    }
  }

  lemma EnterLockKeeps(s: State, t: Thread)
    requires Inv(s)
    ensures Inv(EnterLockStep(s, t))
  {
    hide CountInv, HandlesOn;
    CountsStay(s, EnterLockStep(s, t));
  }

  lemma EnterFailKeeps(s: State, t: Thread)
    requires Inv(s)
    ensures Inv(EnterFailStep(s, t))
  {
    hide CountInv, HandlesOn;
    var pc := PcOf(s, t);
    if pc.Locking? && Holds(s, pc.h) {
      assert ThreadInv(s, t, pc);
      MutexMoves(s, t, pc.h, None, Idle);
    }
  }

  lemma ExitUnlockKeeps(s: State, t: Thread)
    requires Inv(s)
    ensures Inv(ExitUnlockStep(s, t))
  {
    hide CountInv, HandlesOn;
    CountsStay(s, ExitUnlockStep(s, t));
  }

  lemma ExitMutexKeeps(s: State, t: Thread)
    requires Inv(s)
    ensures Inv(ExitMutexStep(s, t))
  {
    hide CountInv, HandlesOn;
    var pc := PcOf(s, t);
    if pc.Leaving? && Holds(s, pc.h) {
      assert ThreadInv(s, t, pc);
      MutexMoves(s, t, pc.h, None, Idle);
    }
  }

  lemma RelStartKeeps(s: State, t: Thread, h: nat)
    requires Inv(s)
    ensures Inv(RelStartStep(s, t, h))
  {
    hide CountInv, HandlesOn;
    CountsStay(s, RelStartStep(s, t, h));
  }

  lemma RelLockKeeps(s: State, t: Thread)
    requires Inv(s)
    ensures Inv(RelLockStep(s, t))
  {
    hide CountInv, HandlesOn, ExclusiveInv, RegistryInv, ClosingInv;
    if RelLockStep(s, t) != s {
      OwnPlace(s, t);
      RegistryTaken(s, t, RelCounting(PcOf(s, t).h));
    }
  }

  lemma HandleGoesThreads(s: State, t: Thread, h: nat)
    requires Inv(s) && PcOf(s, t) == RelCounting(h) && Holds(s, h)
    requires CountInv(Uncount(s, s.refs[h], h)) && Uncount(s, s.refs[h], h).coords[s.refs[h]].registered
    ensures ThreadsInv(At(FreeRegistry(Uncount(s, s.refs[h], h), t.pid), t, Idle))
  {
    hide CountInv, HandlesOn;
    var v := At(FreeRegistry(Uncount(s, s.refs[h], h), t.pid), t, Idle);
    forall u <- v.pcs ensures ThreadInv(v, u, v.pcs[u]) {
      if u != t {
        assert ThreadInv(s, u, s.pcs[u]) && HandleOf(s.pcs[u]) != Some(h);
      }
    }
  }

  /** A handle goes and others remain. */
  lemma HandleGoes(s: State, t: Thread, h: nat)
    requires Inv(s) && PcOf(s, t) == RelCounting(h) && Holds(s, h)
    requires CountInv(Uncount(s, s.refs[h], h)) && Uncount(s, s.refs[h], h).coords[s.refs[h]].registered
    ensures Inv(At(FreeRegistry(Uncount(s, s.refs[h], h), t.pid), t, Idle))
  {
    hide CountInv, HandlesOn, ThreadsInv;
    var v := At(FreeRegistry(Uncount(s, s.refs[h], h), t.pid), t, Idle);
    CountsStay(Uncount(s, s.refs[h], h), v);
    HandleGoesThreads(s, t, h);
  }

  lemma LastHandleGoesThreads(s: State, t: Thread, h: nat)
    requires Inv(s) && PcOf(s, t) == RelCounting(h) && Holds(s, h)
    requires CountInv(Uncount(s, s.refs[h], h)) && !Uncount(s, s.refs[h], h).coords[s.refs[h]].registered
    requires HandlesOn(Uncount(s, s.refs[h], h), s.refs[h]) == {}
    ensures ThreadsInv(At(Uncount(s, s.refs[h], h), t, RelClosing(s.refs[h])))
  {
    hide CountInv, HandlesOn;
    var v := At(Uncount(s, s.refs[h], h), t, RelClosing(s.refs[h]));
    NoHandleLeft(Uncount(s, s.refs[h], h), s.refs[h]);
    assert ThreadInv(s, t, s.pcs[t]);
    forall u <- v.pcs ensures ThreadInv(v, u, v.pcs[u]) {
      if u != t {
        assert ThreadInv(s, u, s.pcs[u]) && HandleOf(s.pcs[u]) != Some(h);
      }
    }
  }

  /** The last handle goes: its object is unlinked, and the registry stays locked until it is closed. */
  lemma LastHandleGoes(s: State, t: Thread, h: nat)
    requires Inv(s) && PcOf(s, t) == RelCounting(h) && Holds(s, h)
    requires CountInv(Uncount(s, s.refs[h], h)) && !Uncount(s, s.refs[h], h).coords[s.refs[h]].registered
    requires HandlesOn(Uncount(s, s.refs[h], h), s.refs[h]) == {}
    ensures Inv(At(Uncount(s, s.refs[h], h), t, RelClosing(s.refs[h])))
  {
    hide CountInv, HandlesOn, ThreadsInv;
    var v := At(Uncount(s, s.refs[h], h), t, RelClosing(s.refs[h]));
    CountsStay(Uncount(s, s.refs[h], h), v);
    NoHandleLeft(Uncount(s, s.refs[h], h), s.refs[h]);
    OwnPlace(s, t);
    LastHandleGoesThreads(s, t, h);
  }

  lemma RelCountKeeps(s: State, t: Thread)
    requires Inv(s)
    ensures Inv(RelCountStep(s, t))
  {
    hide CountInv, HandlesOn;
    var pc := PcOf(s, t);
    if pc.RelCounting? && Holds(s, pc.h) {
      var v := Uncount(s, s.refs[pc.h], pc.h);
      CountsShrink(s, pc.h);
      if v.coords[s.refs[pc.h]].registered {
        HandleGoes(s, t, pc.h);
      } else {
        LastHandleGoes(s, t, pc.h);
      }
    }
  }

  lemma ObjectGoesThreads(s: State, t: Thread, c: nat)
    requires Inv(s) && PcOf(s, t) == RelClosing(c) && c in s.coords
    ensures ThreadsInv(At(Close(s, t.pid, s.coords[c].ino).(coords := s.coords - {c}), t, RelLeaving))
  {
    hide CountInv, HandlesOn;
    var v := At(Close(s, t.pid, s.coords[c].ino).(coords := s.coords - {c}), t, RelLeaving);
    assert ThreadInv(s, t, s.pcs[t]);
    forall u <- v.pcs ensures ThreadInv(v, u, v.pcs[u]) {
      if u != t {
        assert ThreadInv(s, u, s.pcs[u]);
      }
    }
  }

  lemma ObjectGoes(s: State, t: Thread, c: nat)
    requires Inv(s) && PcOf(s, t) == RelClosing(c) && c in s.coords
    ensures Inv(At(Close(s, t.pid, s.coords[c].ino).(coords := s.coords - {c}), t, RelLeaving))
  {
    hide CountInv, HandlesOn, ThreadsInv;
    var v := At(Close(s, t.pid, s.coords[c].ino).(coords := s.coords - {c}), t, RelLeaving);
    CountsStay(s, v);
    OwnPlace(s, t);
    ObjectGoesThreads(s, t, c);
  }

  lemma RelCloseKeeps(s: State, t: Thread)
    requires Inv(s)
    ensures Inv(RelCloseStep(s, t))
  {
    hide CountInv, HandlesOn;
    var pc := PcOf(s, t);
    if pc.RelClosing? && pc.c in s.coords {
      ObjectGoes(s, t, pc.c);
    }
  }

  lemma RelUnlockKeeps(s: State, t: Thread)
    requires Inv(s)
    ensures Inv(RelUnlockStep(s, t))
  {
    hide CountInv, HandlesOn;
    if PcOf(s, t).RelLeaving? {
      RegistryLeft(s, t, Idle);
    }
  }

  lemma DeathKeeps(s: State, pid: Pid)
    requires Inv(s)
    ensures Inv(Death(s, pid))
  {
    hide CountInv, HandlesOn;
    DeathCounts(s, pid);
  }

  lemma DeathCounts(s: State, pid: Pid)
    requires CountInv(s)
    ensures CountInv(Death(s, pid))
  {
    var v := Death(s, pid);
    forall c <- v.coords ensures v.coords[c].refcount == |HandlesOn(v, c)| {
      assert HandlesOn(v, c) == HandlesOn(s, c);
    }
  }

  // ---- the theorems ----

  lemma StartIsGood(path: Option<Ino>)
    ensures Inv(Start(path))
  {}

  lemma StepKeeps(s: State, a: Action)
    requires Inv(s)
    ensures Inv(Do(s, a))
  {
    hide Inv, AcqLockStep, AcqHitStep, AcqMissStep, AcqOpenStep, AcqRaceStep, AcqNewStep, AcqMutexStep, AcqCloseStep,
      AcqUnlockStep, EnterStartStep, EnterMutexStep, EnterLockStep, EnterFailStep, ExitUnlockStep, ExitMutexStep,
      RelStartStep, RelLockStep, RelCountStep, RelCloseStep, RelUnlockStep, Death;
    match a
    case AcqLock(t) => AcqLockKeeps(s, t);
    case AcqHit(t, c, h) => AcqHitKeeps(s, t, c, h);
    case AcqMiss(t) => AcqMissKeeps(s, t);
    case AcqOpen(t, created) => AcqOpenKeeps(s, t, created);
    case AcqRace(t, c, h) => AcqRaceKeeps(s, t, c, h);
    case AcqNew(t, c, h) => AcqNewKeeps(s, t, c, h);
    case AcqMutex(t) => AcqMutexKeeps(s, t);
    case AcqClose(t) => AcqCloseKeeps(s, t);
    case AcqUnlock(t) => AcqUnlockKeeps(s, t);
    case EnterStart(t, h) => EnterStartKeeps(s, t, h);
    case EnterMutex(t) => EnterMutexKeeps(s, t);
    case EnterLock(t) => EnterLockKeeps(s, t);
    case EnterFail(t) => EnterFailKeeps(s, t);
    case ExitUnlock(t) => ExitUnlockKeeps(s, t);
    case ExitMutex(t) => ExitMutexKeeps(s, t);
    case RelStart(t, h) => RelStartKeeps(s, t, h);
    case RelLock(t) => RelLockKeeps(s, t);
    case RelCount(t) => RelCountKeeps(s, t);
    case RelClose(t) => RelCloseKeeps(s, t);
    case RelUnlock(t) => RelUnlockKeeps(s, t);
    case Recreate(newPath) => RecreateKeeps(s, newPath);
    case Die(pid) => DeathKeeps(s, pid);
  }

  lemma RecreateKeeps(s: State, newPath: Option<Ino>)
    requires Inv(s)
    ensures Inv(s.(path := newPath))
  {
    CountsStay(s, s.(path := newPath));
  }

  lemma {:induction false} RunKeeps(s: State, actions: seq<Action>)
    requires Inv(s)
    ensures Inv(Run(s, actions))
    decreases actions
  {
    hide Inv, Do;
    if actions != [] {
      StepKeeps(s, actions[0]);
      RunKeeps(Do(s, actions[0]), actions[1..]);
    }
  }

  /** Thread t is between enter and exit on this lock file. */
  predicate InSection(s: State, t: Thread, ino: Ino) {
    PcOf(s, t).Inside? && Holds(s, PcOf(s, t).h) && s.coords[s.refs[PcOf(s, t).h]].ino == ino
  }

  /** In every reachable state, at most one thread of all processes is inside the critical section of a lock file. */
  lemma {:induction false} MutualExclusion(path: Option<Ino>, actions: seq<Action>, t: Thread, u: Thread, ino: Ino)
    requires var s := Run(Start(path), actions); InSection(s, t, ino) && InSection(s, u, ino)
    ensures t == u
  {
    hide Run;
    var s := Run(Start(path), actions);
    StartIsGood(path);
    RunKeeps(Start(path), actions);
    OwnPlace(s, t);
    OwnPlace(s, u);
    MutexKeepsOut(s, t, u);
  }

  /** In every reachable state, whoever is inside holds the record lock, so other processes are kept out. */
  lemma {:induction false} InsideIsLocked(path: Option<Ino>, actions: seq<Action>, t: Thread, ino: Ino)
    requires InSection(Run(Start(path), actions), t, ino)
    ensures var s := Run(Start(path), actions); ino in s.locks && s.locks[ino] == t.pid
  {
    hide Run;
    StartIsGood(path);
    RunKeeps(Start(path), actions);
    OwnPlace(Run(Start(path), actions), t);
  }

  /**
   * No close, of a redundant descriptor or by the last handle, takes away a record lock that anyone inside
   * relies on.
   */
  lemma {:induction false} CloseHurtsNobody(path: Option<Ino>, actions: seq<Action>, a: Action, t: Thread, ino: Ino)
    requires a.AcqClose? || a.RelClose?
    requires InSection(Run(Start(path), actions), t, ino)
    ensures var v := Do(Run(Start(path), actions), a);
      InSection(v, t, ino) && ino in v.locks && v.locks[ino] == t.pid
  {
    hide Run;
    var s := Run(Start(path), actions);
    StartIsGood(path);
    RunKeeps(Start(path), actions);
    OwnPlace(s, t);
    StepKeeps(s, a);
    StaysInside(s, a, t, ino);
    OwnPlace(Do(s, a), t);
  }

  lemma StaysInside(s: State, a: Action, t: Thread, ino: Ino)
    requires (a.AcqClose? || a.RelClose?) && Inv(s) && InSection(s, t, ino)
    ensures InSection(Do(s, a), t, ino) && t in Do(s, a).pcs
  {
    hide CountInv, HandlesOn, ExclusiveInv, UniqueInv;
    OwnPlace(s, t);
    if a.t in s.pcs {
      OwnPlace(s, a.t);
    }
  }
}
