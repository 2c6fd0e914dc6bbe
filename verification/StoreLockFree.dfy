/**
 * Whatever is taken is given back. In every reachable state a registry lock, a mutex, a record lock and an object have
 * somebody who uses them; so a thread is only ever kept waiting by another at work, and no state is a deadlock.
 */
module StoreLockFree {
  import opened Options
  import opened StoreLock

  /** The thread is somewhere between locking and unlocking its process's registry. */
  predicate InRegistry(s: State, t: Thread, pid: Pid) {
    t.pid == pid && HoldsRegistry(PcOf(s, t))
  }

  /** The thread is somewhere between locking and unlocking this object's mutex. */
  predicate InMutex(s: State, t: Thread, c: nat) {
    var pc := PcOf(s, t);
    HoldsMutex(pc) && HandleOf(pc).Some? && Holds(s, HandleOf(pc).value) && s.refs[HandleOf(pc).value] == c
  }

  predicate RegistryUsed(s: State) {
    forall p <- s.registry :: InRegistry(s, s.registry[p], p)
  }

  predicate MutexesUsed(s: State) {
    forall c <- s.coords :: s.coords[c].mutex.Some? ==> InMutex(s, s.coords[c].mutex.value, c)
  }

  /** The process that has a record lock has a thread inside. */
  predicate LocksUsed(s: State) {
    forall i <- s.locks :: exists t <- s.pcs :: t.pid == s.locks[i] && InSection(s, t, i)
  }

  /** A registered object has a handle. */
  predicate ObjectsUsed(s: State) {
    forall c <- s.coords :: s.coords[c].registered ==> exists h <- s.refs :: s.refs[h] == c
  }

  predicate AllUsed(s: State) {
    RegistryUsed(s) && MutexesUsed(s) && LocksUsed(s) && ObjectsUsed(s)
  }

  // ---- one thread moves ----

  /** Its process's registry lock stays, comes or goes with it. */
  predicate RegistryMoves(s: State, v: State, t: Thread) {
    || (v.registry == s.registry && (HoldsRegistry(PcOf(s, t)) ==> HoldsRegistry(PcOf(v, t))))
    || (v.registry == s.registry[t.pid := t] && HoldsRegistry(PcOf(v, t)))
    || v.registry == s.registry - {t.pid}
  }

  /** A mutex is another's, as before, or its own, on the object it works with. */
  predicate MutexesMove(s: State, v: State, t: Thread) {
    forall c <- v.coords :: v.coords[c].mutex.Some? ==>
      || (c in s.coords && v.coords[c].mutex == s.coords[c].mutex && v.coords[c].mutex.value != t)
      || (v.coords[c].mutex.value == t && InMutex(v, t, c))
  }

  /** Whoever else has a mutex keeps its handle, on the same file. */
  predicate OthersStay(s: State, v: State, t: Thread) {
    forall u <- s.pcs :: u != t && HandleOf(s.pcs[u]).Some? && HoldsMutex(s.pcs[u]) ==>
      var h := HandleOf(s.pcs[u]).value;
      Holds(s, h) && Holds(v, h) && v.refs[h] == s.refs[h] && v.coords[v.refs[h]].ino == s.coords[s.refs[h]].ino
  }

  /** A record lock is an old one, on a file it is not leaving, or its own, on the file it is inside. */
  predicate LocksMove(s: State, v: State, t: Thread) {
    forall i <- v.locks ::
      || (i in s.locks && v.locks[i] == s.locks[i] && (InSection(s, t, i) ==> InSection(v, t, i)))
      || (v.locks[i] == t.pid && InSection(v, t, i))
  }

  predicate Moves(s: State, v: State, t: Thread) {
    && v.pcs == s.pcs[t := PcOf(v, t)]
    && RegistryMoves(s, v, t) && MutexesMove(s, v, t) && OthersStay(s, v, t) && LocksMove(s, v, t)
  }

  lemma MovesKeepMutexes(s: State, v: State, t: Thread)
    requires v.pcs == s.pcs[t := PcOf(v, t)] && MutexesMove(s, v, t) && OthersStay(s, v, t) && MutexesUsed(s)
    ensures MutexesUsed(v)
  {
    forall c <- v.coords | v.coords[c].mutex.Some? ensures InMutex(v, v.coords[c].mutex.value, c) {
      if c in s.coords && v.coords[c].mutex == s.coords[c].mutex && v.coords[c].mutex.value != t {
        assert InMutex(s, v.coords[c].mutex.value, c);
      }
    }
  }

  lemma MovesKeepLocks(s: State, v: State, t: Thread)
    requires v.pcs == s.pcs[t := PcOf(v, t)] && LocksMove(s, v, t) && OthersStay(s, v, t) && LocksUsed(s)
    ensures LocksUsed(v)
  {
    forall i <- v.locks ensures exists u <- v.pcs :: u.pid == v.locks[i] && InSection(v, u, i) {
      if v.locks[i] == t.pid && InSection(v, t, i) {
        assert t in v.pcs;
      } else {
        var u :| u in s.pcs && u.pid == s.locks[i] && InSection(s, u, i);
        assert u in v.pcs && InSection(v, u, i);
      }
    }
  }

  lemma MovesKeep(s: State, v: State, t: Thread)
    requires Moves(s, v, t) && RegistryUsed(s) && MutexesUsed(s) && LocksUsed(s)
    ensures RegistryUsed(v) && MutexesUsed(v) && LocksUsed(v)
  {
    hide MutexesMove, LocksMove, OthersStay, MutexesUsed, LocksUsed;
    MovesKeepMutexes(s, v, t);
    MovesKeepLocks(s, v, t);
  }

  /** A thread that is in no mutex has none; one that is in the mutex of an object has no other. */
  lemma OwnMutexes(s: State, t: Thread)
    requires MutexesUsed(s)
    ensures !HoldsMutex(PcOf(s, t)) ==> forall c <- s.coords :: s.coords[c].mutex != Some(t)
    ensures HoldsMutex(PcOf(s, t)) && HandleOf(PcOf(s, t)).Some? ==>
      forall c <- s.coords :: s.coords[c].mutex == Some(t) ==> InMutex(s, t, c)
  {
    forall c <- s.coords | s.coords[c].mutex == Some(t) ensures InMutex(s, t, c) {}
  }

  /** It moves, its process's registry lock perhaps with it, and nothing else changes. */
  lemma PlainMoves(s: State, v: State, t: Thread)
    requires ThreadsInv(s) && MutexesUsed(s) && !HoldsMutex(PcOf(s, t)) && !HoldsMutex(PcOf(v, t))
    requires v.pcs == s.pcs[t := PcOf(v, t)] && RegistryMoves(s, v, t)
    requires v.coords == s.coords && v.refs == s.refs && v.locks == s.locks
    ensures Moves(s, v, t)
  {
    hide MutexesUsed, ThreadsInv, RegistryMoves;
    OthersHold(s, t);
    OwnMutexes(s, t);
  }

  lemma PlainStep(s: State, a: Action)
    requires ThreadsInv(s) && MutexesUsed(s) && Do(s, a) != s
    requires a.AcqLock? || a.AcqMiss? || a.AcqOpen? || a.EnterStart? || a.RelStart? || a.RelLock? || a.RelUnlock?
    ensures Moves(s, Do(s, a), a.t)
  {
    hide MutexesUsed, ThreadsInv, Unknown, Owned, Shareable, Unused, Moves;
    PlainMoves(s, Do(s, a), a.t);
  }

  /** It takes or gives back the mutex of the object it works with. */
  lemma OneMutexMoves(s: State, t: Thread, h: nat, owner: Option<Thread>, pc: Pc)
    requires ThreadsInv(s) && MutexesUsed(s) && HandleOf(PcOf(s, t)) == Some(h) && Holds(s, h)
    requires !HoldsRegistry(PcOf(s, t)) && !PcOf(s, t).Inside?
    requires owner in {None, Some(t)} && (owner.Some? <==> HoldsMutex(pc)) && (owner.Some? ==> HandleOf(pc) == Some(h))
    ensures Moves(s, At(SetMutex(s, s.refs[h], owner), t, pc), t)
  {
    hide MutexesUsed, ThreadsInv;
    OthersHold(s, t);
    OwnMutexes(s, t);
  }

  lemma MutexStep(s: State, a: Action)
    requires ThreadsInv(s) && MutexesUsed(s) && Do(s, a) != s
    requires a.AcqMutex? || a.AcqUnlock? || a.EnterMutex? || a.EnterFail? || a.ExitMutex?
    ensures Moves(s, Do(s, a), a.t)
  {
    hide MutexesUsed, ThreadsInv, Moves;
    var pc := PcOf(s, a.t);
    OneMutexMoves(s, a.t, HandleOf(pc).value, if a.AcqMutex? || a.EnterMutex? then Some(a.t) else None,
                  PcOf(Do(s, a), a.t));
  }

  /** It takes or gives up record locks, its mutex in hand. */
  lemma LockStep(s: State, a: Action)
    requires Inv(s) && MutexesUsed(s) && Do(s, a) != s
    requires a.EnterLock? || a.ExitUnlock? || a.AcqClose?
    ensures Moves(s, Do(s, a), a.t)
  {
    hide MutexesUsed, ThreadsInv, CountInv, HandlesOn, ClosingInv, RegistryInv, RefsInv, UniqueInv, ExclusiveInv;
    OthersHold(s, a.t);
    OwnMutexes(s, a.t);
    OwnPlace(s, a.t);
  }

  lemma CountStep(s: State, a: Action)
    requires Inv(s) && MutexesUsed(s) && Do(s, a) != s
    requires a.AcqHit? || a.AcqRace? || a.AcqNew?
    ensures Moves(s, Do(s, a), a.t)
  {
    hide MutexesUsed, ThreadsInv, CountInv, HandlesOn, ClosingInv, RegistryInv, RefsInv, UniqueInv, ExclusiveInv,
      Unknown;
    OthersHold(s, a.t);
    OwnMutexes(s, a.t);
  }

  lemma UncountStep(s: State, a: Action)
    requires Inv(s) && MutexesUsed(s) && Do(s, a) != s && a.RelCount?
    ensures Moves(s, Do(s, a), a.t)
  {
    hide MutexesUsed, ThreadsInv, CountInv, HandlesOn, ClosingInv, RegistryInv, RefsInv, UniqueInv;
    OthersHold(s, a.t);
    OwnMutexes(s, a.t);
  }

  lemma CloseStep(s: State, a: Action)
    requires Inv(s) && MutexesUsed(s) && Do(s, a) != s && a.RelClose?
    ensures Moves(s, Do(s, a), a.t)
  {
    hide MutexesUsed, ThreadsInv, CountInv, HandlesOn, ClosingInv, RegistryInv, UniqueInv, ExclusiveInv;
    OthersHold(s, a.t);
    OwnMutexes(s, a.t);
    OwnPlace(s, a.t);
  }

  /** Whoever else has a mutex has a handle. */
  lemma OthersHold(s: State, t: Thread)
    requires ThreadsInv(s)
    ensures OthersStay(s, s, t)
  {
    forall u <- s.pcs | u != t && HandleOf(s.pcs[u]).Some? && HoldsMutex(s.pcs[u])
      ensures Holds(s, HandleOf(s.pcs[u]).value)
    {
      OwnPlace(s, u);
    }
  }

  lemma DeathUsed(s: State, pid: Pid)
    requires AllUsed(s) && ThreadsInv(s)
    ensures AllUsed(Death(s, pid))
  {
    var v := Death(s, pid);
    forall c <- v.coords | v.coords[c].mutex.Some? ensures InMutex(v, v.coords[c].mutex.value, c) {
      assert InMutex(s, s.coords[c].mutex.value, c);
      OwnPlace(s, s.coords[c].mutex.value);
    }
    forall i <- v.locks ensures exists u <- v.pcs :: u.pid == v.locks[i] && InSection(v, u, i) {
      var u :| u in s.pcs && u.pid == s.locks[i] && InSection(s, u, i);
      OwnPlace(s, u);
      assert u in v.pcs && InSection(v, u, i);
    }
    forall c <- v.coords | v.coords[c].registered ensures exists h <- v.refs :: v.refs[h] == c {
      var h :| h in s.refs && s.refs[h] == c;
      assert h in v.refs;
    }
  }

  lemma ObjectsStep(s: State, a: Action)
    requires Inv(s) && ObjectsUsed(s) && !a.RelCount? && !a.Die?
    ensures ObjectsUsed(Do(s, a))
  {
    hide Inv;
    var v := Do(s, a);
    assert forall h <- s.refs :: h in v.refs && v.refs[h] == s.refs[h];
    forall c <- v.coords | v.coords[c].registered ensures exists h <- v.refs :: v.refs[h] == c {
      if c in s.coords && s.coords[c].registered {
        var h :| h in s.refs && s.refs[h] == c;
        assert h in v.refs;
      } else {
        assert a.AcqNew? && a.newHandle in v.refs && v.refs[a.newHandle] == c;
      }
    }
  }

  /** Counting a handle out leaves an object registered only if another handle is left. */
  lemma UncountUsed(s: State, t: Thread)
    requires Inv(s) && ObjectsUsed(s)
    ensures ObjectsUsed(RelCountStep(s, t))
  {
    hide UniqueInv, ClosingInv, RegistryInv, ThreadsInv, ExclusiveInv;
    var pc := PcOf(s, t);
    if pc.RelCounting? && Holds(s, pc.h) {
      var c, v := s.refs[pc.h], Uncount(s, s.refs[pc.h], pc.h);
      CountsShrink(s, pc.h);
      forall d <- v.coords | v.coords[d].registered ensures exists h <- v.refs :: v.refs[h] == d {
        if d == c {
          assert |HandlesOn(v, c)| > 0;
          var h :| h in HandlesOn(v, c);
          assert h in v.refs;
        } else {
          var h :| h in s.refs && s.refs[h] == d;
          assert h in v.refs;
        }
      }
    }
  }

  lemma ActorMoves(s: State, a: Action)
    requires Inv(s) && MutexesUsed(s) && Do(s, a) != s && !a.Recreate? && !a.Die?
    ensures Moves(s, Do(s, a), a.t)
  {
    hide Inv, MutexesUsed, Do, Moves;
    assert ThreadsInv(s) by { InvHasThreads(s); }
    if a.EnterLock? || a.ExitUnlock? || a.AcqClose? {
      LockStep(s, a);
    } else if a.AcqHit? || a.AcqRace? || a.AcqNew? {
      CountStep(s, a);
    } else if a.RelCount? {
      UncountStep(s, a);
    } else if a.RelClose? {
      CloseStep(s, a);
    } else if a.AcqMutex? || a.AcqUnlock? || a.EnterMutex? || a.EnterFail? || a.ExitMutex? {
      MutexStep(s, a);
    } else {
      PlainStep(s, a);
    }
  }

  lemma InvHasThreads(s: State)
    requires Inv(s)
    ensures ThreadsInv(s)
  {
    hide ThreadsInv, CountInv;
  }

  /** Every step, every death and every re-creation of the lock file keeps it. */
  lemma StepUses(s: State, a: Action)
    requires Inv(s) && AllUsed(s)
    ensures AllUsed(Do(s, a))
  {
    hide Inv, RegistryUsed, MutexesUsed, LocksUsed, ObjectsUsed, Moves;
    if a.Die? {
      InvHasThreads(s);
      DeathUsed(s, a.pid);
    } else if a.Recreate? {
      RecreateUses(s, a.newPath);
    } else {
      if Do(s, a) != s {
        ActorMoves(s, a);
        MovesKeep(s, Do(s, a), a.t);
      }
      if a.RelCount? {
        UncountUsed(s, a.t);
      } else {
        ObjectsStep(s, a);
      }
    }
  }

  lemma RecreateUses(s: State, path: Option<Ino>)
    requires AllUsed(s)
    ensures AllUsed(s.(path := path))
  {
    var v := s.(path := path);
    forall c <- v.coords | v.coords[c].mutex.Some? ensures InMutex(v, v.coords[c].mutex.value, c) {
      assert InMutex(s, s.coords[c].mutex.value, c);
    }
    forall i <- v.locks ensures exists t <- v.pcs :: t.pid == v.locks[i] && InSection(v, t, i) {
      var t :| t in s.pcs && t.pid == s.locks[i] && InSection(s, t, i);
      assert InSection(v, t, i);
    }
  }

  lemma {:induction false} RunUses(s: State, actions: seq<Action>)
    requires Inv(s) && AllUsed(s)
    ensures Inv(Run(s, actions)) && AllUsed(Run(s, actions))
    decreases actions
  {
    hide Inv, AllUsed, Do;
    if actions != [] {
      StepKeeps(s, actions[0]);
      StepUses(s, actions[0]);
      RunUses(Do(s, actions[0]), actions[1..]);
    }
  }

  lemma Reachable(path: Option<Ino>, actions: seq<Action>)
    ensures Inv(Run(Start(path), actions)) && AllUsed(Run(Start(path), actions))
  {
    hide Inv, Run;
    StartIsGood(path);
    RunUses(Start(path), actions);
  }

  // ---- what follows ----

  /** In every reachable state, a process that has the record lock on a file has a thread inside on that file. */
  lemma {:induction false} LockIsUsed(path: Option<Ino>, actions: seq<Action>, ino: Ino)
    requires ino in Run(Start(path), actions).locks
    ensures var s := Run(Start(path), actions);
      exists t <- s.pcs :: t.pid == s.locks[ino] && InSection(s, t, ino)
  {
    hide Run, Inv, RegistryUsed, MutexesUsed, ObjectsUsed;
    Reachable(path, actions);
  }

  /**
   * So a thread that asks for the record lock gets inside if and only if no thread of another process is inside on the
   * same file.
   */
  lemma {:induction false} EnterGetsIn(path: Option<Ino>, actions: seq<Action>, t: Thread, h: nat)
    requires PcOf(Run(Start(path), actions), t) == Locking(h)
    ensures var s := Run(Start(path), actions);
      && Holds(s, h)
      && var ino := s.coords[s.refs[h]].ino;
      (PcOf(Do(s, EnterLock(t)), t) == Inside(h)) <==> (forall u <- s.pcs :: InSection(s, u, ino) ==> u.pid == t.pid)
  {
    hide Run, CountInv, ClosingInv, RegistryInv, UniqueInv, ExclusiveInv, RegistryUsed, MutexesUsed, ObjectsUsed;
    var s := Run(Start(path), actions);
    Reachable(path, actions);
    OwnPlace(s, t);
    var ino := s.coords[s.refs[h]].ino;
    forall u <- s.pcs | InSection(s, u, ino) ensures ino in s.locks && s.locks[ino] == u.pid {
      OwnPlace(s, u);
    }
  }

  /**
   * When every thread is idle nothing is taken: no registry lock, no mutex, no record lock, no object without
   * handle.
   */
  lemma {:induction false} IdleIsFree(path: Option<Ino>, actions: seq<Action>)
    requires forall t <- Run(Start(path), actions).pcs :: Run(Start(path), actions).pcs[t] == Idle
    ensures var s := Run(Start(path), actions);
      && s.registry == map[] && s.locks == map[]
      && (forall c <- s.coords :: s.coords[c].mutex == None && s.coords[c].registered)
      && (forall c <- s.coords :: exists h <- s.refs :: s.refs[h] == c)
  {
    hide Run, CountInv, UniqueInv, ExclusiveInv, ThreadsInv;
    Reachable(path, actions);
  }

  // ---- no deadlock ----

  lemma {:induction false} Above(s: set<nat>) returns (n: nat)
    ensures forall x <- s :: x < n
    decreases s
  {
    if s == {} {
      n := 0;
    } else {
      var x :| x in s;
      var m := Above(s - {x});
      n := if x < m then m else x + 1;
      forall y <- s ensures y < n {
        assert y == x || y in s - {x};
      }
    }
  }

  /** A thread at work takes a step of its own, and not one that gives up. */
  predicate Advances(s: State, a: Action) {
    && !a.Recreate? && !a.Die? && !a.EnterFail?
    && PcOf(s, a.t) != Idle && PcOf(Do(s, a), a.t) != PcOf(s, a.t)
  }

  /** Whoever has its process's registry lock can go on. */
  lemma RegistryAdvances(s: State, t: Thread) returns (a: Action)
    requires ThreadsInv(s) && HoldsRegistry(PcOf(s, t))
    ensures Advances(s, a)
  {
    var pc := PcOf(s, t);
    OwnPlace(s, t);
    hide ThreadsInv, ThreadInv;
    var h := Above(s.refs.Keys);
    var d := Above(s.coords.Keys);
    assert h !in s.refs && d !in s.coords;
    match pc
    case AcqLooking =>
      if s.path.None? || Unknown(s, t.pid, s.path.value) {
        a := AcqMiss(t);
      } else {
        var c :| c in s.coords && Names(s, c, t.pid, s.path.value);
        a := AcqHit(t, c, h);
      }
    case AcqOpening => a := AcqOpen(t, 0);
    case AcqOpened(fd) =>
      if Unknown(s, t.pid, fd) {
        a := AcqNew(t, d, h);
      } else {
        var c :| c in s.coords && Names(s, c, t.pid, fd);
        a := AcqRace(t, c, h);
      }
    case RelCounting(_) => a := RelCount(t);
    case RelClosing(_) => a := RelClose(t);
    case RelLeaving => a := RelUnlock(t);
  }

  /** So can whoever waits for a record lock, or whoever is inside where it waits. */
  lemma LockingAdvances(s: State, t: Thread) returns (a: Action)
    requires ThreadsInv(s) && LocksUsed(s) && PcOf(s, t).Locking?
    ensures Advances(s, a)
  {
    OwnPlace(s, t);
    hide ThreadsInv, ThreadInv;
    var ino := s.coords[s.refs[PcOf(s, t).h]].ino;
    if Grantable(s, t.pid, ino) {
      a := EnterLock(t);
    } else {
      var u :| u in s.pcs && u.pid == s.locks[ino] && InSection(s, u, ino);
      a := ExitUnlock(u);
    }
  }

  /** So can whoever has an object's mutex, or whoever is inside where it waits for the record lock. */
  lemma MutexAdvances(s: State, t: Thread) returns (a: Action)
    requires ThreadsInv(s) && LocksUsed(s) && HoldsMutex(PcOf(s, t))
    ensures Advances(s, a)
  {
    hide LocksUsed;
    var pc := PcOf(s, t);
    OwnPlace(s, t);
    hide ThreadsInv, ThreadInv;
    match pc
    case AcqClosing(_, _) => a := AcqClose(t);
    case AcqLeaving(_) => a := AcqUnlock(t);
    case Locking(_) => a := LockingAdvances(s, t);
    case Inside(_) => a := ExitUnlock(t);
    case Leaving(_) => a := ExitMutex(t);
  }

  /** In every reachable state in which some thread is at work, some thread at work can go on. */
  lemma NoDeadlock(path: Option<Ino>, actions: seq<Action>, t: Thread) returns (a: Action)
    requires PcOf(Run(Start(path), actions), t) != Idle
    ensures Advances(Run(Start(path), actions), a)
  {
    hide Run, CountInv, ClosingInv, RegistryInv, UniqueInv, ExclusiveInv, RefsInv, LocksUsed, ObjectsUsed, ThreadsInv;
    var s := Run(Start(path), actions);
    Reachable(path, actions);
    OwnPlace(s, t);
    var pc := PcOf(s, t);
    if HoldsRegistry(pc) {
      a := RegistryAdvances(s, t);
    } else if HoldsMutex(pc) {
      a := MutexAdvances(s, t);
    } else if pc.Releasing? {
      if t.pid in s.registry {
        a := RegistryAdvances(s, s.registry[t.pid]);
      } else {
        a := RelLock(t);
      }
    } else {
      var h := HandleOf(pc).value;
      var c := s.refs[h];
      if s.coords[c].mutex.Some? {
        a := MutexAdvances(s, s.coords[c].mutex.value);
      } else {
        a := if pc.Entering? then EnterMutex(t) else AcqMutex(t);
      }
    }
  }
}
