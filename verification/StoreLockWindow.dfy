/**
 * Why the last release closes its descriptor before it unlocks the registry. With the two steps the
 * other way round there is a run that ends with two processes inside the same critical section.
 */
module StoreLockWindow {
  import opened Options
  import opened StoreLock

  /** The other ordering: the registry is unlocked as soon as the object is unlinked, and the close comes later. */
  function EarlyUnlock(s: State, t: Thread): State {
    var v := RelCountStep(s, t);
    if PcOf(v, t).RelClosing? then FreeRegistry(v, t.pid) else v
  }

  function DoEarly(s: State, a: Action): State {
    if a.RelCount? then EarlyUnlock(s, a.t) else Do(s, a)
  }

  function RunEarly(s: State, actions: seq<Action>): State
    decreases actions
  {
    if actions == [] then s else RunEarly(DoEarly(s, actions[0]), actions[1..])
  }

  lemma {:induction false} RunEarlyConcat(s: State, a: seq<Action>, b: seq<Action>)
    ensures RunEarly(s, a + b) == RunEarly(RunEarly(s, a), b)
    decreases a
  {
    hide DoEarly;
    if a == [] {
      assert a + b == b;
    } else {
      RunEarlyConcat(DoEarly(s, a[0]), a[1..], b);
      assert (a + b)[1..] == a[1..] + b;
    }
  }

  lemma ThreeSteps(s: State, a: Action, b: Action, c: Action)
    ensures RunEarly(s, [a, b, c]) == DoEarly(DoEarly(DoEarly(s, a), b), c)
  {
    hide DoEarly;
    var s2 := DoEarly(DoEarly(s, a), b);
    assert [a, b, c][1..] == [b, c] && [b, c][1..] == [c] && [c][1..] == [];
    assert RunEarly(s2, [c]) == RunEarly(DoEarly(s2, c), []);
  }

  lemma PutPut<K, V>(m: map<K, V>, k: K, a: V, b: V)
    ensures m[k := a][k := b] == m[k := b]
  {}

  lemma PutDrop<K, V>(m: map<K, V>, k: K, a: V)
    requires k !in m
    ensures m[k := a] - {k} == m
  {}

  /** A thread opens its process's first handle on file 7, as handle and object number k: lock, look, open, create. */
  function OpenActions(t: Thread, k: nat): seq<Action> {
    [AcqLock(t)] + [AcqMiss(t), AcqOpen(t, 7), AcqNew(t, k, k)]
  }

  function EnterActions(t: Thread, k: nat): seq<Action> {
    [EnterStart(t, k), EnterMutex(t), EnterLock(t)]
  }

  function Opened(s: State, t: Thread, k: nat): State {
    s.(pcs := s.pcs[t := Idle], coords := s.coords[k := Coord(t.pid, 7, 1, true, None)], refs := s.refs[k := k])
  }

  lemma Opens(s: State, t: Thread, k: nat)
    requires PcOf(s, t).Idle? && t.pid !in s.registry && s.path == Some(7) && Unknown(s, t.pid, 7)
    requires k !in s.coords && k !in s.refs
    ensures RunEarly(s, OpenActions(t, k)) == Opened(s, t, k)
  {
    hide RunEarly;
    var s1 := At(s.(registry := s.registry[t.pid := t]), t, AcqLooking);
    assert DoEarly(s, AcqLock(t)) == s1;
    OneStep(s, AcqLock(t));
    Creates(s, s1, t, k);
    RunEarlyConcat(s, [AcqLock(t)], [AcqMiss(t), AcqOpen(t, 7), AcqNew(t, k, k)]);
  }

  lemma OneStep(s: State, a: Action)
    ensures RunEarly(s, [a]) == DoEarly(s, a)
  {
    assert [a][1..] == [];
    assert RunEarly(DoEarly(s, a), []) == DoEarly(s, a);
  }

  lemma Creates(s: State, s1: State, t: Thread, k: nat)
    requires t.pid !in s.registry && s.path == Some(7) && Unknown(s, t.pid, 7)
    requires k !in s.coords && k !in s.refs
    requires s1 == At(s.(registry := s.registry[t.pid := t]), t, AcqLooking)
    ensures RunEarly(s1, [AcqMiss(t), AcqOpen(t, 7), AcqNew(t, k, k)]) == Opened(s, t, k)
  {
    hide RunEarly;
    ThreeSteps(s1, AcqMiss(t), AcqOpen(t, 7), AcqNew(t, k, k));
    PutPut(s.pcs, t, AcqLooking, AcqOpening);
    var s2 := At(s1, t, AcqOpening);
    assert Unknown(s1, t.pid, 7) by { SameObjects(s, s1, t.pid, 7); }
    assert DoEarly(s1, AcqMiss(t)) == s2;
    PutPut(s.pcs, t, AcqOpening, AcqOpened(7));
    var s3 := At(s2, t, AcqOpened(7));
    assert DoEarly(s2, AcqOpen(t, 7)) == s3;
    assert Unknown(s3, t.pid, 7) by { SameObjects(s, s3, t.pid, 7); }
    PutPut(s.pcs, t, AcqOpened(7), Idle);
    PutDrop(s.registry, t.pid, t);
    assert DoEarly(s3, AcqNew(t, k, k)) == Opened(s, t, k);
  }

  lemma SameObjects(s: State, v: State, pid: Pid, ino: Ino)
    requires v.coords == s.coords && Unknown(s, pid, ino)
    ensures Unknown(v, pid, ino)
  {
    forall c <- v.coords ensures !Names(v, c, pid, ino) {
      assert !Names(s, c, pid, ino);
    }
  }

  function Entered(s: State, t: Thread, k: nat): State
    requires k in s.coords
  {
    s.(pcs := s.pcs[t := Inside(k)], coords := s.coords[k := s.coords[k].(mutex := Some(t))],
       locks := s.locks[7 := t.pid])
  }

  lemma Enters(s: State, t: Thread, k: nat)
    requires PcOf(s, t).Idle? && k in s.refs && s.refs[k] == k && k in s.coords && Unused(s, k)
    requires s.coords[k].pid == t.pid && s.coords[k].ino == 7 && s.coords[k].mutex.None? && Grantable(s, t.pid, 7)
    ensures RunEarly(s, EnterActions(t, k)) == Entered(s, t, k)
  {
    hide RunEarly, Shareable;
    assert Shareable(s, k) by { UnusedIsShareable(s, k); }
    ThreeSteps(s, EnterStart(t, k), EnterMutex(t), EnterLock(t));
    var s1 := At(s, t, Entering(k));
    assert DoEarly(s, EnterStart(t, k)) == s1;
    PutPut(s.pcs, t, Entering(k), Locking(k));
    var s2 := At(SetMutex(s, k, Some(t)), t, Locking(k));
    assert DoEarly(s1, EnterMutex(t)) == s2;
    PutPut(s.pcs, t, Locking(k), Inside(k));
    assert DoEarly(s2, EnterLock(t)) == Entered(s, t, k);
  }

  lemma UnusedIsShareable(s: State, h: nat)
    requires Unused(s, h)
    ensures Shareable(s, h)
  {}

  const T1 := Thread(1, 1)
  const T2 := Thread(1, 2)
  const T3 := Thread(2, 1)

  function OneHandle(): State {
    State(Some(7), map[T1 := Idle], map[], map[0 := Coord(1, 7, 1, true, None)], map[0 := 0], map[])
  }

  function InWindow(): State {
    State(Some(7), map[T1 := RelClosing(0)], map[], map[0 := Coord(1, 7, 0, false, None)], map[], map[])
  }

  function Starting(): State {
    OneHandle().(pcs := map[T1 := Releasing(0)])
  }

  function Counting(): State {
    OneHandle().(pcs := map[T1 := RelCounting(0)], registry := map[1 := T1])
  }

  lemma StartsReleasing()
    ensures DoEarly(OneHandle(), RelStart(T1, 0)) == Starting()
  {}

  lemma TakesRegistry()
    ensures DoEarly(Starting(), RelLock(T1)) == Counting()
  {}

  lemma CountsOut()
    ensures DoEarly(Counting(), RelCount(T1)) == InWindow()
  {}

  /** The last handle goes, and its close is still to come. */
  lemma LeavesWindow()
    ensures RunEarly(OneHandle(), [RelStart(T1, 0), RelLock(T1), RelCount(T1)]) == InWindow()
  {
    hide RunEarly, DoEarly;
    ThreeSteps(OneHandle(), RelStart(T1, 0), RelLock(T1), RelCount(T1));
    StartsReleasing();
    TakesRegistry();
    CountsOut();
  }

  function SecondInside(): State {
    State(Some(7), map[T1 := RelClosing(0), T2 := Inside(1)], map[],
          map[0 := Coord(1, 7, 0, false, None), 1 := Coord(1, 7, 1, true, Some(T2))], map[1 := 1], map[7 := 1])
  }

  /** In the window another thread of the process opens the file anew and enters. */
  lemma SecondEnters()
    ensures RunEarly(InWindow(), OpenActions(T2, 1) + EnterActions(T2, 1)) == SecondInside()
  {
    hide RunEarly;
    var s := InWindow();
    RunEarlyConcat(s, OpenActions(T2, 1), EnterActions(T2, 1));
    Opens(s, T2, 1);
    Enters(Opened(s, T2, 1), T2, 1);
    assert Entered(Opened(s, T2, 1), T2, 1) == SecondInside();
  }

  function Exposed(): State {
    State(Some(7), map[T1 := RelLeaving, T2 := Inside(1)], map[],
          map[1 := Coord(1, 7, 1, true, Some(T2))], map[1 := 1], map[])
  }

  /** The late close takes the record lock the second thread relies on. */
  lemma ClosesLate()
    ensures RunEarly(SecondInside(), [RelClose(T1)]) == Exposed()
  {
    hide RunEarly;
    OneStep(SecondInside(), RelClose(T1));
    assert DoEarly(SecondInside(), RelClose(T1)) == Exposed();
  }

  /** Two threads of different processes end up inside the critical section of file 7. */
  lemma EarlyUnlockBreaksExclusion() returns (actions: seq<Action>)
    ensures var s := RunEarly(Start(Some(7)), actions);
      InSection(s, T2, 7) && InSection(s, T3, 7) && T2.pid != T3.pid
  {
    hide RunEarly, DoEarly, OpenActions, EnterActions;
    var start := Start(Some(7));
    var a, b := OpenActions(T1, 0), [RelStart(T1, 0), RelLock(T1), RelCount(T1)];
    var c, d := OpenActions(T2, 1) + EnterActions(T2, 1), [RelClose(T1)];
    var e, f := OpenActions(T3, 2), EnterActions(T3, 2);
    Opens(start, T1, 0);
    assert Opened(start, T1, 0) == OneHandle();
    LeavesWindow();
    SecondEnters();
    ClosesLate();
    Opens(Exposed(), T3, 2);
    Enters(Opened(Exposed(), T3, 2), T3, 2);
    RunEarlyConcat(start, a, b);
    RunEarlyConcat(start, a + b, c);
    RunEarlyConcat(start, a + b + c, d);
    RunEarlyConcat(start, a + b + c + d, e);
    RunEarlyConcat(start, a + b + c + d + e, f);
    actions := a + b + c + d + e + f;
  }
}
