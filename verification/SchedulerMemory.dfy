/**
 * What a cell remembers of its last commit: a leaf the very readings its frame was sealed from, and any cell the
 * witness its transition used up. That is what later readings and witnesses are compared with.
 */
module SchedulerMemory {
  import opened Bytes
  import opened Options
  import Ring
  import opened Frame
  import opened Topology
  import opened Cell
  import opened CellLaws
  import opened Scheduler
  import opened SchedulerLaws
  import opened SchedulerOrder
  import opened SchedulerDrain
  import opened SchedulerWorld
  import opened SchedulerRuns
  import opened SchedulerTrail
  import opened SchedulerFate

  /** The committed readings of a leaf, as a frame. */
  function CommittedObservations(c: Spec, w: Work): seq<Observation>
    requires |c.succs| == |c.members| == |w.committed|
  {
    LeafObservations(c, w.(pending := w.committed))
  }

  /** Sealed at some time they are the frame of the state, with its digest. */
  ghost predicate SealedFrom(e: Env, c: Spec, w: Work, s: State)
    requires |c.succs| == |c.members| == |w.committed|
  {
    exists now: U64 ::
      var r := Seal(e.H, FrameConfig(c, s.windowStart, s.windowEnd), CommittedObservations(c, w), now);
      r.Sealed? && r.snapshot.digest == s.snapshotDigest && r.snapshot.clock == s.clock
  }

  /**
   * The witness on record is the one that was used up at the state's clock; if none is, none was used, or an
   * idle one.
   */
  predicate SpentFor(w: Work, s: State) {
    if s.kind != NoEvent then
      w.spent == Some(Held(s.clock, Witness(s.kind, s.eventFrom, s.eventTo, s.eventClock, s.evidence)))
    else w.spent.None? || (w.spent.value.target == s.clock && w.spent.value.w.kind == NoEvent)
  }

  ghost predicate Remembers(e: Env, c: Spec, w: Work) {
    && w.state.Some? && SpentFor(w, w.state.value)
    && (c.leaf ==> |c.succs| == |c.members| == |w.committed| && SealedFrom(e, c, w, w.state.value))
  }

  /** What a cell remembers stays as it is, or is that of a new commit. */
  ghost predicate Recalls(e: Env, f: seq<Spec>, m: Machine, v: Machine) {
    && |m.works| == |v.works| == |f|
    && forall i :: 0 <= i < |f| ==> RecallsAt(e, f[i], m.works[i], v.works[i])
  }

  ghost predicate RecallsAt(e: Env, c: Spec, w: Work, v: Work) {
    || (v.state == w.state && v.committed == w.committed && v.spent == w.spent)
    || Remembers(e, c, v)
  }

  lemma RecallsChain(e: Env, f: seq<Spec>, m: Machine, u: Machine, v: Machine)
    requires Recalls(e, f, m, u) && Recalls(e, f, u, v)
    ensures Recalls(e, f, m, v)
  {
    hide Remembers;
    forall i | 0 <= i < |f| ensures RecallsAt(e, f[i], m.works[i], v.works[i]) {
      assert RecallsAt(e, f[i], m.works[i], u.works[i]) && RecallsAt(e, f[i], u.works[i], v.works[i]);
      var a, b := u.works[i], v.works[i];
      if b.state == a.state && b.committed == a.committed && b.spent == a.spent {
        SameMemory(e, f[i], a, b);
      }
    }
  }

  lemma SameMemory(e: Env, c: Spec, w: Work, v: Work)
    requires v.state == w.state && v.committed == w.committed && v.spent == w.spent
    ensures Remembers(e, c, w) ==> Remembers(e, c, v)
  {
    hide Seal, LeafObservations;
    if c.leaf && Remembers(e, c, w) {
      SameObservations(c, w, v);
      var s := w.state.value;
      var now: U64 :|
        var r := Seal(e.H, FrameConfig(c, s.windowStart, s.windowEnd), CommittedObservations(c, w), now);
        r.Sealed? && r.snapshot.digest == s.snapshotDigest && r.snapshot.clock == s.clock;
    }
  }

  lemma SameObservations(c: Spec, w: Work, v: Work)
    requires |c.succs| == |c.members| == |w.committed| && v.committed == w.committed
    ensures CommittedObservations(c, v) == CommittedObservations(c, w)
  {}

  /** Cells that keep state, committed readings and spent witness. */
  lemma RecallsSame(e: Env, f: seq<Spec>, m: Machine, v: Machine)
    requires |m.works| == |v.works| == |f|
    requires forall i :: 0 <= i < |f| ==>
      var w, u := m.works[i], v.works[i]; u.state == w.state && u.committed == w.committed && u.spent == w.spent
    ensures Recalls(e, f, m, v)
  {
    hide Remembers;
  }

  /** A commit of what its own frame was reduced to. */
  lemma CommitRecalls(e: Env, f: seq<Spec>, m: Machine, i: nat, s: Snapshot, horizon: U64, evidence: Evidence,
      clock: U64)
    requires Forest(f) && Shaped(f, m) && i < |f| && clock == s.clock
    requires Reduce(e.H, e.R, f[i].id, s, horizon, m.works[i].state, evidence).Reduced?
    requires f[i].leaf ==> LeafSeals(e, f[i], m.works[i], s)
    ensures var q := Reduce(e.H, e.R, f[i].id, s, horizon, m.works[i].state, evidence).state;
      Recalls(e, f, m, Commit(e, f, m, i, q, evidence, clock))
  {
    hide Reduce, Seal, TraceBytes, LeafObservations, SealedFrom, Classify, StateBytes, HiddenBytes;
    var c, w := f[i], m.works[i];
    var q := Reduce(e.H, e.R, c.id, s, horizon, w.state, evidence).state;
    ReducedSays(e.H, e.R, c.id, s, horizon, w.state, evidence);
    var v := Commit(e, f, m, i, q, evidence, clock);
    if c.leaf {
      LeafRemembers(e, c, w, s, v.works[i], q);
    }
    forall j | 0 <= j < |f| ensures RecallsAt(e, f[j], m.works[j], v.works[j]) {}
  }

  ghost predicate LeafSeals(e: Env, c: Spec, w: Work, s: Snapshot)
    requires |c.succs| == |c.members| == |w.pending|
  {
    exists b: Batch ::
      Seal(e.H, FrameConfig(c, b.windowStart, b.windowEnd), LeafObservations(c, w), b.sealTime) == Sealed(s)
  }

  lemma LeafRemembers(e: Env, c: Spec, w: Work, s: Snapshot, v: Work, q: State)
    requires |c.succs| == |c.members| == |w.pending| && LeafSeals(e, c, w, s) && v.committed == w.pending
    requires q.windowStart == s.windowStart && q.windowEnd == s.windowEnd && q.snapshotDigest == s.digest
    requires q.clock == s.clock
    ensures SealedFrom(e, c, v, q)
  {
    hide Seal;
    var b: Batch :|
      Seal(e.H, FrameConfig(c, b.windowStart, b.windowEnd), LeafObservations(c, w), b.sealTime) == Sealed(s);
    SealYieldsRing(e.H, FrameConfig(c, b.windowStart, b.windowEnd), LeafObservations(c, w), b.sealTime);
    assert CommittedObservations(c, v) == LeafObservations(c, w);
  }

  // ---- every function of the scheduler ----

  lemma SettleRecalls(e: Env, f: seq<Spec>, m: Machine, j: nat, s: Snapshot, horizon: U64, evidence: Evidence,
      clock: U64)
    requires Sane(e, f, m) && Shaped(f, m) && j < |f| == |m.works| && clock == s.clock
    requires f[j].leaf ==> LeafSeals(e, f[j], m.works[j], s)
    requires MaySettle(e, f, m, j, Reduce(e.H, e.R, f[j].id, s, horizon, m.works[j].state, evidence), evidence, clock)
    ensures var next := Reduce(e.H, e.R, f[j].id, s, horizon, m.works[j].state, evidence);
      Recalls(e, f, m, Settle(e, f, m, j, next, evidence, clock).m)
    decreases |f| - j, 1
  {
    hide Recalls, Commit, Inv, Allowed, Succeeds, Reduce, LeafSeals;
    var next := Reduce(e.H, e.R, f[j].id, s, horizon, m.works[j].state, evidence);
    if next.Reduced? {
      KeepsOf(f, m, j, next.state);
      SchedulerLaws.CommitKeeps(e, f, NoBases(|f|), m, j, next.state, evidence, clock);
      var v := Commit(e, f, m, j, next.state, evidence, clock);
      SaneShaped(e, f, v);
      CommitRecalls(e, f, m, j, s, horizon, evidence, clock);
      PropagateRecalls(e, f, v, j);
      RecallsChain(e, f, m, v, Propagate(e, f, v, j).m);
    } else {
      RecallsSame(e, f, m, Settle(e, f, m, j, next, evidence, clock).m);
    }
  }

  lemma PropagateRecalls(e: Env, f: seq<Spec>, m: Machine, child: nat)
    requires Sane(e, f, m) && Shaped(f, m) && child < |f| == |m.works|
    ensures Recalls(e, f, m, Propagate(e, f, m, child).m)
    decreases |f| - child, 0
  {
    hide Recalls, Inv;
    RecallsSame(e, f, m, m);
    if f[child].parent.Some? {
      CompositeRecalls(e, f, m, f[child].parent.value);
    }
  }

  lemma CompositeRecalls(e: Env, f: seq<Spec>, m: Machine, j: nat)
    requires Sane(e, f, m) && Shaped(f, m) && j < |f| == |m.works|
    ensures Recalls(e, f, m, ReduceComposite(e, f, m, j).m)
    decreases |f| - j, 2
  {
    hide Recalls, Inv, Reduce, CompositeFrame, NearerHorizon, Allowed, Succeeds, Shaped;
    var c, w := f[j], m.works[j];
    if CompositeTries(e, f, m, j) {
      var clock := ChildState(c, m, 0).value.clock;
      var frame := CompositeFrame(e, c, m).snapshot;
      CompositeFrameClock(e, c, m);
      var evidence := EvidenceFor(w.held, clock);
      if Reduce(e.H, e.R, c.id, frame, NearerHorizon(c, m), w.state, evidence).Reduced? {
        ReducedSucceeds(e, c, frame, NearerHorizon(c, m), w.state, evidence);
        CompositeAllowed(e, f, m, j, frame, NearerHorizon(c, m), clock);
      }
      SettleRecalls(e, f, m, j, frame, NearerHorizon(c, m), evidence, clock);
    } else {
      RecallsSame(e, f, m, ReduceComposite(e, f, m, j).m);
    }
  }

  lemma LeafRecalls(e: Env, f: seq<Spec>, m: Machine, j: nat)
    requires Sane(e, f, m) && Shaped(f, m) && j < |f| == |m.works| && f[j].leaf
    ensures Recalls(e, f, m, ReduceLeaf(e, f, m, j).m)
  {
    hide Recalls, Inv, Reduce, Seal, Allowed, Succeeds, Forest, LeafInv, LeafObservations, LeafSeals;
    var c, w := f[j], m.works[j];
    LeafOfInv(e, f, NoBases(|f|), m, j);
    var frame := LeafFrame(e, c, w);
    if w.count == |c.members| && frame.Sealed? {
      LeafFrameClock(e, c, w);
      var evidence := EvidenceFor(w.held, BatchOf(w).clock);
      if Reduce(e.H, e.R, c.id, frame.snapshot, c.horizon, w.state, evidence).Reduced? {
        ReducedSucceeds(e, c, frame.snapshot, c.horizon, w.state, evidence);
        LeafAllowed(e, f, m, j, evidence);
      }
      OwnFrame(e, c, w);
      SettleRecalls(e, f, m, j, frame.snapshot, c.horizon, evidence, BatchOf(w).clock);
    } else {
      RecallsSame(e, f, m, m);
    }
  }

  lemma OwnFrame(e: Env, c: Spec, w: Work)
    requires |c.succs| == |c.members| == |w.pending| && LeafFrame(e, c, w).Sealed?
    ensures LeafSeals(e, c, w, LeafFrame(e, c, w).snapshot)
  {
    hide Seal, LeafObservations;
    var b := BatchOf(w);
    assert Seal(e.H, FrameConfig(c, b.windowStart, b.windowEnd), LeafObservations(c, w), b.sealTime)
        == Sealed(LeafFrame(e, c, w).snapshot);
  }

  lemma ReadingRecalls(e: Env, f: seq<Spec>, m: Machine, r: Reading)
    requires Sane(e, f, m) && Shaped(f, m) && |f| == |m.works|
    ensures Recalls(e, f, m, ApplyReading(e, f, m, r).m)
  {
    hide Recalls, Inv, Forest, Rings, TakeReading, SameCore, Recommits;
    RecallsSame(e, f, m, m);
    var j := FindCell(f, r.cell);
    if j < |f| && f[j].leaf {
      var w, k := m.works[j], Ring.Find(f[j].members, r.member);
      if k < |f[j].members| && Joins(w, r) {
        RecallsSame(e, f, m, With(m, j, Started(w, r)));
        if !((w.pending[k].Some? && !SameCore(w.pending[k].value, r)) || WitnessConflict(w, r)) {
          TakingRecalls(e, f, m, j, k, r);
        }
      }
    }
  }

  lemma TakingRecalls(e: Env, f: seq<Spec>, m: Machine, j: nat, k: nat, r: Reading)
    requires Sane(e, f, m) && Shaped(f, m) && j < |f| == |m.works| && f[j].leaf && k < |f[j].members|
    requires Joins(m.works[j], r) && r.cell == f[j].id && r.member == f[j].members[k]
    ensures Recalls(e, f, m, TakeReading(e, f, With(m, j, Started(m.works[j], r)), j, k, r).m)
  {
    hide Recalls, Inv, LeafInv, Forest, Rings, ReduceLeaf, ReadingBatch, Joins;
    var w, bases := m.works[j], NoBases(|f|);
    LeafOfInv(e, f, bases, m, j);
    FilledInv(f[j], w, k, r);
    var filled := Filled(Started(w, r), k, r);
    HoldingInv(f[j], Started(w, r), filled, r);
    var taken := HoldingWitness(Started(w, r), filled, r);
    ReplacedKeeps(e, f, bases, m, j, taken);
    assert With(With(m, j, Started(w, r)), j, taken) == With(m, j, taken);
    var v := With(m, j, taken);
    RecallsSame(e, f, m, v);
    if taken.count == |f[j].members| {
      SaneShaped(e, f, v);
      LeafRecalls(e, f, v, j);
      RecallsChain(e, f, m, v, ReduceLeaf(e, f, v, j).m);
    }
  }

  lemma WitnessRecalls(e: Env, f: seq<Spec>, m: Machine, id: Name, clock: U64, x: Witness)
    requires Sane(e, f, m) && Shaped(f, m) && |f| == |m.works|
    ensures Recalls(e, f, m, ApplyWitness(e, f, m, id, clock, x).m)
  {
    hide Recalls, Inv, Forest, Rings, ReduceLeaf, ReduceComposite;
    RecallsSame(e, f, m, m);
    var j := FindCell(f, id);
    if j < |f| {
      var c, w := f[j], m.works[j];
      var late := w.state.Some? && clock <= w.state.value.clock;
      var other := c.leaf && (w.batch.None? || w.batch.value.clock != clock);
      if !late && !other && w.held.None? {
        HoldingTrail(e, f, m, j, Held(clock, x), j);
        var v := Holding(m, j, Held(clock, x));
        SaneShaped(e, f, v);
        RecallsSame(e, f, m, v);
        if c.leaf {
          LeafRecalls(e, f, v, j);
          RecallsChain(e, f, m, v, ReduceLeaf(e, f, v, j).m);
        } else {
          CompositeRecalls(e, f, v, j);
          RecallsChain(e, f, m, v, ReduceComposite(e, f, v, j).m);
        }
      }
    }
  }

  lemma {:induction false} RetryRecalls(e: Env, f: seq<Spec>, m: Machine, visited: nat, after: Option<Name>)
    requires Sane(e, f, m) && Shaped(f, m) && visited <= |f| == |m.works|
    ensures Recalls(e, f, m, Retry(e, f, m, visited, after).m)
    decreases |f| - visited
  {
    hide Recalls, Inv, Forest, Rings, ReduceLeaf, ReduceComposite, NextCell, Sane, Trail;
    SaneShaped(e, f, m);
    RecallsSame(e, f, m, m);
    if visited < |f| && NextCell(f, after, |f|) < |f| {
      var j := NextCell(f, after, |f|);
      if f[j].leaf && m.works[j].count != |f[j].members| {
        RetryRecalls(e, f, m, visited + 1, Some(f[j].id));
      } else {
        TriedTrail(e, f, m, j, j);
        if f[j].leaf {
          LeafRecalls(e, f, m, j);
        } else {
          CompositeRecalls(e, f, m, j);
        }
        var s := Tried(e, f, m, j);
        SaneShaped(e, f, s.m);
        RetryRecalls(e, f, s.m, visited + 1, Some(f[j].id));
        RecallsChain(e, f, m, s.m, Retry(e, f, s.m, visited + 1, Some(f[j].id)).m);
      }
    }
  }

  lemma {:induction false} QueueRecalls(e: Env, f: seq<Spec>, m: Machine, q: seq<Event>, maximum: nat)
    requires Sane(e, f, m) && Shaped(f, m) && |f| == |m.works|
    ensures Recalls(e, f, m, DrainQueue(e, f, m, q, maximum).m)
    ensures Sane(e, f, DrainQueue(e, f, m, q, maximum).m)
    decreases |q|
  {
    hide Recalls, Sane, Forest, Shaped, ApplyReading, ApplyWitness, MinimumEvent, Counted, Trail;
    SaneShaped(e, f, m);
    RecallsSame(e, f, m, m);
    if q != [] && m.report.processed < maximum {
      var i := MinimumEvent(q);
      var a := ApplyEvent(e, f, m, q[i]);
      if q[i].Observed? {
        ReadingRecalls(e, f, m, q[i].reading);
      } else {
        WitnessRecalls(e, f, m, q[i].cell, q[i].clock, q[i].w);
      }
      EventSane(e, f, m, q[i]);
      if a.consumed {
        var v := a.m.(report := Counted(a.m.report, a.o));
        SaneCounted(e, f, a.m, Counted(a.m.report, a.o));
        RecallsSame(e, f, a.m, v);
        RecallsChain(e, f, m, a.m, v);
        if a.o == Ok || a.o == HoldDuplicate {
          QueueRecalls(e, f, v, Without(q, i), maximum);
          RecallsChain(e, f, m, v, DrainQueue(e, f, v, Without(q, i), maximum).m);
        }
      }
    }
  }

  lemma EventSane(e: Env, f: seq<Spec>, m: Machine, v: Event)
    requires Sane(e, f, m) && Shaped(f, m) && |f| == |m.works|
    ensures Sane(e, f, ApplyEvent(e, f, m, v).m) && |ApplyEvent(e, f, m, v).m.works| == |f|
  {
    hide Inv, Forest, Rings, ApplyEvent;
    ApplyEventKeeps(e, f, NoBases(|f|), m, v);
    SaneShaped(e, f, ApplyEvent(e, f, m, v).m);
  }

  lemma SaneCounted(e: Env, f: seq<Spec>, m: Machine, r: Report)
    requires Sane(e, f, m)
    ensures Sane(e, f, m.(report := r)) && Shaped(f, m.(report := r)) && |m.works| == |f|
  {
    hide Inv, Forest, Rings;
    ReportKeeps(e, f, NoBases(|f|), m, r);
    SaneShaped(e, f, m.(report := r));
  }

  lemma DrainRecalls(e: Env, f: seq<Spec>, m: Machine, q: seq<Event>, maximum: nat)
    requires Sane(e, f, m) && Shaped(f, m) && |f| == |m.works|
    ensures Recalls(e, f, m, Drain(e, f, m, q, maximum).m)
  {
    hide Recalls, Sane, Forest, Shaped, Retry, DrainQueue;
    var m0 := m.(report := NO_REPORT);
    SaneCounted(e, f, m, NO_REPORT);
    SaneShaped(e, f, m);
    RecallsSame(e, f, m, m0);
    RetryRecalls(e, f, m0, 0, None);
    var first := Retry(e, f, m0, 0, None);
    RetrySane(e, f, m0);
    RecallsChain(e, f, m, m0, first.m);
    var d := DrainQueue(e, f, first.m, q, maximum);
    QueueRecalls(e, f, first.m, q, maximum);
    RecallsChain(e, f, m, first.m, d.m);
    SaneShaped(e, f, d.m);
    RetryRecalls(e, f, d.m, 0, None);
    RecallsChain(e, f, m, d.m, Retry(e, f, d.m, 0, None).m);
  }

  lemma RetrySane(e: Env, f: seq<Spec>, m: Machine)
    requires Sane(e, f, m) && Shaped(f, m)
    ensures Sane(e, f, Retry(e, f, m, 0, None).m) && |Retry(e, f, m, 0, None).m.works| == |f|
  {
    hide Inv, Forest, Rings, Retry;
    RetryKeeps(e, f, NoBases(|f|), m, 0, None);
    SaneShaped(e, f, Retry(e, f, m, 0, None).m);
  }

  // ---- every reachable scheduler ----

  /** A cell remembers its last commit, and one that has not committed remembers nothing. */
  ghost predicate MemoryAt(e: Env, c: Spec, w: Work) {
    if w.state.Some? then Remembers(e, c, w)
    else w.spent.None? && forall k :: 0 <= k < |w.committed| ==> w.committed[k].None?
  }

  ghost predicate MemoryInv(e: Env, s: Sched) {
    |s.f| == |s.m.works| && forall i :: 0 <= i < |s.f| ==> MemoryAt(e, s.f[i], s.m.works[i])
  }

  lemma RecallsKeeps(e: Env, s: Sched, v: Sched)
    requires MemoryInv(e, s) && v.f == s.f && Recalls(e, s.f, s.m, v.m)
    ensures MemoryInv(e, v)
  {
    hide Remembers;
    forall i | 0 <= i < |v.f| ensures MemoryAt(e, v.f[i], v.m.works[i]) {
      assert RecallsAt(e, s.f[i], s.m.works[i], v.m.works[i]) && MemoryAt(e, s.f[i], s.m.works[i]);
      var w, u := s.m.works[i], v.m.works[i];
      if u.state == w.state && u.committed == w.committed && u.spent == w.spent {
        SameMemory(e, s.f[i], w, u);
      } else {
        HasState(e, s.f[i], u);
      }
    }
  }

  lemma HasState(e: Env, c: Spec, w: Work)
    requires Remembers(e, c, w)
    ensures w.state.Some?
  {
    hide SealedFrom, SpentFor;
  }

  /** Before the forest is sealed no cell has committed. */
  lemma NothingCommitted(e: Env, s: Sched)
    requires Good(e, s) && !s.sealed
    ensures |s.m.works| == |s.f| && forall i :: 0 <= i < |s.f| ==> s.m.works[i].state.None?
  {
    hide Sound, DistinctKeys, WorksInv, ClockInv, TraceOf;
    forall i | 0 <= i < |s.f| ensures s.m.works[i].state.None? {
      assert History(s.m.commits, i) == [];
    }
  }

  lemma AddRemembers(e: Env, s: Sched, n: NewCell)
    requires Good(e, s) && MemoryInv(e, s) && WellFormed(n)
    ensures MemoryInv(e, AddCell(s, n, Ring.IsRing(n.members, n.succs)).s)
  {
    hide Good, Remembers, Added, Resolve;
    var v := AddCell(s, n, Ring.IsRing(n.members, n.succs)).s;
    if v != s {
      NothingCommitted(e, s);
      var r := if n.leaf then Resolved([], 0) else Resolve(s.f, n.childIds, |n.childIds|);
      AddedMachine(s, n, r.children, r.depth);
      forall i | 0 <= i < |v.f| ensures MemoryAt(e, v.f[i], v.m.works[i]) {
        if i < |s.f| {
          assert MemoryAt(e, s.f[i], s.m.works[i]);
        }
      }
    }
  }

  lemma DrainRemembers(e: Env, s: Sched, maximum: nat)
    requires Good(e, s) && Forest(s.f) && Shaped(s.f, s.m) && MemoryInv(e, s)
    ensures MemoryInv(e, DrainWorld(e, s, maximum).s)
  {
    hide Good, MemoryInv, Drain, Recalls, Sane;
    GoodIsSane(e, s);
    var v := DrainWorld(e, s, maximum).s;
    if maximum > 0 && s.sealed {
      DrainRecalls(e, s.f, s.m, s.q, maximum);
    } else {
      RecallsSame(e, s.f, s.m, s.m);
    }
    RecallsKeeps(e, s, v);
  }

  lemma StepRemembers(e: Env, s: Sched, op: Op)
    requires Good(e, s) && Forest(s.f) && Shaped(s.f, s.m) && MemoryInv(e, s)
    ensures MemoryInv(e, After(e, s, op))
  {
    hide Good, MemoryAt, AddCell, DrainWorld, CellVerdict, QueueVerdict, CellWitnessVerdict, QueueWitnessVerdict,
      ReadingOk, WitnessOk;
    match op
    case OpAdd(n) => if WellFormed(n) { AddRemembers(e, s, n); }
    case OpDrain(maximum) => DrainRemembers(e, s, maximum);
    case _ => assert After(e, s, op).m == s.m && After(e, s, op).f == s.f;
  }

  lemma {:induction false} RunRemembers(e: Env, s: Sched, ops: seq<Op>)
    requires Good(e, s) && MemoryInv(e, s)
    ensures MemoryInv(e, Run(e, s, ops))
    decreases ops
  {
    hide Good, After, MemoryInv;
    if ops != [] {
      StepGood(e, s, ops[0]);
      StepRemembers(e, s, ops[0]);
      RunRemembers(e, After(e, s, ops[0]), ops[1..]);
    }
  }

  /**
   * In every reachable scheduler a leaf that has committed keeps the very readings its state was reduced from: at some
   * time they seal to the frame whose digest the state names. And a cell keeps the witness of its last transition.
   */
  lemma ReachableMemory(e: Env, limits: Limits, ops: seq<Op>)
    ensures MemoryInv(e, Reached(e, limits, ops))
  {
    hide Good, Run;
    FreshIsGood(e, limits);
    FreshMemory(e, limits);
    RunRemembers(e, Fresh(limits), ops);
  }

  lemma FreshMemory(e: Env, limits: Limits)
    ensures MemoryInv(e, Fresh(limits))
  {}
}
