/**
 * Three things that never mend within an epoch: a composite's witness whose clock was missed, a state that ends
 * its chain, and a full batch that cannot be reduced, which keeps every later drain from taking any event.
 */
module SchedulerFate {
  import opened Bytes
  import opened Options
  import Ring
  import opened Frame
  import opened Topology
  import opened Cell
  import opened Scheduler
  import opened SchedulerOrder
  import opened SchedulerLaws
  import opened SchedulerDrain
  import opened SchedulerWorld
  import opened SchedulerRetry
  import opened SchedulerRuns
  import opened SchedulerTrail

  // ---- every public operation, every run ----

  lemma SealedStays(e: Env, s: Sched, op: Op)
    requires Good(e, s) && s.sealed && Forest(s.f) && Shaped(s.f, s.m)
    ensures After(e, s, op).sealed && After(e, s, op).f == s.f
  {
    hide CellVerdict, QueueVerdict, CellWitnessVerdict, QueueWitnessVerdict, Drain, Good, ReadingOk;
  }

  lemma GoodIsSane(e: Env, s: Sched)
    requires Good(e, s)
    ensures Sane(e, s.f, s.m) && Shaped(s.f, s.m) && Forest(s.f) && |s.m.works| == |s.f| && DistinctIds(s.f)
  {
    hide DistinctKeys, ClockInv, HistoryInv, Ring.IsRing;
  }

  lemma StepTrail(e: Env, s: Sched, op: Op, i: nat)
    requires Good(e, s) && s.sealed && i < |s.f| == |s.m.works| && Forest(s.f) && Shaped(s.f, s.m)
    ensures |After(e, s, op).m.works| == |s.f| && Trail(e, s.f, s.m, After(e, s, op).m, i)
  {
    hide Trail, Good, Sane, Drain, ReadingOk, CellVerdict, QueueVerdict, CellWitnessVerdict, QueueWitnessVerdict,
      Forest, Shaped;
    GoodIsSane(e, s);
    TrailSame(e, s.f, s.m, s.m, i);
    if op.OpDrain? {
      DrainTrail(e, s.f, s.m, s.q, op.maximum, i);
      WorksCount(s.f, Drain(e, s.f, s.m, s.q, op.maximum).m);
    }
  }

  lemma {:induction false} RunTrail(e: Env, s: Sched, ops: seq<Op>, i: nat)
    requires Good(e, s) && s.sealed && i < |s.f| == |s.m.works|
    ensures var v := Run(e, s, ops);
      && v.sealed && v.f == s.f && |v.m.works| == |s.f| && Trail(e, s.f, s.m, v.m, i)
    decreases ops
  {
    hide Trail, Good, After;
    GoodIsSane(e, s);
    if ops == [] {
      TrailSame(e, s.f, s.m, s.m, i);
    } else {
      StepGood(e, s, ops[0]);
      var u := After(e, s, ops[0]);
      SealedStays(e, s, ops[0]);
      StepTrail(e, s, ops[0], i);
      RunTrail(e, u, ops[1..], i);
      TrailChains(e, s.f, s.m, u.m, Run(e, u, ops[1..]).m, i);
    }
  }

  // ---- a witness whose clock was missed ----

  /** The witness can no longer meet its frame: the composite has reached its clock, or one child has passed it. */
  predicate WitnessMissed(s: Sched, i: nat) {
    && s.sealed && i < |s.f| == |s.m.works| && !s.f[i].leaf && s.m.works[i].held.Some?
    && var w := s.m.works[i];
    || (w.state.Some? && w.held.value.target <= w.state.value.clock)
    || exists k :: 0 <= k < |s.f[i].children| && s.f[i].children[k] < |s.m.works|
                   && Past(s.m.works[s.f[i].children[k]], w.held.value.target)
  }

  /** A cell's state has the cell's frame version. */
  lemma StateFrame(e: Env, s: Sched, i: nat)
    requires Good(e, s) && i < |s.f| == |s.m.works| && s.m.works[i].state.Some?
    ensures s.m.works[i].state.value.frameVersion == s.f[i].frameVersion
  {
    hide Sound, DistinctKeys, WorksInv, ClockInv, TraceOf, History, Linked;
    var h := History(s.m.commits, i);
    assert s.m.works[i].state == LastOf(NoBases(|s.f|)[i], h) && ChainFrom(s.f[i], NoBases(|s.f|)[i], h);
    assert LinkAt(s.f[i], None, h, |h| - 1);
  }

  lemma MissedMeans(e: Env, s: Sched, i: nat)
    requires Good(e, s) && s.sealed && i < |s.f| == |s.m.works|
    ensures WitnessMissed(s, i) <==> Missed(s.f, s.m, i)
  {
    hide Good;
    if s.m.works[i].state.Some? {
      StateFrame(e, s, i);
    }
  }

  /**
   * A missed witness stays for the rest of the epoch: whatever is added, published, attested or drained, the same
   * witness is held, every further state of the cell is committed without a transition, and so, once it has a state,
   * its winding never moves again.
   */
  lemma {:induction false} MissedForever(e: Env, s: Sched, ops: seq<Op>, i: nat)
    requires Good(e, s) && WitnessMissed(s, i)
    ensures var v := Run(e, s, ops);
      && v.f == s.f && WitnessMissed(v, i) && v.m.works[i].held == s.m.works[i].held
      && s.m.commits <= v.m.commits && OnlyPlain(s.m, v.m, i)
      && (s.m.works[i].state.Some? ==>
            v.m.works[i].state.Some?
            && v.m.works[i].state.value.winding == s.m.works[i].state.value.winding
            && s.m.works[i].state.value.clock <= v.m.works[i].state.value.clock)
  {
    hide Run, Good, HeldKept, EndedKept, JammedKept, OnlyPlain, Missed, WitnessMissed;
    MissedInRange(s, i);
    MissedMeans(e, s, i);
    RunTrail(e, s, ops, i);
    var v := Run(e, s, ops);
    assert Onward(s.m.works[i], v.m.works[i]);
    MissedMeans(e, v, i);
  }

  lemma MissedInRange(s: Sched, i: nat)
    requires WitnessMissed(s, i)
    ensures s.sealed && i < |s.f| == |s.m.works| && !s.f[i].leaf && s.m.works[i].held.Some?
  {}

  lemma FindOwn(f: seq<Spec>, i: nat)
    requires DistinctIds(f) && i < |f|
    ensures FindCell(f, f[i].id) == i
  {
    FindCellAbsent(f, f[i].id);
  }

  /**
   * From then on no witness for this cell is ever taken: publishing one is refused and changes nothing, and one
   * that was queued before is dropped without effect; as a conflict, unless it repeats the one held or the one spent.
   */
  lemma {:induction false} MissedBlocks(e: Env, s: Sched, ops: seq<Op>, i: nat, clock: U64, x: Witness)
    requires Good(e, s) && WitnessMissed(s, i)
    ensures var v := Run(e, s, ops);
      && Forest(v.f) && Shaped(v.f, v.m) && WitnessMissed(v, i)
      && PublishWitness(v, s.f[i].id, clock, x).o != Ok && PublishWitness(v, s.f[i].id, clock, x).s == v
      && var a := ApplyWitness(e, v.f, v.m, s.f[i].id, clock, x);
      && a.m == v.m && a.consumed
      && (a.o == ErrConflict
          || (a.o == HoldDuplicate && Some(Held(clock, x)) in {v.m.works[i].held, v.m.works[i].spent}))
  {
    hide Run, Good, Forest, Shaped, ReadingOk, WitnessOk, FrameChangeExpected, OnlyPlain, WitnessMissed;
    MissedForever(e, s, ops, i);
    var v := Run(e, s, ops);
    MissedInRange(v, i);
    GoodIsSane(e, v);
    FindOwn(v.f, i);
  }

  /** A frame of the children at exactly this clock is put to the reduction, and nothing bars it. */
  predicate ReducesAt(e: Env, f: seq<Spec>, m: Machine, i: nat, clock: U64)
    requires Forest(f) && Shaped(f, m) && i < |f|
  {
    && CompositeTries(e, f, m, i) && ChildState(f[i], m, 0).value.clock == clock
    && !Barred(e.H, f[i].id, CompositeFrame(e, f[i], m).snapshot, NearerHorizon(f[i], m), m.works[i].state,
               EvidenceFor(m.works[i].held, clock))
  }

  /** Whatever climbs from a cell leaves that cell and all before it alone. */
  lemma ClimbLeaves(e: Env, f: seq<Spec>, m: Machine, child: nat, i: nat)
    requires Forest(f) && Shaped(f, m) && i <= child < |f|
    ensures Propagate(e, f, m, child).m.works[i] == m.works[i]
    decreases |f| - child, 0
  {
    if f[child].parent.Some? {
      CompositeLeaves(e, f, m, f[child].parent.value, i);
    }
  }

  lemma CompositeLeaves(e: Env, f: seq<Spec>, m: Machine, j: nat, i: nat)
    requires Forest(f) && Shaped(f, m) && i < j < |f|
    ensures ReduceComposite(e, f, m, j).m.works[i] == m.works[i]
    decreases |f| - j, 1
  {
    hide Reduce, CompositeFrame, NearerHorizon;
    var c, w := f[j], m.works[j];
    if CompositeTries(e, f, m, j) {
      var clock := ChildState(c, m, 0).value.clock;
      var evidence := EvidenceFor(w.held, clock);
      var next := Reduce(e.H, e.R, c.id, CompositeFrame(e, c, m).snapshot, NearerHorizon(c, m), w.state, evidence);
      if next.Reduced? {
        ClimbLeaves(e, f, Commit(e, f, m, j, next.state, evidence, clock), j, i);
      }
    }
  }

  /**
   * A held composite witness leaves its cell exactly when a frame of the children at the very clock it waits for is
   * put to the reduction and nothing bars it: it is used up by the commit, or dropped with the refused transition.
   */
  lemma {:induction false} HeldLeavesIff(e: Env, f: seq<Spec>, m: Machine, i: nat)
    requires Forest(f) && Shaped(f, m) && i < |f| && !f[i].leaf && m.works[i].held.Some?
    ensures ReduceComposite(e, f, m, i).m.works[i].held != m.works[i].held
       <==> ReducesAt(e, f, m, i, m.works[i].held.value.target)
  {
    hide Reduce, Barred, Passes, CompositeFrame, NearerHorizon, TraceBytes;
    var c, w := f[i], m.works[i];
    if CompositeTries(e, f, m, i) {
      var clock := ChildState(c, m, 0).value.clock;
      var evidence := EvidenceFor(w.held, clock);
      var frame, horizon := CompositeFrame(e, c, m).snapshot, NearerHorizon(c, m);
      var next := Reduce(e.H, e.R, c.id, frame, horizon, w.state, evidence);
      ReduceOutcome(e, c.id, frame, horizon, w.state, evidence);
      if next.Reduced? {
        ClimbLeaves(e, f, Commit(e, f, m, i, next.state, evidence, clock), i, i);
      }
    }
  }

  /**
   * So over any run: a witness that is gone, or another, means that every child has committed at the clock it
   * waited for.
   */
  lemma {:induction false} HeldLeavesWithChildren(e: Env, s: Sched, ops: seq<Op>, i: nat)
    requires Good(e, s) && s.sealed && i < |s.f| == |s.m.works| && !s.f[i].leaf && s.m.works[i].held.Some?
    ensures var v := Run(e, s, ops);
      && v.f == s.f && |v.m.works| == |s.f|
      && (v.m.works[i].held != s.m.works[i].held ==>
            forall k :: 0 <= k < |s.f[i].children| ==>
              HasCommitted(v.m.commits, s.f[i].children[k], s.m.works[i].held.value.target))
  {
    hide Run, Good, MissedKept, EndedKept, JammedKept, HasCommitted;
    RunTrail(e, s, ops, i);
  }

  // ---- a state that ends its chain ----

  /** A cell whose state fails validation never commits again. */
  lemma {:induction false} EndedForever(e: Env, s: Sched, ops: seq<Op>, i: nat)
    requires Good(e, s) && s.sealed && i < |s.f| == |s.m.works| && Ended(e, s.m.works[i])
    ensures var v := Run(e, s, ops);
      && v.f == s.f && |v.m.works| == |s.f| && v.m.works[i].state == s.m.works[i].state
      && s.m.commits <= v.m.commits && NoMore(s.m, v.m, i)
  {
    hide Run, Good, MissedKept, HeldKept, JammedKept, StateValid;
    RunTrail(e, s, ops, i);
  }

  lemma ZeroWidthEnds(e: Env, w: Work)
    requires w.state.Some? && w.state.value.windowStart == w.state.value.windowEnd
    ensures Ended(e, w)
  {
    hide StateBytes, HiddenBytes, MacroValid;
  }

  // ---- a batch that cannot be reduced ----

  lemma JammedFails(e: Env, f: seq<Spec>, m: Machine, i: nat)
    requires Forest(f) && Shaped(f, m) && i < |f| && Jammed(e, f[i], m.works[i])
    ensures f[i].leaf && m.works[i].count == |f[i].members| && IsError(ReduceLeaf(e, f, m, i).o)
    ensures ReduceLeaf(e, f, m, i).m == m
  {
    hide Seal, Reduce, Hopeless, LeafObservations, Forest;
    var c, w := f[i], m.works[i];
    var frame := LeafFrame(e, c, w);
    if frame.Sealed? {
      HopelessFails(e, c.id, frame.snapshot, c.horizon, w.state, EvidenceFor(w.held, BatchOf(w).clock));
    }
  }

  lemma NotAllPassed(f: seq<Spec>, after: Option<Name>, i: nat)
    requires i < |f| && i !in Passed(f, after)
    ensures |Passed(f, after)| < |f|
  {
    hide Later;
    var rest := Ring.Below(|f|) - {i};
    Subset(Passed(f, after), rest);
    assert |rest| == |f| - 1;
  }

  lemma {:induction false} RetryMeetsJammed(e: Env, f: seq<Spec>, m: Machine, visited: nat, after: Option<Name>, i: nat)
    requires Sane(e, f, m) && Forest(f) && Shaped(f, m) && DistinctIds(f) && i < |f| == |m.works|
    requires Jammed(e, f[i], m.works[i]) && visited == |Passed(f, after)| && i !in Passed(f, after)
    ensures visited < |f| && Retry(e, f, m, visited, after).o != Ok
    decreases |f| - |Passed(f, after)|
  {
    hide Sane, Forest, Shaped, NextCell, Passed, DistinctIds, ReduceLeaf, ReduceComposite, Jammed, MissedKept,
      HeldKept, EndedKept;
    NotAllPassed(f, after, i);
    PassedBound(f, after);
    PassedGrows(f, after);
    var j := NextCell(f, after, |f|);
    if j == i {
      JammedFails(e, f, m, i);
    } else if f[j].leaf && m.works[j].count != |f[j].members| {
      RetryMeetsJammed(e, f, m, visited + 1, Some(f[j].id), i);
    } else {
      TriedTrail(e, f, m, j, i);
      var s := Tried(e, f, m, j);
      WorksCount(f, s.m);
      RetryMeetsJammed(e, f, s.m, visited + 1, Some(f[j].id), i);
    }
  }

  /**
   * While a leaf is jammed every drain fails before it takes an event: it answers an error and leaves the queue as
   * it was. And the leaf stays jammed, whatever is done.
   */
  lemma {:induction false} JammedStopsDrains(e: Env, s: Sched, ops: seq<Op>, i: nat, maximum: nat)
    requires Good(e, s) && s.sealed && i < |s.f| == |s.m.works| && Jammed(e, s.f[i], s.m.works[i]) && maximum > 0
    ensures var v := Run(e, s, ops);
      && v.f == s.f && |v.m.works| == |s.f| && Jammed(e, v.f[i], v.m.works[i])
      && Forest(v.f) && Shaped(v.f, v.m)
      && IsError(DrainWorld(e, v, maximum).o) && DrainWorld(e, v, maximum).s.q == v.q
  {
    hide Run, Good, MissedKept, HeldKept, EndedKept, Jammed, Retry, DrainQueue, Sane, Forest, Shaped, DistinctIds,
      IsError;
    RunTrail(e, s, ops, i);
    var v := Run(e, s, ops);
    GoodIsSane(e, v);
    var m := v.m.(report := NO_REPORT);
    CountedTrail(e, v.f, v.m, NO_REPORT, i);
    assert Passed(v.f, None) == {};
    RetryMeetsJammed(e, v.f, m, 0, None, i);
    RetryNeverRunsOut(e, v.f, m);
  }

  /** A full leaf batch sealed with an edge too close to half a turn is jammed. */
  lemma AntipodalIsJammed(e: Env, c: Spec, w: Work, k: nat)
    requires LeafInv(c, w) && c.leaf && |c.succs| == |c.members| >= 2 && w.count == |c.members|
    requires LeafFrame(e, c, w).Sealed? && LeafFrame(e, c, w).snapshot.digest != ZeroDigest()
    requires var obs := LeafFrame(e, c, w).snapshot.observations; k < |obs| && Antipodal(obs, k)
    ensures Jammed(e, c, w)
  {
    hide Seal, Antipodal, Classify, StateValid, Present, ListsAll, Ring.IsRing, SnapshotValid;
    var b := BatchOf(w);
    FullBatch(c, w);
    SealYieldsRing(e.H, FrameConfig(c, b.windowStart, b.windowEnd), LeafObservations(c, w), b.sealTime);
    ClassifySealed(e.H, LeafFrame(e, c, w).snapshot);
  }

  /** So is a full one, if it seals, behind a state that ended its chain. */
  lemma EndedIsJammed(e: Env, c: Spec, w: Work)
    requires LeafInv(c, w) && c.leaf && |c.succs| == |c.members| >= 2 && w.count == |c.members|
    requires LeafFrame(e, c, w).Sealed? && Ended(e, w)
    ensures Jammed(e, c, w)
  {
    hide Seal, Classify, StateValid, Present;
    FullBatch(c, w);
  }

  lemma FullBatch(c: Spec, w: Work)
    requires LeafInv(c, w) && w.count == |c.members| >= 2
    ensures w.batch.Some? && forall k :: 0 <= k < |w.pending| ==> w.pending[k].Some?
  {
    hide Present;
    PresentBound(w.pending);
  }
}
