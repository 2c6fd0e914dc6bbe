/** Retrying visits every cell exactly once, in identifier order; it never finds itself without a next cell. */
module SchedulerRetry {
  import opened Bytes
  import opened Options
  import opened Ring
  import opened Frame
  import opened Topology
  import opened Cell
  import opened Scheduler
  import opened SchedulerOrder
  import opened SchedulerWorld

  predicate Later(after: Option<Name>, id: Name) {
    after.None? || NameBefore(after.value, id)
  }

  lemma {:induction false} NextCellLeast(f: seq<Spec>, after: Option<Name>, n: nat)
    requires n <= |f|
    ensures var i := NextCell(f, after, n);
      && (i < |f| ==> i < n && Later(after, f[i].id))
      && (i < |f| ==> forall k :: 0 <= k < n && Later(after, f[k].id) ==> !NameBefore(f[k].id, f[i].id))
      && (i == |f| ==> forall k :: 0 <= k < n ==> !Later(after, f[k].id))
    decreases n
  {
    hide NameBefore;
    if n > 0 {
      NextCellLeast(f, after, n - 1);
      var i, id := NextCell(f, after, n - 1), f[n - 1].id;
      NamesIrreflexive(id);
      if Later(after, id) && i < |f| && NameBefore(id, f[i].id) {
        forall k | 0 <= k < n - 1 && Later(after, f[k].id) ensures !NameBefore(f[k].id, id) {
          if NameBefore(f[k].id, id) {
            NamesTransitive(f[k].id, id, f[i].id);
          }
        }
      }
    }
  }

  /** The cells not after the given identifier. */
  function Passed(f: seq<Spec>, after: Option<Name>): set<nat> {
    set k | 0 <= k < |f| && !Later(after, f[k].id)
  }

  lemma PassedGrows(f: seq<Spec>, after: Option<Name>)
    requires DistinctIds(f) && NextCell(f, after, |f|) < |f|
    ensures var i := NextCell(f, after, |f|);
      i !in Passed(f, after) && Passed(f, Some(f[i].id)) == Passed(f, after) + {i}
  {
    hide NameBefore, NextCell;
    NextCellLeast(f, after, |f|);
    var i := NextCell(f, after, |f|);
    forall k | 0 <= k < |f| ensures k in Passed(f, Some(f[i].id)) <==> k in Passed(f, after) || k == i {
      NamesIrreflexive(f[k].id);
      NamesTotal(f[k].id, f[i].id);
      if after.Some? && !Later(after, f[k].id) && NameBefore(f[i].id, f[k].id) {
        NamesTransitive(after.value, f[i].id, f[k].id);
      }
    }
  }

  lemma PassedBound(f: seq<Spec>, after: Option<Name>)
    ensures |Passed(f, after)| <= |f|
    ensures |Passed(f, after)| < |f| ==> NextCell(f, after, |f|) < |f|
  {
    hide NameBefore, NextCell;
    Subset(Passed(f, after), Below(|f|));
    NextCellLeast(f, after, |f|);
    if NextCell(f, after, |f|) == |f| {
      assert Passed(f, after) == Below(|f|);
    }
  }

  lemma Subset(a: set<nat>, b: set<nat>)
    requires a <= b
    ensures |a| <= |b|
  {
    assert b == a + (b - a);
  }

  /** The cells visited in n turns. */
  function Visits(f: seq<Spec>, after: Option<Name>, n: nat): seq<nat>
    decreases n
  {
    if n == 0 then []
    else
      var i := NextCell(f, after, |f|);
      if i == |f| then [] else [i] + Visits(f, Some(f[i].id), n - 1)
  }

  lemma {:induction false} VisitsAscend(f: seq<Spec>, after: Option<Name>, n: nat)
    requires DistinctIds(f) && |Passed(f, after)| + n == |f|
    ensures |Visits(f, after, n)| == n
    ensures forall k :: 0 <= k < n ==> Visits(f, after, n)[k] < |f| && Later(after, f[Visits(f, after, n)[k]].id)
    ensures forall j, k :: 0 <= j < k < n ==>
      NameBefore(f[Visits(f, after, n)[j]].id, f[Visits(f, after, n)[k]].id)
    decreases n
  {
    hide NameBefore, NextCell, Passed;
    if n > 0 {
      PassedBound(f, after);
      var i := NextCell(f, after, |f|);
      PassedGrows(f, after);
      NextCellLeast(f, after, |f|);
      VisitsAscend(f, Some(f[i].id), n - 1);
      var v := Visits(f, Some(f[i].id), n - 1);
      forall k | 0 <= k < n - 1 ensures Later(after, f[v[k]].id) {
        if after.Some? {
          NamesTransitive(after.value, f[i].id, f[v[k]].id);
        }
      }
    }
  }

  /** One round of retries visits each cell once, in ascending identifier order. */
  lemma {:induction false} RetryVisitsAll(f: seq<Spec>)
    requires DistinctIds(f)
    ensures var v := Visits(f, None, |f|);
      && Permutes(v, |f|)
      && forall j, k :: 0 <= j < k < |v| ==> NameBefore(f[v[j]].id, f[v[k]].id)
  {
    hide NameBefore, Visits;
    assert Passed(f, None) == {};
    VisitsAscend(f, None, |f|);
    var v := Visits(f, None, |f|);
    forall j, k | 0 <= j < k < |f| ensures v[j] != v[k] {
      NamesIrreflexive(f[v[j]].id);
    }
  }

  // ---- the error for a missing next cell, and the limit, are unreachable ----

  lemma {:induction false} ScreenStatus(c: Config, obs: seq<Observation>, i: nat)
    requires i <= |obs|
    ensures Screen(c, obs, i) in {Fine, BadWindow, BadClock, Duplicate}
    decreases |obs| - i
  {
    if i < |obs| {
      ScreenStatus(c, obs, i + 1);
    }
  }

  lemma SealInCount(H: Hash, c: Config, obs: seq<Observation>, now: U64)
    requires c.minimum <= |obs| <= c.maximum
    ensures Seal(H, c, obs, now) != Refused(BadCount)
  {
    hide Screen;
    ScreenStatus(c, obs, 0);
  }

  lemma {:induction false} SettleOutcome(e: Env, f: seq<Spec>, m: Machine, i: nat, next: Reduced, evidence: Evidence,
      clock: U64)
    requires Forest(f) && Shaped(f, m) && i < |f|
    ensures Settle(e, f, m, i, next, evidence, clock).o !in {ErrConflict, HoldLimit}
    decreases |f| - i, 1
  {
    hide Forest, Shaped, Commit;
    if next.Reduced? {
      PropagateOutcome(e, f, Commit(e, f, m, i, next.state, evidence, clock), i);
    }
  }

  lemma {:induction false} PropagateOutcome(e: Env, f: seq<Spec>, m: Machine, child: nat)
    requires Forest(f) && Shaped(f, m) && child < |f|
    ensures Propagate(e, f, m, child).o !in {ErrConflict, HoldLimit}
    decreases |f| - child, 0
  {
    if f[child].parent.Some? {
      CompositeOutcome(e, f, m, f[child].parent.value);
    }
  }

  lemma {:induction false} CompositeOutcome(e: Env, f: seq<Spec>, m: Machine, i: nat)
    requires Forest(f) && Shaped(f, m) && i < |f|
    ensures ReduceComposite(e, f, m, i).o !in {ErrConflict, HoldLimit}
    decreases |f| - i, 2
  {
    hide Seal, NearerHorizon, Reduce, Settle;
    var c, w := f[i], m.works[i];
    if !c.leaf && AllReady(c, m, |c.children|) && OneChildClock(c, m) {
      var clock := ChildState(c, m, 0).value.clock;
      var frame := CompositeFrame(e, c, m);
      var span := ChildSpan(c, m, |c.children|);
      SealInCount(e.H, FrameConfig(c, span.windowStart, span.windowEnd), ChildObservations(c, m), span.windowEnd);
      if frame.Sealed? {
        var evidence := EvidenceFor(w.held, clock);
        var next := Reduce(e.H, e.R, c.id, frame.snapshot, NearerHorizon(c, m), w.state, evidence);
        SettleOutcome(e, f, m, i, next, evidence, clock);
      }
    }
  }

  lemma {:induction false} LeafOutcome(e: Env, f: seq<Spec>, m: Machine, i: nat)
    requires Forest(f) && Shaped(f, m) && i < |f| && f[i].leaf
    ensures ReduceLeaf(e, f, m, i).o !in {ErrConflict, HoldLimit}
  {
    hide Forest, Seal, Reduce, Settle, LeafObservations;
    var c, w := f[i], m.works[i];
    var b := BatchOf(w);
    var frame := Seal(e.H, FrameConfig(c, b.windowStart, b.windowEnd), LeafObservations(c, w), b.sealTime);
    SealInCount(e.H, FrameConfig(c, b.windowStart, b.windowEnd), LeafObservations(c, w), b.sealTime);
    if frame.Sealed? {
      var evidence := EvidenceFor(w.held, b.clock);
      var next := Reduce(e.H, e.R, c.id, frame.snapshot, c.horizon, w.state, evidence);
      SettleOutcome(e, f, m, i, next, evidence, b.clock);
    }
  }

  lemma {:induction false} RetryFindsCells(e: Env, f: seq<Spec>, m: Machine, visited: nat, after: Option<Name>)
    requires Forest(f) && Shaped(f, m) && DistinctIds(f) && visited == |Passed(f, after)|
    ensures visited <= |f| && Retry(e, f, m, visited, after).o != ErrConflict
    ensures Retry(e, f, m, visited, after).o == Ok || IsError(Retry(e, f, m, visited, after).o)
    decreases |f| - |Passed(f, after)|
  {
    hide Forest, NextCell, Passed, DistinctIds, ReduceLeaf, ReduceComposite;
    PassedBound(f, after);
    if visited < |f| {
      var i := NextCell(f, after, |f|);
      PassedGrows(f, after);
      if f[i].leaf {
        if m.works[i].count == |f[i].members| {
          LeafOutcome(e, f, m, i);
          RetryFindsCells(e, f, ReduceLeaf(e, f, m, i).m, visited + 1, Some(f[i].id));
        } else {
          RetryFindsCells(e, f, m, visited + 1, Some(f[i].id));
        }
      } else {
        CompositeOutcome(e, f, m, i);
        RetryFindsCells(e, f, ReduceComposite(e, f, m, i).m, visited + 1, Some(f[i].id));
      }
    }
  }

  /**
   * In a sound forest a round of retries never ends for want of a next cell or at a limit: it goes through or
   * fails.
   */
  lemma {:induction false} RetryNeverRunsOut(e: Env, f: seq<Spec>, m: Machine)
    requires Forest(f) && Shaped(f, m) && DistinctIds(f)
    ensures Retry(e, f, m, 0, None).o != ErrConflict
    ensures Retry(e, f, m, 0, None).o == Ok || IsError(Retry(e, f, m, 0, None).o)
  {
    hide Retry;
    assert Passed(f, None) == {};
    RetryFindsCells(e, f, m, 0, None);
  }
}
