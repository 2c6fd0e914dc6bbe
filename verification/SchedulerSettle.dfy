/**
 * What a round of retries leaves behind: when it goes through, every cell is quiet, and so is every cell after a drain
 * that reports OK. Nothing that could be reduced is left undone.
 */
module SchedulerSettle {
  import opened Bytes
  import opened Options
  import opened Frame
  import opened Topology
  import opened Cell
  import opened Scheduler
  import opened SchedulerOrder
  import opened SchedulerLaws
  import opened SchedulerDrain
  import opened SchedulerWorld
  import opened SchedulerRetry
  import opened SchedulerRuns
  import opened SchedulerTrail
  import opened SchedulerFate
  import opened SchedulerBlock

  /** Whoever has this cell among its children is its parent. */
  predicate OneParent(f: seq<Spec>)
    requires Forest(f)
  {
    forall j, k :: 0 <= j < |f| && 0 <= k < |f[j].children| ==> f[f[j].children[k]].parent == Some(j)
  }

  lemma SoundHasOneParent(f: seq<Spec>, limits: Limits)
    requires Sound(f, limits)
    ensures Forest(f) && OneParent(f)
  {
    forall j, k | 0 <= j < |f| && 0 <= k < |f[j].children| ensures f[f[j].children[k]].parent == Some(j) {
      assert ParentOf(f, j, f[j].children[k]);
    }
  }

  // ---- offers depend on a cell and its children ----

  predicate SameAround(f: seq<Spec>, m: Machine, v: Machine, j: nat)
    requires Forest(f) && Shaped(f, m) && Shaped(f, v) && j < |f|
  {
    && v.works[j] == m.works[j]
    && forall k :: 0 <= k < |f[j].children| ==> v.works[f[j].children[k]] == m.works[f[j].children[k]]
  }

  predicate SameChildren(c: Spec, m: Machine, v: Machine) {
    && (forall k :: 0 <= k < |c.children| ==> c.children[k] < |m.works| == |v.works|)
    && forall k :: 0 <= k < |c.children| ==> v.works[c.children[k]] == m.works[c.children[k]]
  }

  lemma {:induction false} SameSpans(c: Spec, m: Machine, v: Machine, n: nat)
    requires 1 <= n <= |c.children| && SameChildren(c, m, v)
    requires AllReady(c, m, n) && AllReady(c, v, n)
    ensures ChildSpan(c, v, n) == ChildSpan(c, m, n)
    decreases n
  {
    hide Widen;
    if n > 1 {
      SameSpans(c, m, v, n - 1);
    }
  }

  lemma SameOffers(e: Env, f: seq<Spec>, m: Machine, v: Machine, j: nat)
    requires Forest(f) && Shaped(f, m) && Shaped(f, v) && j < |f| && SameAround(f, m, v, j)
    ensures OfferOf(e, f, v, j) == OfferOf(e, f, m, j)
  {
    hide Seal, ChildSpan;
    var c := f[j];
    if !c.leaf {
      assert forall k :: 0 <= k < |c.children| ==> ChildState(c, v, k) == ChildState(c, m, k);
      if AllReady(c, m, |c.children|) {
        assert AllReady(c, v, |c.children|) by {
          forall k | 0 <= k < |c.children| ensures ChildState(c, v, k).Some? {
            assert ChildState(c, m, k).Some?;
          }
        }
        SameSpans(c, m, v, |c.children|);
        assert ChildObservations(c, v) == ChildObservations(c, m);
      } else {
        assert !AllReady(c, v, |c.children|) by {
          var k :| 0 <= k < |c.children| && ChildState(c, m, k).None?;
          assert ChildState(c, v, k).None?;
        }
      }
    }
  }

  lemma StillQuiet(e: Env, f: seq<Spec>, m: Machine, v: Machine, j: nat)
    requires Forest(f) && Shaped(f, m) && Shaped(f, v) && j < |f| && SameAround(f, m, v, j) && Quiet(e, f, m, j)
    ensures Quiet(e, f, v, j)
  {
    hide OfferOf, Barred, Passes;
    SameOffers(e, f, m, v, j);
  }

  // ---- trying a cell ----

  /** A cell that has just committed has nothing more to offer. */
  lemma CommittedIsQuiet(e: Env, f: seq<Spec>, m: Machine, i: nat)
    requires Forest(f) && Shaped(f, m) && i < |f| && Commits(e, f, m, i) && |f[i].members| > 0
    ensures Quiet(e, f, Committed(e, f, m, i), i)
    ensures forall j :: 0 <= j < |f| && j != i ==> Committed(e, f, m, i).works[j] == m.works[j]
  {
    hide Reduce, Barred, Passes, Seal, TraceBytes, ChildSpan;
    var v := Committed(e, f, m, i);
    var o, w := OfferOf(e, f, m, i), m.works[i];
    ReduceOutcome(e, f[i].id, o.s, o.horizon, w.state, EvidenceOf(w, o));
    if !f[i].leaf {
      CompositeFrameClock(e, f[i], m);
      ReducedClock(e.H, e.R, f[i].id, o.s, o.horizon, w.state, EvidenceOf(w, o));
      assert ChildState(f[i], v, 0) == ChildState(f[i], m, 0);
    }
  }

  /**
   * Trying a cell, if that goes through, leaves it quiet, with all that climbs from it; and whoever was quiet before is
   * quiet after.
   */
  lemma TriedIsQuiet(e: Env, f: seq<Spec>, m: Machine, i: nat, j: nat)
    requires Forest(f) && Rings(f) && OneParent(f) && ParentsAreComposite(f) && Shaped(f, m) && i < |f| && j < |f|
    requires !IsError(Tried(e, f, m, i).o) && (j == i || Quiet(e, f, m, j))
    ensures Quiet(e, f, Tried(e, f, m, i).m, j)
    decreases |f| - i
  {
    hide Quiet, Stuck, Drops, Commits, Committed, ReduceLeaf, ReduceComposite, Shaped;
    CellTried(e, f, m, i);
    OneKind(e, f, m, i);
    var t := Tried(e, f, m, i).m;
    if Quiet(e, f, m, i) {
      SameWorksQuiet(e, f, m, t, j);
    } else {
      var v := Committed(e, f, m, i);
      CommittedIsQuiet(e, f, m, i);
      if f[i].parent.Some? {
        Linking(f, i);
        var p := f[i].parent.value;
        if j != p {
          OtherStaysQuiet(e, f, m, v, i, j);
        }
        TriedIsQuiet(e, f, v, p, j);
        ClimbIsTry(e, f, v, i);
      } else {
        OtherStaysQuiet(e, f, m, v, i, j);
        ClimbIsTry(e, f, v, i);
      }
    }
  }

  lemma SameWorksQuiet(e: Env, f: seq<Spec>, m: Machine, v: Machine, j: nat)
    requires Forest(f) && Shaped(f, m) && Shaped(f, v) && v.works == m.works && j < |f| && Quiet(e, f, m, j)
    ensures Quiet(e, f, v, j)
  {
    hide Quiet;
    StillQuiet(e, f, m, v, j);
  }

  lemma OtherStaysQuiet(e: Env, f: seq<Spec>, m: Machine, v: Machine, i: nat, j: nat)
    requires Forest(f) && OneParent(f) && Shaped(f, m) && Shaped(f, v) && i < |f| && j < |f| && f[i].parent != Some(j)
    requires forall k :: 0 <= k < |f| && k != i ==> v.works[k] == m.works[k]
    requires if j == i then Quiet(e, f, v, j) else Quiet(e, f, m, j)
    ensures Quiet(e, f, v, j)
  {
    hide Quiet;
    if j != i {
      forall k | 0 <= k < |f[j].children| ensures v.works[f[j].children[k]] == m.works[f[j].children[k]] {
        assert f[f[j].children[k]].parent == Some(j);
      }
      StillQuiet(e, f, m, v, j);
    }
  }

  lemma ClimbIsTry(e: Env, f: seq<Spec>, m: Machine, i: nat)
    requires Forest(f) && ParentsAreComposite(f) && Shaped(f, m) && i < |f|
    ensures f[i].parent.None? ==> Propagate(e, f, m, i) == Step(m, Ok)
    ensures f[i].parent.Some? ==>
      var p := f[i].parent.value;
      var s := Tried(e, f, m, p);
      && Propagate(e, f, m, i).m == s.m
      && (IsError(Propagate(e, f, m, i).o) <==> IsError(s.o))
  {
    hide ReduceComposite, ReduceLeaf;
    if f[i].parent.Some? {
      Linking(f, i);
      NoLimit(e, f, m, f[i].parent.value);
    }
  }

  // ---- a round of retries ----

  predicate PassedQuiet(e: Env, f: seq<Spec>, m: Machine, after: Option<Name>)
    requires Forest(f) && Shaped(f, m)
  {
    forall j :: 0 <= j < |f| && !Later(after, f[j].id) ==> Quiet(e, f, m, j)
  }

  predicate AllQuiet(e: Env, f: seq<Spec>, m: Machine)
    requires Forest(f) && Shaped(f, m)
  {
    forall j :: 0 <= j < |f| ==> Quiet(e, f, m, j)
  }

  /** A round that goes through leaves every cell quiet. */
  lemma {:induction false} RetrySettles(e: Env, f: seq<Spec>, m: Machine, visited: nat, after: Option<Name>)
    requires Forest(f) && Rings(f) && OneParent(f) && ParentsAreComposite(f) && Shaped(f, m) && DistinctIds(f)
    requires visited == |Passed(f, after)| && PassedQuiet(e, f, m, after)
    requires visited <= |f| && Retry(e, f, m, visited, after).o == Ok
    ensures AllQuiet(e, f, Retry(e, f, m, visited, after).m)
    decreases |f| - |Passed(f, after)|
  {
    hide Forest, Rings, OneParent, ParentsAreComposite, Shaped, NextCell, DistinctIds, Passed, Quiet, Tried, IsError,
      Later;
    OkIsNoError();
    PassedBound(f, after);
    if visited == |f| {
      EveryonePassed(e, f, m, after);
    } else {
      WorksCount(f, m);
      var k := NextCell(f, after, |f|);
      NextCellIs(f, after);
      PassedGrows(f, after);
      RetryUnfolds(e, f, m, visited, after);
      if f[k].leaf && m.works[k].count != |f[k].members| {
        NotFullIsQuiet(e, f, m, k);
        OnePassed(e, f, m, m, after, k);
        RetrySettles(e, f, m, visited + 1, Some(f[k].id));
      } else {
        var s := Tried(e, f, m, k);
        NoLimit(e, f, m, k);
        forall j | 0 <= j < |f| && (j == k || Quiet(e, f, m, j)) ensures Quiet(e, f, s.m, j) {
          TriedIsQuiet(e, f, m, k, j);
        }
        OnePassed(e, f, m, s.m, after, k);
        RetrySettles(e, f, s.m, visited + 1, Some(f[k].id));
      }
    }
  }

  lemma EveryonePassed(e: Env, f: seq<Spec>, m: Machine, after: Option<Name>)
    requires Forest(f) && Shaped(f, m) && |Passed(f, after)| == |f| && PassedQuiet(e, f, m, after)
    ensures AllQuiet(e, f, m)
  {
    hide Quiet, Later;
    forall j | 0 <= j < |f| ensures Quiet(e, f, m, j) {
      if Later(after, f[j].id) {
        NotAllPassed(f, after, j);
      }
    }
  }

  lemma OnePassed(e: Env, f: seq<Spec>, m: Machine, v: Machine, after: Option<Name>, k: nat)
    requires Forest(f) && Shaped(f, m) && Shaped(f, v) && DistinctIds(f) && NextIs(f, after, k)
    requires PassedQuiet(e, f, m, after)
    requires k < |f| && forall j :: 0 <= j < |f| && (j == k || Quiet(e, f, m, j)) ==> Quiet(e, f, v, j)
    ensures PassedQuiet(e, f, v, Some(f[k].id))
  {
    hide Quiet, Later, NextIs, DistinctIds;
    forall j | 0 <= j < |f| && !Later(Some(f[k].id), f[j].id) ensures Quiet(e, f, v, j) {
      LaterStill(f, after, k, j);
    }
  }

  /** After a drain that reports OK every cell is quiet: no batch and no frame is left that could still be reduced. */
  lemma DrainSettles(e: Env, s: Sched, maximum: nat)
    requires Good(e, s) && Forest(s.f) && Shaped(s.f, s.m) && DrainWorld(e, s, maximum).o == Ok
    ensures var v := DrainWorld(e, s, maximum).s;
      Forest(v.f) && Shaped(v.f, v.m) && AllQuiet(e, v.f, v.m)
  {
    hide Good, Forest, Retry, DrainQueue, DistinctIds, OneParent, ParentsAreComposite, Rings, Sound, Quiet;
    GoodIsSane(e, s);
    GoodIsSound(e, s);
    SoundHasOneParent(s.f, s.limits);
    SoundParents(s.f, s.limits);
    SoundForest(s.f, s.limits);
    var first := Retry(e, s.f, s.m.(report := NO_REPORT), 0, None);
    var d := DrainQueue(e, s.f, first.m, s.q, maximum);
    assert Passed(s.f, None) == {};
    RetrySettles(e, s.f, d.m, 0, None);
  }

  /** And a round of retries among quiet cells goes through and leaves every cell as it is. */
  lemma {:induction false} QuietRetry(e: Env, f: seq<Spec>, m: Machine, visited: nat, after: Option<Name>)
    requires Sane(e, f, m) && Forest(f) && Shaped(f, m) && DistinctIds(f) && visited == |Passed(f, after)|
    requires AllQuiet(e, f, m) && visited <= |f|
    ensures Retry(e, f, m, visited, after).o == Ok && Retry(e, f, m, visited, after).m.works == m.works
    decreases |f| - |Passed(f, after)|
  {
    hide Sane, Forest, Shaped, NextCell, DistinctIds, Passed, Quiet, Tried, IsError, Later;
    OkIsNoError();
    PassedBound(f, after);
    if visited < |f| {
      WorksCount(f, m);
      var k := NextCell(f, after, |f|);
      PassedGrows(f, after);
      RetryUnfolds(e, f, m, visited, after);
      if f[k].leaf && m.works[k].count != |f[k].members| {
        QuietRetry(e, f, m, visited + 1, Some(f[k].id));
      } else {
        CellTried(e, f, m, k);
        TriedTrail(e, f, m, k, k);
        var v := Tried(e, f, m, k).m;
        forall j | 0 <= j < |f| ensures Quiet(e, f, v, j) {
          SameWorksQuiet(e, f, m, v, j);
        }
        QuietRetry(e, f, v, visited + 1, Some(f[k].id));
      }
    }
  }
}
