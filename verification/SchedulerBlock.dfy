/**
 * When a drain cannot get to its events. A retry fails at a cell whose frame bars its own reduction, or at a
 * transition refused with the witness that is thereby dropped; and the first retry of a drain fails and leaves
 * every cell as it was exactly when, in name order, quiet cells come before a stuck one. That never mends.
 */
module SchedulerBlock {
  import opened Bytes
  import opened Options
  import Ring
  import opened Frame
  import opened Topology
  import opened Cell
  import opened Scheduler
  import opened SchedulerOrder
  import opened SchedulerLaws
  import opened SchedulerDrain
  import opened SchedulerWorld
  import opened SchedulerRetry
  import opened SchedulerRuns
  import opened SchedulerTrail
  import opened SchedulerFate

  // ---- one cell, from its guards ----

  /** What a cell has to offer: no frame yet, one that can never seal, or one for the reduction. */
  datatype Offer = NothingYet | NeverSeals | Frame(s: Snapshot, horizon: U64, clock: U64)

  function LeafOffer(e: Env, c: Spec, w: Work): Offer
    requires |c.succs| == |c.members| == |w.pending|
  {
    if w.count != |c.members| then NothingYet
    else
      var frame := LeafFrame(e, c, w);
      if frame.Sealed? then Frame(frame.snapshot, c.horizon, BatchOf(w).clock)
      else if frame.status == HoldStale then NothingYet else NeverSeals
  }

  function OfferOf(e: Env, f: seq<Spec>, m: Machine, i: nat): Offer
    requires Forest(f) && Shaped(f, m) && i < |f|
  {
    if f[i].leaf then LeafOffer(e, f[i], m.works[i])
    else if CompositeTries(e, f, m, i) then
      Frame(CompositeFrame(e, f[i], m).snapshot, NearerHorizon(f[i], m), ChildState(f[i], m, 0).value.clock)
    else NothingYet
  }

  function EvidenceOf(w: Work, o: Offer): Evidence
    requires o.Frame?
  {
    EvidenceFor(w.held, o.clock)
  }

  predicate OfferBarred(e: Env, c: Spec, w: Work, o: Offer)
    requires o.Frame?
  {
    Barred(e.H, c.id, o.s, o.horizon, w.state, EvidenceOf(w, o))
  }

  predicate OfferPasses(e: Env, c: Spec, w: Work, o: Offer)
    requires o.Frame?
  {
    Passes(e.H, c.id, o.s, o.horizon, w.state, EvidenceOf(w, o))
  }

  /** The offer bars its own way: no frame of it, or no state of its frame, can come. */
  predicate Stuck(e: Env, f: seq<Spec>, m: Machine, i: nat)
    requires Forest(f) && Shaped(f, m) && i < |f|
  {
    var o := OfferOf(e, f, m, i);
    o.NeverSeals? || (o.Frame? && OfferBarred(e, f[i], m.works[i], o))
  }

  /** A frame that may not follow, without a witness to drop, or no frame. */
  predicate Quiet(e: Env, f: seq<Spec>, m: Machine, i: nat)
    requires Forest(f) && Shaped(f, m) && i < |f|
  {
    var o := OfferOf(e, f, m, i);
    o.NothingYet? || (o.Frame? && !OfferBarred(e, f[i], m.works[i], o) && !OfferPasses(e, f[i], m.works[i], o)
                      && EvidenceOf(m.works[i], o) == NoWitness)
  }

  /** A frame that may not follow, with a witness, which is dropped. */
  predicate Drops(e: Env, f: seq<Spec>, m: Machine, i: nat)
    requires Forest(f) && Shaped(f, m) && i < |f|
  {
    var o := OfferOf(e, f, m, i);
    o.Frame? && !OfferBarred(e, f[i], m.works[i], o) && !OfferPasses(e, f[i], m.works[i], o)
    && EvidenceOf(m.works[i], o).Given?
  }

  predicate Commits(e: Env, f: seq<Spec>, m: Machine, i: nat)
    requires Forest(f) && Shaped(f, m) && i < |f|
  {
    var o := OfferOf(e, f, m, i);
    o.Frame? && !OfferBarred(e, f[i], m.works[i], o) && OfferPasses(e, f[i], m.works[i], o)
  }

  /** The machine right after cell i committed, before its parent is tried. */
  function Committed(e: Env, f: seq<Spec>, m: Machine, i: nat): (v: Machine)
    requires Forest(f) && Shaped(f, m) && i < |f| && Commits(e, f, m, i)
    ensures Shaped(f, v)
  {
    var o, w := OfferOf(e, f, m, i), m.works[i];
    var r := Reduce(e.H, e.R, f[i].id, o.s, o.horizon, w.state, EvidenceOf(w, o));
    ReduceOutcome(e, f[i].id, o.s, o.horizon, w.state, EvidenceOf(w, o));
    Commit(e, f, m, i, r.state, EvidenceOf(w, o), o.clock)
  }

  /** A leaf's frame is never refused for its number of members. */
  lemma LeafInCount(e: Env, c: Spec, w: Work)
    requires |c.succs| == |c.members| == |w.pending|
    ensures LeafFrame(e, c, w).Refused? ==> LeafFrame(e, c, w).status != BadCount
  {
    hide Seal;
    var b := BatchOf(w);
    SealInCount(e.H, FrameConfig(c, b.windowStart, b.windowEnd), LeafObservations(c, w), b.sealTime);
  }

  lemma CompositeInCount(e: Env, c: Spec, m: Machine)
    requires 1 <= |c.children| == |c.members| == |c.succs|
    requires (forall k :: 0 <= k < |c.children| ==> c.children[k] < |m.works|) && AllReady(c, m, |c.children|)
    ensures CompositeFrame(e, c, m).Refused? ==> CompositeFrame(e, c, m).status != BadCount
  {
    hide Seal, ChildSpan;
    var span := ChildSpan(c, m, |c.children|);
    SealInCount(e.H, FrameConfig(c, span.windowStart, span.windowEnd), ChildObservations(c, m), span.windowEnd);
  }

  /** What trying a cell does, kind by kind. */
  lemma LeafTried(e: Env, f: seq<Spec>, m: Machine, i: nat)
    requires Forest(f) && Shaped(f, m) && i < |f| && f[i].leaf
    ensures var s := Tried(e, f, m, i);
      && (Quiet(e, f, m, i) ==> s.m.works == m.works && !IsError(s.o) && s.o != HoldLimit)
      && (Stuck(e, f, m, i) ==> s.m == m && IsError(s.o))
      && (Drops(e, f, m, i) ==> s.m.works == m.works[i := m.works[i].(held := None)] && IsError(s.o))
      && (Commits(e, f, m, i) ==> s == Propagate(e, f, Committed(e, f, m, i), i))
  {
    hide Seal, Reduce, Barred, Passes, LeafObservations, Forest, Commit, Propagate, EvidenceFor;
    var c, w := f[i], m.works[i];
    LeafInCount(e, c, w);
    var o := OfferOf(e, f, m, i);
    if o.Frame? {
      ReduceOutcome(e, c.id, o.s, o.horizon, w.state, EvidenceOf(w, o));
    }
  }

  lemma CompositeTried(e: Env, f: seq<Spec>, m: Machine, i: nat)
    requires Forest(f) && Shaped(f, m) && i < |f| && !f[i].leaf
    ensures var s := Tried(e, f, m, i);
      && (Quiet(e, f, m, i) ==> s.m.works == m.works && !IsError(s.o) && s.o != HoldLimit)
      && (Stuck(e, f, m, i) ==> s.m == m && IsError(s.o))
      && (Drops(e, f, m, i) ==> s.m.works == m.works[i := m.works[i].(held := None)] && IsError(s.o))
      && (Commits(e, f, m, i) ==> s == Propagate(e, f, Committed(e, f, m, i), i))
  {
    hide CompositeFrame, NearerHorizon, Reduce, Barred, Passes, Commit, Propagate, EvidenceFor;
    var c, w := f[i], m.works[i];
    if AllReady(c, m, |c.children|) && OneChildClock(c, m) {
      CompositeInCount(e, c, m);
    }
    var o := OfferOf(e, f, m, i);
    if o.Frame? {
      var evidence := EvidenceOf(w, o);
      ReduceOutcome(e, c.id, o.s, o.horizon, w.state, evidence);
      var next := Reduce(e.H, e.R, c.id, o.s, o.horizon, w.state, evidence);
      assert ReduceComposite(e, f, m, i) == Settle(e, f, m, i, next, evidence, o.clock);
    }
  }

  lemma {:induction false} CellTried(e: Env, f: seq<Spec>, m: Machine, i: nat)
    requires Forest(f) && Shaped(f, m) && i < |f|
    ensures var s := Tried(e, f, m, i);
      && (Quiet(e, f, m, i) ==> s.m.works == m.works && !IsError(s.o) && s.o != HoldLimit)
      && (Stuck(e, f, m, i) ==> s.m == m && IsError(s.o))
      && (Drops(e, f, m, i) ==> s.m.works == m.works[i := m.works[i].(held := None)] && IsError(s.o))
      && (Commits(e, f, m, i) ==> s == Propagate(e, f, Committed(e, f, m, i), i))
  {
    hide Tried, Quiet, Stuck, Drops, Commits, Committed;
    if f[i].leaf {
      LeafTried(e, f, m, i);
    } else {
      CompositeTried(e, f, m, i);
    }
  }

  /** A cell is of exactly one kind. */
  lemma OneKind(e: Env, f: seq<Spec>, m: Machine, i: nat)
    requires Forest(f) && Shaped(f, m) && i < |f|
    ensures Quiet(e, f, m, i) || Stuck(e, f, m, i) || Drops(e, f, m, i) || Commits(e, f, m, i)
    ensures Quiet(e, f, m, i) ==> !Stuck(e, f, m, i) && !Drops(e, f, m, i) && !Commits(e, f, m, i)
    ensures Stuck(e, f, m, i) ==> !Drops(e, f, m, i) && !Commits(e, f, m, i)
    ensures Drops(e, f, m, i) ==> !Commits(e, f, m, i)
  {
    hide OfferOf, Barred, Passes;
  }

  /** A commit is answered OK, unless an error of a cell above it is passed down. */
  lemma CommitIsOk(e: Env, f: seq<Spec>, m: Machine, i: nat)
    requires Forest(f) && Shaped(f, m) && i < |f| && Commits(e, f, m, i)
    ensures Tried(e, f, m, i).o == Ok || IsError(Tried(e, f, m, i).o)
  {
    hide Commits, Committed, Tried, Quiet, Stuck, Drops, ReduceComposite;
    CellTried(e, f, m, i);
    var v := Committed(e, f, m, i);
    if f[i].parent.Some? {
      NoLimitAbove(e, f, v, f[i].parent.value);
    }
  }

  lemma NoLimitAbove(e: Env, f: seq<Spec>, m: Machine, j: nat)
    requires Forest(f) && Shaped(f, m) && j < |f|
    ensures ReduceComposite(e, f, m, j).o != HoldLimit
  {
    hide Forest, Shaped, ReduceComposite;
    CompositeOutcome(e, f, m, j);
  }

  /** A composite has a frame of its children at a later clock that does not seal. */
  predicate Unsealed(e: Env, f: seq<Spec>, m: Machine, i: nat)
    requires Forest(f) && Shaped(f, m) && i < |f|
  {
    var c, w := f[i], m.works[i];
    && !c.leaf && AllReady(c, m, |c.children|) && OneChildClock(c, m)
    && (w.state.Some? ==> w.state.value.clock < ChildState(c, m, 0).value.clock)
    && CompositeFrame(e, c, m).Refused?
  }

  /**
   * A try that commits nothing counts one frame held if a frame was put to the reduction and not barred, or a
   * composite's did not seal; and none otherwise.
   */
  lemma FramesHeld(e: Env, f: seq<Spec>, m: Machine, i: nat)
    requires Forest(f) && Shaped(f, m) && i < |f| && !Commits(e, f, m, i)
    ensures var held := Unsealed(e, f, m, i) || (OfferOf(e, f, m, i).Frame? && !Stuck(e, f, m, i));
      Tried(e, f, m, i).m.report
      == m.report.(framesHeld := m.report.framesHeld + if held then 1 else 0)
  {
    hide Seal, CompositeFrame, NearerHorizon, Reduce, Barred, Passes, LeafObservations, Commit, Propagate;
    var c, w := f[i], m.works[i];
    var o := OfferOf(e, f, m, i);
    if o.Frame? {
      ReduceOutcome(e, c.id, o.s, o.horizon, w.state, EvidenceOf(w, o));
      var next := Reduce(e.H, e.R, c.id, o.s, o.horizon, w.state, EvidenceOf(w, o));
      assert Tried(e, f, m, i) == Settle(e, f, m, i, next, EvidenceOf(w, o), o.clock);
    }
  }

  // ---- where an error comes from ----

  predicate ParentsAreComposite(f: seq<Spec>)
    requires Forest(f)
  {
    forall i :: 0 <= i < |f| && f[i].parent.Some? ==> !f[f[i].parent.value].leaf
  }

  /** Where the climb from a cell ends: each cell on the way committed, the last one did not, or has no parent. */
  ghost function Summit(e: Env, f: seq<Spec>, m: Machine, i: nat): (r: (Machine, nat))
    requires Forest(f) && Shaped(f, m) && i < |f|
    ensures Shaped(f, r.0) && i <= r.1 < |f|
    decreases |f| - i
  {
    if Commits(e, f, m, i) && f[i].parent.Some? then Summit(e, f, Committed(e, f, m, i), f[i].parent.value)
    else (m, i)
  }

  /**
   * Trying a cell ends in an error if and only if the climb from it ends at a stuck cell, or at one whose refused
   * transition drops a witness; a stuck one leaves everything as the climb left it.
   */
  lemma {:induction false} ErrorComesFrom(e: Env, f: seq<Spec>, m: Machine, i: nat)
    requires Forest(f) && ParentsAreComposite(f) && Shaped(f, m) && i < |f|
    ensures var (x, j) := Summit(e, f, m, i);
      && (IsError(Tried(e, f, m, i).o) <==> Stuck(e, f, x, j) || Drops(e, f, x, j))
      && (Stuck(e, f, x, j) ==> Tried(e, f, m, i).m == x)
      && (Drops(e, f, x, j) ==> Tried(e, f, m, i).m.works == x.works[j := x.works[j].(held := None)])
    decreases |f| - i
  {
    hide Forest, Shaped, Stuck, Drops, Quiet, Commits, Committed, ReduceComposite, ReduceLeaf;
    CellTried(e, f, m, i);
    OneKind(e, f, m, i);
    if Commits(e, f, m, i) && f[i].parent.Some? {
      Linking(f, i);
      ErrorComesFrom(e, f, Committed(e, f, m, i), f[i].parent.value);
    }
  }

  lemma Linking(f: seq<Spec>, i: nat)
    requires Forest(f) && ParentsAreComposite(f) && i < |f| && f[i].parent.Some?
    ensures i < f[i].parent.value < |f| && !f[f[i].parent.value].leaf
  {}

  lemma SoundParents(f: seq<Spec>, limits: Limits)
    requires Sound(f, limits)
    ensures Forest(f) && ParentsAreComposite(f)
  {
    forall i | 0 <= i < |f| && f[i].parent.Some? ensures !f[f[i].parent.value].leaf {
      assert i in f[f[i].parent.value].children;
    }
  }

  /** So a round of retries that fails does so at a stuck cell, or at one whose refused transition drops its witness. */
  lemma {:induction false} RetryErrorComesFrom(e: Env, f: seq<Spec>, m: Machine, visited: nat, after: Option<Name>)
    returns (x: Machine, j: nat)
    requires Forest(f) && ParentsAreComposite(f) && Shaped(f, m) && DistinctIds(f) && visited == |Passed(f, after)|
    requires visited <= |f| && IsError(Retry(e, f, m, visited, after).o)
    ensures j < |f| && Shaped(f, x)
    ensures var r := Retry(e, f, m, visited, after);
      || (Stuck(e, f, x, j) && r.m == x)
      || (Drops(e, f, x, j) && r.m.works == x.works[j := x.works[j].(held := None)])
    decreases |f| - |Passed(f, after)|
  {
    hide Forest, Shaped, NextCell, DistinctIds, Passed, Stuck, Drops, Tried, IsError, Summit, ParentsAreComposite;
    OkIsNoError();
    PassedBound(f, after);
    assert visited < |f|;
    WorksCount(f, m);
    var k := NextCell(f, after, |f|);
    PassedGrows(f, after);
    RetryUnfolds(e, f, m, visited, after);
    if f[k].leaf && m.works[k].count != |f[k].members| {
      x, j := RetryErrorComesFrom(e, f, m, visited + 1, Some(f[k].id));
    } else {
      var s := Tried(e, f, m, k);
      ErrorComesFrom(e, f, m, k);
      NoLimit(e, f, m, k);
      if IsError(s.o) {
        var summit := Summit(e, f, m, k);
        x, j := summit.0, summit.1;
      } else {
        x, j := RetryErrorComesFrom(e, f, s.m, visited + 1, Some(f[k].id));
      }
    }
  }

  lemma NoLimit(e: Env, f: seq<Spec>, m: Machine, k: nat)
    requires Forest(f) && Shaped(f, m) && k < |f|
    ensures Tried(e, f, m, k).o != HoldLimit
  {
    hide Forest, Shaped, ReduceLeaf, ReduceComposite;
    if f[k].leaf {
      LeafOutcome(e, f, m, k);
    } else {
      CompositeOutcome(e, f, m, k);
    }
  }

  // ---- the first retry ----

  /** The stuck cell i is reached over quiet ones only. */
  predicate BlockedAt(e: Env, f: seq<Spec>, m: Machine, i: nat)
    requires Forest(f) && Shaped(f, m)
  {
    && i < |f| && Stuck(e, f, m, i)
    && forall j :: 0 <= j < |f| && NameBefore(f[j].id, f[i].id) ==> Quiet(e, f, m, j)
  }

  ghost predicate Blocked(e: Env, f: seq<Spec>, m: Machine)
    requires Forest(f) && Shaped(f, m)
  {
    exists i: nat :: BlockedAt(e, f, m, i)
  }

  /** The same, of the cells after a name. */
  predicate BlockedAfter(e: Env, f: seq<Spec>, m: Machine, after: Option<Name>, i: nat)
    requires Forest(f) && Shaped(f, m)
  {
    && i < |f| && Later(after, f[i].id) && Stuck(e, f, m, i)
    && forall j :: 0 <= j < |f| && Later(after, f[j].id) && NameBefore(f[j].id, f[i].id) ==> Quiet(e, f, m, j)
  }

  /** A committed cell stays changed, whatever comes after. */
  lemma CommitShows(e: Env, f: seq<Spec>, m: Machine, i: nat)
    requires Forest(f) && Shaped(f, m) && i < |f| && Commits(e, f, m, i)
    ensures var w, v := m.works[i], Tried(e, f, m, i).m.works[i];
      v.state.Some? && (w.state.Some? ==> w.state.value.clock < v.state.value.clock)
  {
    hide Reduce, Barred, Passes, OfferOf, EvidenceFor, TraceBytes, Tried;
    CellTried(e, f, m, i);
    var o, w := OfferOf(e, f, m, i), m.works[i];
    var r := Reduce(e.H, e.R, f[i].id, o.s, o.horizon, w.state, EvidenceOf(w, o));
    ReduceOutcome(e, f[i].id, o.s, o.horizon, w.state, EvidenceOf(w, o));
    if w.state.Some? {
      ReduceLinks(e.H, e.R, f[i].id, o.s, o.horizon, w.state.value, EvidenceOf(w, o));
    }
    ClimbLeaves(e, f, Committed(e, f, m, i), i, i);
  }

  /** Offers depend on the cells alone. */
  lemma {:induction false} SameSpan(c: Spec, m: Machine, v: Machine, n: nat)
    requires v.works == m.works && 1 <= n <= |c.children|
    requires (forall k :: 0 <= k < |c.children| ==> c.children[k] < |m.works|) && AllReady(c, m, n) && AllReady(c, v, n)
    ensures ChildSpan(c, v, n) == ChildSpan(c, m, n)
    decreases n
  {
    hide Widen;
    if n > 1 {
      SameSpan(c, m, v, n - 1);
    }
  }

  lemma SameChildren(c: Spec, m: Machine, v: Machine)
    requires v.works == m.works && 1 <= |c.children| && forall k :: 0 <= k < |c.children| ==> c.children[k] < |m.works|
    ensures forall k :: 0 <= k < |c.children| ==> ChildState(c, v, k) == ChildState(c, m, k)
    ensures AllReady(c, v, |c.children|) <==> AllReady(c, m, |c.children|)
    ensures AllReady(c, m, |c.children|) ==> (OneChildClock(c, v) <==> OneChildClock(c, m))
  {
    assert forall k :: 0 <= k < |c.children| ==> ChildState(c, v, k) == ChildState(c, m, k);
    if AllReady(c, m, |c.children|) {
      forall k | 0 <= k < |c.children| ensures ChildState(c, v, k).Some? {
        assert ChildState(c, m, k).Some?;
      }
    }
    if AllReady(c, v, |c.children|) {
      forall k | 0 <= k < |c.children| ensures ChildState(c, m, k).Some? {
        assert ChildState(c, v, k).Some?;
      }
    }
  }

  lemma SameOffer(e: Env, f: seq<Spec>, m: Machine, v: Machine, i: nat)
    requires Forest(f) && Shaped(f, m) && Shaped(f, v) && v.works == m.works && i < |f|
    ensures OfferOf(e, f, v, i) == OfferOf(e, f, m, i)
  {
    hide Seal, ChildSpan;
    var c := f[i];
    if !c.leaf {
      SameChildren(c, m, v);
      if AllReady(c, m, |c.children|) {
        SameSpan(c, m, v, |c.children|);
        assert ChildObservations(c, v) == ChildObservations(c, m);
      }
    }
  }

  lemma SameKinds(e: Env, f: seq<Spec>, m: Machine, v: Machine, i: nat)
    requires Forest(f) && Shaped(f, m) && Shaped(f, v) && v.works == m.works && i < |f|
    ensures Quiet(e, f, v, i) <==> Quiet(e, f, m, i)
    ensures Stuck(e, f, v, i) <==> Stuck(e, f, m, i)
  {
    hide OfferOf;
    SameOffer(e, f, m, v, i);
  }

  /** The next cell in name order. */
  predicate NextIs(f: seq<Spec>, after: Option<Name>, j: nat) {
    && j < |f| && Later(after, f[j].id)
    && forall k :: 0 <= k < |f| && Later(after, f[k].id) && k != j ==> NameBefore(f[j].id, f[k].id)
  }

  lemma NextCellIs(f: seq<Spec>, after: Option<Name>)
    requires DistinctIds(f) && NextCell(f, after, |f|) < |f|
    ensures NextIs(f, after, NextCell(f, after, |f|))
  {
    hide NameBefore, NextCell, Later;
    NextCellLeast(f, after, |f|);
    var j := NextCell(f, after, |f|);
    forall k | 0 <= k < |f| && Later(after, f[k].id) && k != j ensures NameBefore(f[j].id, f[k].id) {
      NamesTotal(f[j].id, f[k].id);
    }
  }

  lemma LaterStill(f: seq<Spec>, after: Option<Name>, j: nat, k: nat)
    requires NextIs(f, after, j) && k < |f| && DistinctIds(f)
    ensures Later(Some(f[j].id), f[k].id) <==> Later(after, f[k].id) && k != j
  {
    hide NameBefore;
    NamesIrreflexive(f[j].id);
    if after.Some? && NameBefore(f[j].id, f[k].id) {
      NamesTransitive(after.value, f[j].id, f[k].id);
    }
  }

  /** Behind a quiet cell the same cells are blocked, in a machine with the same cells. */
  lemma BlockedBehindQuiet(e: Env, f: seq<Spec>, m: Machine, v: Machine, after: Option<Name>, j: nat, i: nat)
    requires Forest(f) && Shaped(f, m) && Shaped(f, v) && v.works == m.works && DistinctIds(f)
    requires NextIs(f, after, j) && Quiet(e, f, m, j)
    ensures BlockedAfter(e, f, m, after, i) <==> BlockedAfter(e, f, v, Some(f[j].id), i)
  {
    hide NameBefore, Quiet, Stuck, Later, NextIs, Forest, Shaped;
    NextInRange(f, after, j);
    OneKind(e, f, m, j);
    if i < |f| {
      SameKinds(e, f, m, v, i);
      LaterStill(f, after, j, i);
      forall k | 0 <= k < |f|
        ensures Later(Some(f[j].id), f[k].id) <==> Later(after, f[k].id) && k != j
        ensures Quiet(e, f, v, k) <==> Quiet(e, f, m, k)
      {
        LaterStill(f, after, j, k);
        SameKinds(e, f, m, v, k);
      }
    }
  }

  lemma NextInRange(f: seq<Spec>, after: Option<Name>, j: nat)
    requires NextIs(f, after, j)
    ensures j < |f| && Later(after, f[j].id)
  {}

  lemma StuckNextBlocks(e: Env, f: seq<Spec>, m: Machine, after: Option<Name>, j: nat)
    requires Forest(f) && Shaped(f, m) && NextIs(f, after, j) && DistinctIds(f) && Stuck(e, f, m, j)
    ensures BlockedAfter(e, f, m, after, j)
  {
    hide NameBefore, Quiet, Stuck, Forest, Shaped;
    NamesIrreflexive(f[j].id);
    forall k | 0 <= k < |f| && Later(after, f[k].id) ensures !NameBefore(f[k].id, f[j].id) {
      if k != j && NameBefore(f[k].id, f[j].id) {
        NamesTransitive(f[j].id, f[k].id, f[j].id);
      }
    }
  }

  lemma BusyNextOpens(e: Env, f: seq<Spec>, m: Machine, after: Option<Name>, j: nat, i: nat)
    requires Forest(f) && Shaped(f, m) && NextIs(f, after, j) && !Quiet(e, f, m, j) && !Stuck(e, f, m, j)
    ensures !BlockedAfter(e, f, m, after, i)
  {
    hide NameBefore, Quiet, Stuck, Forest, Shaped, Later;
  }

  /** What a try changed, the rest of the retry does not change back. */
  lemma BusyNextShows(e: Env, f: seq<Spec>, m: Machine, j: nat, visited: nat)
    requires Sane(e, f, m) && Forest(f) && Shaped(f, m) && j < |f| == |m.works| && visited < |f|
    requires !Quiet(e, f, m, j) && !Stuck(e, f, m, j)
    ensures var s := Tried(e, f, m, j);
      && s.m.works != m.works
      && (!(s.o == HoldLimit || IsError(s.o)) ==> Retry(e, f, s.m, visited + 1, Some(f[j].id)).m.works != m.works)
  {
    hide Sane, Tried, Retry, Quiet, Stuck, Commits, Forest, Shaped, OfferOf, OfferBarred, OfferPasses, MissedKept,
      HeldKept, EndedKept, JammedKept, IsError;
    OneKind(e, f, m, j);
    CellTried(e, f, m, j);
    var s := Tried(e, f, m, j);
    if Commits(e, f, m, j) {
      CommitShows(e, f, m, j);
      TriedTrail(e, f, m, j, j);
      WorksCount(f, s.m);
      RetryTrail(e, f, s.m, visited + 1, Some(f[j].id), j);
      var v := Retry(e, f, s.m, visited + 1, Some(f[j].id)).m;
      assert Onward(s.m.works[j], v.works[j]);
    } else {
      assert m.works[j].held.Some?;
      assert s.m.works[j].held.None?;
    }
  }

  /**
   * The first retry, from any point of its round: it fails and leaves every cell as it was if and only if a stuck
   * cell is reached over quiet ones.
   */
  lemma {:induction false} RetryBlockedAfter(e: Env, f: seq<Spec>, m: Machine, visited: nat, after: Option<Name>)
    requires Sane(e, f, m) && Forest(f) && Shaped(f, m) && DistinctIds(f) && visited == |Passed(f, after)|
    ensures visited <= |f|
    ensures var r := Retry(e, f, m, visited, after);
      (exists i: nat :: BlockedAfter(e, f, m, after, i)) <==> r.o != Ok && r.m.works == m.works
    decreases |f| - |Passed(f, after)|
  {
    hide Sane, Forest, Shaped, NextCell, DistinctIds, Passed, Quiet, Stuck, Drops, Commits, ReduceLeaf, ReduceComposite,
      BlockedAfter, NextIs;
    PassedBound(f, after);
    WorksCount(f, m);
    if visited == |f| {
      AllPassed(e, f, m, after);
    } else {
      var j := NextCell(f, after, |f|);
      NextCellIs(f, after);
      PassedGrows(f, after);
      RetryUnfolds(e, f, m, visited, after);
      if f[j].leaf && m.works[j].count != |f[j].members| {
        NotFullIsQuiet(e, f, m, j);
        BlockedBehind(e, f, m, m, after, j);
        RetryBlockedAfter(e, f, m, visited + 1, Some(f[j].id));
      } else {
        var s := Tried(e, f, m, j);
        CellTried(e, f, m, j);
        OneKind(e, f, m, j);
        TriedTrail(e, f, m, j, j);
        if Quiet(e, f, m, j) {
          BlockedBehind(e, f, m, s.m, after, j);
          RetryBlockedAfter(e, f, s.m, visited + 1, Some(f[j].id));
        } else if Stuck(e, f, m, j) {
          StuckNextBlocks(e, f, m, after, j);
        } else {
          BusyNextShows(e, f, m, j, visited);
          forall i: nat ensures !BlockedAfter(e, f, m, after, i) {
            BusyNextOpens(e, f, m, after, j, i);
          }
        }
      }
    }
  }

  lemma BlockedBehind(e: Env, f: seq<Spec>, m: Machine, v: Machine, after: Option<Name>, j: nat)
    requires Forest(f) && Shaped(f, m) && Shaped(f, v) && v.works == m.works && DistinctIds(f)
    requires NextIs(f, after, j) && j < |f| && Quiet(e, f, m, j)
    ensures (exists i: nat :: BlockedAfter(e, f, m, after, i))
       <==> (exists i: nat :: BlockedAfter(e, f, v, Some(f[j].id), i))
  {
    hide BlockedAfter, NextIs, Quiet, Forest, Shaped, DistinctIds;
    forall i: nat ensures BlockedAfter(e, f, m, after, i) <==> BlockedAfter(e, f, v, Some(f[j].id), i) {
      BlockedBehindQuiet(e, f, m, v, after, j, i);
    }
  }

  lemma RetryUnfolds(e: Env, f: seq<Spec>, m: Machine, visited: nat, after: Option<Name>)
    requires Forest(f) && Shaped(f, m) && visited < |f| && NextCell(f, after, |f|) < |f|
    ensures var j, r := NextCell(f, after, |f|), Retry(e, f, m, visited, after);
      if f[j].leaf && m.works[j].count != |f[j].members| then r == Retry(e, f, m, visited + 1, Some(f[j].id))
      else
        var s := Tried(e, f, m, j);
        r == if s.o == HoldLimit || IsError(s.o) then s else Retry(e, f, s.m, visited + 1, Some(f[j].id))
  {
    hide NextCell, ReduceLeaf, ReduceComposite, IsError;
  }

  lemma NotFullIsQuiet(e: Env, f: seq<Spec>, m: Machine, j: nat)
    requires Forest(f) && Shaped(f, m) && j < |f| && f[j].leaf && m.works[j].count != |f[j].members|
    ensures Quiet(e, f, m, j)
  {
    hide Barred, Passes;
  }

  lemma AllPassed(e: Env, f: seq<Spec>, m: Machine, after: Option<Name>)
    requires Forest(f) && Shaped(f, m) && |Passed(f, after)| == |f|
    ensures !exists i: nat :: BlockedAfter(e, f, m, after, i)
  {
    hide Stuck, Quiet, Forest, Shaped, Later;
    forall i | 0 <= i < |f| ensures !Later(after, f[i].id) {
      if Later(after, f[i].id) {
        NotAllPassed(f, after, i);
      }
    }
  }

  /**
   * The retry that begins a drain fails and leaves every cell as it was if and only if some stuck cell comes, in
   * name order, behind quiet ones only.
   */
  lemma {:induction false} RetryBlockedIff(e: Env, f: seq<Spec>, m: Machine)
    requires Sane(e, f, m) && Forest(f) && Shaped(f, m) && DistinctIds(f)
    ensures var r := Retry(e, f, m, 0, None);
      Blocked(e, f, m) <==> IsError(r.o) && r.m.works == m.works
  {
    hide Sane, Retry, Quiet, Stuck, DistinctIds, Forest, Shaped, IsError;
    assert Passed(f, None) == {};
    RetryBlockedAfter(e, f, m, 0, None);
    RetryNeverRunsOut(e, f, m);
    OkIsNoError();
    forall i: nat ensures BlockedAt(e, f, m, i) <==> BlockedAfter(e, f, m, None, i) {}
  }

  lemma OkIsNoError()
    ensures !IsError(Ok)
  {}

  // ---- runs ----

  /** What keeps a drain from its events, as a state of the scheduler. */
  ghost predicate DrainBlocked(e: Env, s: Sched) {
    s.sealed && Forest(s.f) && Shaped(s.f, s.m) && Blocked(e, s.f, s.m)
  }

  lemma BlockedStays(e: Env, f: seq<Spec>, m: Machine, v: Machine)
    requires Forest(f) && Shaped(f, m) && Shaped(f, v) && v.works == m.works && Blocked(e, f, m)
    ensures Blocked(e, f, v)
  {
    hide Quiet, Stuck, NameBefore;
    var i: nat :| BlockedAt(e, f, m, i);
    SameKinds(e, f, m, v, i);
    forall j | 0 <= j < |f| && NameBefore(f[j].id, f[i].id) ensures Quiet(e, f, v, j) {
      SameKinds(e, f, m, v, j);
    }
    assert BlockedAt(e, f, v, i);
  }

  /** A drain that is blocked answers an error, takes no event, and leaves every cell as it was. */
  lemma BlockedDrain(e: Env, s: Sched, maximum: nat)
    requires Good(e, s) && DrainBlocked(e, s) && maximum > 0
    ensures var a := DrainWorld(e, s, maximum);
      && IsError(a.o) && a.s.q == s.q && a.s.m.works == s.m.works && a.s.f == s.f && DrainBlocked(e, a.s)
  {
    hide Good, Sane, Forest, Shaped, DistinctIds, Retry, DrainQueue, Blocked, IsError;
    GoodIsSane(e, s);
    var m := s.m.(report := NO_REPORT);
    CountedSane(e, s.f, s.m, NO_REPORT);
    BlockedStays(e, s.f, s.m, m);
    RetryBlockedIff(e, s.f, m);
    OkIsNoError();
    var r := Retry(e, s.f, m, 0, None);
    BlockedStays(e, s.f, m, r.m);
  }

  lemma CountedSane(e: Env, f: seq<Spec>, m: Machine, r: Report)
    requires Sane(e, f, m) && Forest(f)
    ensures Sane(e, f, m.(report := r)) && Shaped(f, m.(report := r))
  {
    hide Inv, Rings;
    ReportKeeps(e, f, NoBases(|f|), m, r);
    SaneShaped(e, f, m.(report := r));
  }

  lemma BlockedStep(e: Env, s: Sched, op: Op)
    requires Good(e, s) && DrainBlocked(e, s) && Forest(s.f) && Shaped(s.f, s.m)
    ensures var v := SchedulerRuns.After(e, s, op);
      v.f == s.f && v.m.works == s.m.works && DrainBlocked(e, v)
  {
    hide Good, Forest, Shaped, DrainWorld, CellVerdict, QueueVerdict, CellWitnessVerdict, QueueWitnessVerdict,
      ReadingOk, Blocked;
    SealedStays(e, s, op);
    match op
    case OpDrain(maximum) =>
      if maximum > 0 {
        BlockedDrain(e, s, maximum);
      } else {
        NothingToDrain(e, s);
      }
    case _ =>
      assert SchedulerRuns.After(e, s, op).m == s.m;
  }

  lemma NothingToDrain(e: Env, s: Sched)
    requires Forest(s.f) && Shaped(s.f, s.m)
    ensures DrainWorld(e, s, 0).s == s
  {}

  /**
   * And so it stays: over every run no cell changes any more, and every drain answers an error and leaves the queue
   * as it found it.
   */
  lemma {:induction false} BlockedForever(e: Env, s: Sched, ops: seq<Op>, maximum: nat)
    requires Good(e, s) && DrainBlocked(e, s) && maximum > 0
    ensures var v := Run(e, s, ops);
      && v.f == s.f && v.m.works == s.m.works && DrainBlocked(e, v)
      && IsError(DrainWorld(e, v, maximum).o) && DrainWorld(e, v, maximum).s.q == v.q
    decreases ops
  {
    hide Good, SchedulerRuns.After, DrainBlocked, DrainWorld, IsError;
    BlockedIsShaped(e, s);
    if ops == [] {
      BlockedDrain(e, s, maximum);
    } else {
      StepGood(e, s, ops[0]);
      BlockedStep(e, s, ops[0]);
      BlockedForever(e, SchedulerRuns.After(e, s, ops[0]), ops[1..], maximum);
      BlockedIsShaped(e, Run(e, s, ops));
    }
  }

  lemma BlockedIsShaped(e: Env, s: Sched)
    requires DrainBlocked(e, s)
    ensures Forest(s.f) && Shaped(s.f, s.m)
  {}

  /**
   * Otherwise a drain makes headway: its first retry goes through, or changes some cell by a commit or by a dropped
   * witness.
   */
  lemma {:induction false} BlockedOrHeadway(e: Env, s: Sched)
    requires Good(e, s) && s.sealed && Forest(s.f) && Shaped(s.f, s.m)
    ensures var r := Retry(e, s.f, s.m.(report := NO_REPORT), 0, None);
      DrainBlocked(e, s) <==> r.o != Ok && r.m.works == s.m.works
  {
    hide Good, Sane, Forest, Shaped, DistinctIds, Retry, Blocked, IsError;
    GoodIsSane(e, s);
    var m := s.m.(report := NO_REPORT);
    CountedSane(e, s.f, s.m, NO_REPORT);
    RetryBlockedIff(e, s.f, m);
    RetryNeverRunsOut(e, s.f, m);
    OkIsNoError();
    if Blocked(e, s.f, m) {
      BlockedStays(e, s.f, m, s.m);
    }
    if Blocked(e, s.f, s.m) {
      BlockedStays(e, s.f, s.m, m);
    }
  }

  /** In every sealed scheduler an error of that first retry comes from a stuck cell or from a dropped witness. */
  lemma DrainErrorComesFrom(e: Env, s: Sched) returns (x: Machine, j: nat)
    requires Good(e, s) && Forest(s.f) && Shaped(s.f, s.m)
    requires IsError(Retry(e, s.f, s.m.(report := NO_REPORT), 0, None).o)
    ensures j < |s.f| && Shaped(s.f, x)
    ensures var r := Retry(e, s.f, s.m.(report := NO_REPORT), 0, None);
      || (Stuck(e, s.f, x, j) && r.m == x)
      || (Drops(e, s.f, x, j) && r.m.works == x.works[j := x.works[j].(held := None)])
  {
    hide Good, Sane, Sound, Forest, Shaped, DistinctIds, Retry, Stuck, Drops, IsError, ParentsAreComposite;
    GoodIsSane(e, s);
    GoodIsSound(e, s);
    SoundParents(s.f, s.limits);
    CountedSane(e, s.f, s.m, NO_REPORT);
    assert Passed(s.f, None) == {};
    x, j := RetryErrorComesFrom(e, s.f, s.m.(report := NO_REPORT), 0, None);
  }

  lemma GoodIsSound(e: Env, s: Sched)
    requires Good(e, s)
    ensures Sound(s.f, s.limits)
  {
    hide Sound, Inv, DistinctKeys;
  }

  // ---- stuck cells ----

  lemma JammedIsStuck(e: Env, f: seq<Spec>, m: Machine, i: nat)
    requires Forest(f) && Shaped(f, m) && i < |f| && Jammed(e, f[i], m.works[i])
    ensures Stuck(e, f, m, i)
  {
    hide Seal, Hopeless, Passes, LeafObservations;
  }

  /** A composite whose children stand at a later clock, and two of them half a turn apart. */
  lemma AntipodalIsStuck(e: Env, f: seq<Spec>, m: Machine, i: nat, k: nat)
    requires Forest(f) && Shaped(f, m) && i < |f| && CompositeTries(e, f, m, i)
    requires var s := CompositeFrame(e, f[i], m).snapshot;
      s.digest != ZeroDigest() && k < |s.observations| && Antipodal(s.observations, k)
    ensures Stuck(e, f, m, i)
  {
    hide Seal, ChildSpan, Antipodal, Classify, StateValid, Passes, ListsAll, Ring.IsRing, SnapshotValid;
    var c := f[i];
    var span := ChildSpan(c, m, |c.children|);
    SealYieldsRing(e.H, FrameConfig(c, span.windowStart, span.windowEnd), ChildObservations(c, m), span.windowEnd);
    ClassifySealed(e.H, CompositeFrame(e, c, m).snapshot);
  }

  /** A composite behind a state that ended its chain, once its children's next frame seals. */
  lemma EndedIsStuck(e: Env, f: seq<Spec>, m: Machine, i: nat)
    requires Forest(f) && Shaped(f, m) && i < |f| && CompositeTries(e, f, m, i) && Ended(e, m.works[i])
    ensures Stuck(e, f, m, i)
  {
    hide CompositeFrame, Classify, StateValid, Passes;
  }
}
