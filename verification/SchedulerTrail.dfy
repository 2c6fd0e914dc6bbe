/**
 * What a cell carries with it whatever happens: a composite's witness, a state that ends its chain, a batch that
 * can never be reduced. Each piece is shown to survive every function of the scheduler.
 */
module SchedulerTrail {
  import opened Bytes
  import opened Options
  import opened Ring
  import opened Frame
  import opened Topology
  import opened Cell
  import opened Scheduler
  import opened SchedulerLaws
  import opened SchedulerDrain
  import opened SchedulerRuns

  /** The cell has committed past this clock. */
  predicate Past(w: Work, clock: U64) {
    w.state.Some? && clock < w.state.value.clock
  }

  /**
   * A composite holds a witness that can no longer meet its frame: the composite itself is at that clock or past
   * it, or a child is past it.
   */
  predicate Missed(f: seq<Spec>, m: Machine, i: nat)
    requires i < |f| && i < |m.works|
  {
    var c, w := f[i], m.works[i];
    && !c.leaf && w.held.Some? && (w.state.Some? ==> w.state.value.frameVersion == c.frameVersion)
    && (|| (w.state.Some? && w.held.value.target <= w.state.value.clock)
        || exists k :: 0 <= k < |c.children| && c.children[k] < |m.works|
                       && Past(m.works[c.children[k]], w.held.value.target))
  }

  /** The cell's last state fails validation. */
  predicate Ended(e: Env, w: Work) {
    w.state.Some? && !StateValid(e.H, w.state.value)
  }

  /** No state can come of this snapshot here, whatever the evidence. */
  predicate Hopeless(H: Hash, id: Name, s: Snapshot, horizon: U64, p: Option<State>) {
    || !NameValid(id) || |s.observations| < 2 || horizon < s.clock || s.digest == ZeroDigest()
    || Classify(H, s).Unclassified?
    || (p.Some? && (!StateValid(H, p.value) || p.value.id != id || p.value.clock >= s.clock || horizon < p.value.horizon
                    || s.windowStart < p.value.windowStart || s.windowEnd <= p.value.windowEnd))
  }

  /** The snapshot may follow what the cell has, with this evidence. */
  predicate Passes(H: Hash, id: Name, s: Snapshot, horizon: U64, p: Option<State>, evidence: Evidence) {
    if p.None? then Unwitnessed(evidence)
    else Classify(H, s).Classified? && FollowsCheck(H, id, s, Classify(H, s).state, horizon, p.value, evidence) == None
  }

  /** The reduction fails before the transition is judged, or behind it for want of room for so many members. */
  predicate Barred(H: Hash, id: Name, s: Snapshot, horizon: U64, p: Option<State>, evidence: Evidence) {
    || Hopeless(H, id, s, horizon, p)
    || (|s.observations| > MAX_MEMBERS && Passes(H, id, s, horizon, p, evidence))
  }

  /** What the reduction answers, from its guards alone. */
  lemma ReduceOutcome(e: Env, id: Name, s: Snapshot, horizon: U64, p: Option<State>, evidence: Evidence)
    ensures var r := Reduce(e.H, e.R, id, s, horizon, p, evidence);
      var barred, passes := Barred(e.H, id, s, horizon, p, evidence), Passes(e.H, id, s, horizon, p, evidence);
      && (barred <==> r.Failed? && r.why in {Argument, Unclassifiable, Clock})
      && (!barred && passes <==> r.Reduced?)
      && (!barred && !passes <==> r.Failed? && r.why in {Transition, FrameMismatch})
  {
    hide StateValid, Classify, StateBytes, HiddenBytes, VerifyTransition, FrameChangeValid;
  }

  /** A leaf with a full batch of which no frame, or no state, can ever come. */
  predicate Jammed(e: Env, c: Spec, w: Work) {
    && c.leaf && |c.succs| == |c.members| == |w.pending| && w.count == |c.members| && w.batch.Some?
    && (forall k :: 0 <= k < |w.pending| ==> w.pending[k].Some?)
    && var frame := LeafFrame(e, c, w);
    if frame.Refused? then frame.status !in {BadCount, HoldStale}
    else Hopeless(e.H, c.id, frame.snapshot, c.horizon, w.state)
  }

  lemma HopelessFails(e: Env, id: Name, s: Snapshot, horizon: U64, p: Option<State>, evidence: Evidence)
    requires Hopeless(e.H, id, s, horizon, p)
    ensures Reduce(e.H, e.R, id, s, horizon, p, evidence).Failed?
    ensures Reduce(e.H, e.R, id, s, horizon, p, evidence).why in {Argument, Unclassifiable, Clock}
  {
    hide StateValid, Classify, StateBytes, HiddenBytes, VerifyTransition;
  }

  // ---- the relation between a machine and what becomes of it ----

  /** Some commit of this cell has this clock. */
  predicate HasCommitted(commits: seq<(nat, State)>, cell: nat, clock: U64) {
    exists n :: 0 <= n < |commits| && commits[n].0 == cell && commits[n].1.clock == clock
  }

  /** The commits of cell i that v has beyond those of m record no transition, and wind as its state before, if any. */
  predicate OnlyPlain(m: Machine, v: Machine, i: nat)
    requires i < |m.works|
  {
    forall n :: |m.commits| <= n < |v.commits| && v.commits[n].0 == i ==>
      && v.commits[n].1.kind == NoEvent
      && (m.works[i].state.Some? ==> v.commits[n].1.winding == m.works[i].state.value.winding)
  }

  predicate NoMore(m: Machine, v: Machine, i: nat) {
    forall n :: |m.commits| <= n < |v.commits| ==> v.commits[n].0 != i
  }

  /** A state, once there, only moves forward. */
  predicate Onward(w: Work, v: Work) {
    w.state.Some? ==> v.state.Some? && w.state.value.clock <= v.state.value.clock
  }

  predicate Forward(m: Machine, v: Machine) {
    |m.works| == |v.works| && forall j :: 0 <= j < |m.works| ==> Onward(m.works[j], v.works[j])
  }

  predicate MissedKept(f: seq<Spec>, m: Machine, v: Machine, i: nat)
    requires i < |f| && i < |m.works| == |v.works|
  {
    Missed(f, m, i) ==>
      && Missed(f, v, i) && v.works[i].held == m.works[i].held && OnlyPlain(m, v, i)
      && (m.works[i].state.Some? ==>
            v.works[i].state.Some? && v.works[i].state.value.winding == m.works[i].state.value.winding)
  }

  predicate HeldKept(c: Spec, m: Machine, v: Machine, i: nat)
    requires i < |m.works| == |v.works|
  {
    !c.leaf && m.works[i].held.Some? ==>
      || v.works[i].held == m.works[i].held
      || forall k :: 0 <= k < |c.children| ==> HasCommitted(v.commits, c.children[k], m.works[i].held.value.target)
  }

  predicate EndedKept(e: Env, m: Machine, v: Machine, i: nat)
    requires i < |m.works| == |v.works|
  {
    Ended(e, m.works[i]) ==> v.works[i].state == m.works[i].state && NoMore(m, v, i)
  }

  predicate JammedKept(e: Env, c: Spec, m: Machine, v: Machine, i: nat)
    requires i < |m.works| == |v.works|
  {
    Jammed(e, c, m.works[i]) ==> Jammed(e, c, v.works[i])
  }

  predicate Trail(e: Env, f: seq<Spec>, m: Machine, v: Machine, i: nat)
    requires i < |f| && i < |m.works| == |v.works|
  {
    && m.commits <= v.commits && Forward(m, v)
    && MissedKept(f, m, v, i) && HeldKept(f[i], m, v, i) && EndedKept(e, m, v, i) && JammedKept(e, f[i], m, v, i)
  }

  lemma MissedChains(f: seq<Spec>, m: Machine, v: Machine, x: Machine, i: nat)
    requires i < |f| && i < |m.works| == |v.works| == |x.works| && m.commits <= v.commits <= x.commits
    requires MissedKept(f, m, v, i) && MissedKept(f, v, x, i)
    ensures MissedKept(f, m, x, i)
  {
    hide Missed;
  }

  lemma ForwardChains(m: Machine, v: Machine, x: Machine)
    requires Forward(m, v) && Forward(v, x)
    ensures Forward(m, x)
  {
    forall j | 0 <= j < |m.works| ensures Onward(m.works[j], x.works[j]) {
      assert Onward(m.works[j], v.works[j]) && Onward(v.works[j], x.works[j]);
    }
  }

  lemma HeldChains(c: Spec, m: Machine, v: Machine, x: Machine, i: nat)
    requires i < |m.works| == |v.works| == |x.works| && v.commits <= x.commits
    requires HeldKept(c, m, v, i) && HeldKept(c, v, x, i)
    ensures HeldKept(c, m, x, i)
  {
    hide HasCommitted;
    if !c.leaf && m.works[i].held.Some? && v.works[i].held != m.works[i].held {
      forall k | 0 <= k < |c.children| ensures HasCommitted(x.commits, c.children[k], m.works[i].held.value.target) {
        CommittedStays(v.commits, x.commits, c.children[k], m.works[i].held.value.target);
      }
    }
  }

  lemma CommittedStays(a: seq<(nat, State)>, b: seq<(nat, State)>, cell: nat, clock: U64)
    requires a <= b && HasCommitted(a, cell, clock)
    ensures HasCommitted(b, cell, clock)
  {
    var n :| 0 <= n < |a| && a[n].0 == cell && a[n].1.clock == clock;
    assert b[n] == a[n];
  }

  lemma EndedChains(e: Env, m: Machine, v: Machine, x: Machine, i: nat)
    requires i < |m.works| == |v.works| == |x.works| && m.commits <= v.commits <= x.commits
    requires EndedKept(e, m, v, i) && EndedKept(e, v, x, i)
    ensures EndedKept(e, m, x, i)
  {
    hide StateValid;
  }

  lemma TrailChains(e: Env, f: seq<Spec>, m: Machine, v: Machine, x: Machine, i: nat)
    requires i < |f| && i < |m.works| == |v.works| == |x.works| && Trail(e, f, m, v, i) && Trail(e, f, v, x, i)
    ensures Trail(e, f, m, x, i)
  {
    hide MissedKept, HeldKept, EndedKept, Jammed, Forward;
    MissedChains(f, m, v, x, i);
    HeldChains(f[i], m, v, x, i);
    EndedChains(e, m, v, x, i);
    ForwardChains(m, v, x);
  }

  /** What was missed stays missed while the held witness stays and no state goes back. */
  lemma MissedStays(f: seq<Spec>, m: Machine, v: Machine, i: nat)
    requires i < |f| && i < |m.works| && Forward(m, v) && Missed(f, m, i) && v.works[i].held == m.works[i].held
    requires v.works[i].state.Some? ==> v.works[i].state.value.frameVersion == f[i].frameVersion
    ensures Missed(f, v, i)
  {
    var c, target := f[i], m.works[i].held.value.target;
    assert Onward(m.works[i], v.works[i]);
    if !(m.works[i].state.Some? && target <= m.works[i].state.value.clock) {
      var k :| 0 <= k < |c.children| && c.children[k] < |m.works| && Past(m.works[c.children[k]], target);
      assert Onward(m.works[c.children[k]], v.works[c.children[k]]);
      assert Past(v.works[c.children[k]], target);
    }
  }

  /** The cell is as it was, and nothing was committed for it. */
  lemma TrailSame(e: Env, f: seq<Spec>, m: Machine, v: Machine, i: nat)
    requires i < |f| && i < |m.works| == |v.works| && v.works[i] == m.works[i]
    requires m.commits <= v.commits && NoMore(m, v, i) && Forward(m, v)
    ensures Trail(e, f, m, v, i)
  {
    hide Jammed, StateValid, Forward, Missed;
    if Missed(f, m, i) {
      MissedFrame(f, m, i);
      MissedStays(f, m, v, i);
    }
  }

  lemma MissedFrame(f: seq<Spec>, m: Machine, i: nat)
    requires i < |f| && i < |m.works| && Missed(f, m, i)
    ensures m.works[i].state.Some? ==> m.works[i].state.value.frameVersion == f[i].frameVersion
  {}

  /** Nothing but one cell differs, and it has the state it had. */
  lemma SameStates(m: Machine, v: Machine, i: nat)
    requires i < |m.works| == |v.works| && v.works[i].state == m.works[i].state
    requires forall j :: 0 <= j < |m.works| && j != i ==> v.works[j] == m.works[j]
    ensures Forward(m, v)
  {
    forall j | 0 <= j < |m.works| ensures Onward(m.works[j], v.works[j]) {}
  }

  /** The cell differs in its witness only, which it lost or got. */
  lemma TrailHeld(e: Env, f: seq<Spec>, m: Machine, v: Machine, i: nat, held: Option<Held>)
    requires i < |f| && i < |m.works| == |v.works| && v.works[i] == m.works[i].(held := held)
    requires v.commits == m.commits && Forward(m, v)
    requires !f[i].leaf && m.works[i].held.Some? ==>
      && !Missed(f, m, i)
      && forall k :: 0 <= k < |f[i].children| ==>
           HasCommitted(m.commits, f[i].children[k], m.works[i].held.value.target)
    ensures Trail(e, f, m, v, i)
  {
    hide Seal, Hopeless, StateValid;
    if Jammed(e, f[i], m.works[i]) {
      SameFrame(e, f[i], m.works[i], v.works[i]);
    }
  }

  lemma SameFrame(e: Env, c: Spec, w: Work, v: Work)
    requires |c.succs| == |c.members| == |w.pending| && v.pending == w.pending && v.batch == w.batch
    ensures |v.pending| == |w.pending| && LeafFrame(e, c, v) == LeafFrame(e, c, w)
  {
    hide Seal;
    assert LeafObservations(c, v) == LeafObservations(c, w);
  }

  // ---- reductions ----

  ghost predicate Sane(e: Env, f: seq<Spec>, m: Machine) {
    Forest(f) && Rings(f) && Inv(e, f, NoBases(|f|), m)
  }

  lemma SaneShaped(e: Env, f: seq<Spec>, m: Machine)
    requires Sane(e, f, m)
    ensures Forest(f) && Rings(f) && Shaped(f, m) && |m.works| == |f|
  {}

  /**
   * The state may be committed here: it moves the cell on, the chain has not ended, the batch is not jammed, a missed
   * witness is not used.
   */
  predicate Allowed(e: Env, f: seq<Spec>, m: Machine, i: nat, s: State)
    requires i < |f| && i < |m.works|
  {
    var w := m.works[i];
    && (w.state.Some? ==> w.state.value.clock < s.clock)
    && !Ended(e, w) && !Jammed(e, f[i], w)
    && (Missed(f, m, i) ==>
          && s.kind == NoEvent && s.frameVersion == f[i].frameVersion && w.held.value.target != s.clock
          && (w.state.Some? ==> s.winding == w.state.value.winding))
  }

  /** A committed state's clock is in the history. */
  lemma {:induction false} StateWasCommitted(commits: seq<(nat, State)>, i: nat)
    requires History(commits, i) != []
    ensures HasCommitted(commits, i, History(commits, i)[|History(commits, i)| - 1].clock)
    decreases commits
  {
    var n := |commits| - 1;
    if commits[n].0 != i {
      StateWasCommitted(commits[..n], i);
      CommittedStays(commits[..n], commits, i, History(commits, i)[|History(commits, i)| - 1].clock);
    } else {
      assert History(commits, i) == History(commits[..n], i) + [commits[n].1];
    }
  }

  lemma ChildrenCommitted(e: Env, f: seq<Spec>, m: Machine, i: nat, clock: U64)
    requires Sane(e, f, m) && i < |f| && |m.works| == |f|
    requires forall k :: 0 <= k < |f[i].children| ==>
      f[i].children[k] < |f| && ChildState(f[i], m, k).Some? && ChildState(f[i], m, k).value.clock == clock
    ensures forall k :: 0 <= k < |f[i].children| ==> HasCommitted(m.commits, f[i].children[k], clock)
  {
    hide HasCommitted, History, Forest, Rings, WorksInv, ClockInv, TraceOf, ChainFrom;
    forall k | 0 <= k < |f[i].children| ensures HasCommitted(m.commits, f[i].children[k], clock) {
      var j := f[i].children[k];
      assert m.works[j].state == LastOf(NoBases(|f|)[j], History(m.commits, j));
      StateWasCommitted(m.commits, j);
    }
  }

  lemma CommitTrail(e: Env, f: seq<Spec>, m: Machine, j: nat, s: State, evidence: Evidence, clock: U64, i: nat)
    requires Forest(f) && Shaped(f, m) && j < |f| && i < |f| && Allowed(e, f, m, j, s)
    requires evidence == EvidenceFor(m.works[j].held, clock) && clock == s.clock
    requires evidence.Given? ==>
      forall k :: 0 <= k < |f[j].children| ==> HasCommitted(m.commits, f[j].children[k], clock)
    ensures Trail(e, f, m, Commit(e, f, m, j, s, evidence, clock), i)
  {
    hide Jammed, StateValid, TraceBytes, HasCommitted, Forest, Missed;
    var v := Commit(e, f, m, j, s, evidence, clock);
    assert v.commits == m.commits + [(j, s)];
    assert Forward(m, v) by {
      forall k | 0 <= k < |m.works| ensures Onward(m.works[k], v.works[k]) {
        assert k != j ==> v.works[k] == m.works[k];
      }
    }
    if j != i {
      assert v.works[i] == m.works[i];
      TrailSame(e, f, m, v, i);
    } else {
      CommitKeepsHeld(f, m, v, i, evidence, clock);
      if Missed(f, m, i) {
        MissedStays(f, m, v, i);
      }
    }
  }

  lemma CommitKeepsHeld(f: seq<Spec>, m: Machine, v: Machine, i: nat, evidence: Evidence, clock: U64)
    requires i < |f| && i < |m.works| == |v.works| && m.commits <= v.commits
    requires v.works[i].held == if evidence.Given? then None else m.works[i].held
    requires evidence == EvidenceFor(m.works[i].held, clock)
    requires evidence.Given? ==>
      forall k :: 0 <= k < |f[i].children| ==> HasCommitted(m.commits, f[i].children[k], clock)
    ensures HeldKept(f[i], m, v, i)
  {
    hide HasCommitted;
    if evidence.Given? {
      forall k | 0 <= k < |f[i].children| ensures HasCommitted(v.commits, f[i].children[k], clock) {
        CommittedStays(m.commits, v.commits, f[i].children[k], clock);
      }
    }
  }

  lemma LeafAllowed(e: Env, f: seq<Spec>, m: Machine, i: nat, evidence: Evidence)
    requires i < |f| && i < |m.works| && f[i].leaf && |f[i].succs| == |f[i].members| == |m.works[i].pending|
    requires LeafFrame(e, f[i], m.works[i]).Sealed?
    requires var frame := LeafFrame(e, f[i], m.works[i]);
      Reduce(e.H, e.R, f[i].id, frame.snapshot, f[i].horizon, m.works[i].state, evidence).Reduced?
    ensures Allowed(e, f, m, i, Reduce(e.H, e.R, f[i].id, LeafFrame(e, f[i], m.works[i]).snapshot, f[i].horizon,
                                       m.works[i].state, evidence).state)
  {
    hide LeafFrame, Reduce, Hopeless, StateValid;
    var c, w := f[i], m.works[i];
    var frame := LeafFrame(e, c, w);
    if w.state.Some? {
      ReduceLinks(e.H, e.R, c.id, frame.snapshot, c.horizon, w.state.value, evidence);
    }
    if Ended(e, w) {
      InvalidEndsChain(e.H, e.R, c.id, frame.snapshot, c.horizon, w.state.value, evidence);
    }
    if Jammed(e, c, w) {
      HopelessFails(e, c.id, frame.snapshot, c.horizon, w.state, evidence);
    }
  }

  /** Within one frame version a state reduced without a witness winds as its predecessor. */
  lemma UnwitnessedStays(H: Hash, R: Reducer, id: Name, s: Snapshot, horizon: U64, p: State)
    requires Reduce(H, R, id, s, horizon, Some(p), NoWitness).Reduced? && s.frameVersion == p.frameVersion
    ensures var q := Reduce(H, R, id, s, horizon, Some(p), NoWitness).state;
      q.kind == NoEvent && q.winding == p.winding
  {
    hide StateBytes, HiddenBytes, Classify, StateValid, VerifyTransition;
    AcceptedIff(PriorSector(p), Classify(H, s).state, s, NoWitness);
  }

  /** No child can be past a clock at which all of them stand. */
  lemma MissedIsElsewhere(f: seq<Spec>, m: Machine, i: nat, clock: U64)
    requires i < |f| && i < |m.works| && Missed(f, m, i)
    requires m.works[i].state.Some? ==> m.works[i].state.value.clock < clock
    requires forall k :: 0 <= k < |f[i].children| ==>
      f[i].children[k] < |m.works| && ChildState(f[i], m, k).Some? && ChildState(f[i], m, k).value.clock == clock
    ensures m.works[i].held.value.target < clock
  {
    var c, target := f[i], m.works[i].held.value.target;
    if !(m.works[i].state.Some? && target <= m.works[i].state.value.clock) {
      var k :| 0 <= k < |c.children| && c.children[k] < |m.works| && Past(m.works[c.children[k]], target);
      assert ChildState(c, m, k).value.clock == clock;
    }
  }

  lemma CompositeAllowed(e: Env, f: seq<Spec>, m: Machine, i: nat, s: Snapshot, horizon: U64, clock: U64)
    requires i < |f| && i < |m.works| && !f[i].leaf && s.clock == clock && s.frameVersion == f[i].frameVersion
    requires m.works[i].state.Some? ==> m.works[i].state.value.clock < clock
    requires forall k :: 0 <= k < |f[i].children| ==>
      f[i].children[k] < |m.works| && ChildState(f[i], m, k).Some? && ChildState(f[i], m, k).value.clock == clock
    requires Reduce(e.H, e.R, f[i].id, s, horizon, m.works[i].state, EvidenceFor(m.works[i].held, clock)).Reduced?
    ensures Allowed(e, f, m, i,
                    Reduce(e.H, e.R, f[i].id, s, horizon, m.works[i].state, EvidenceFor(m.works[i].held, clock)).state)
  {
    hide Reduce, StateValid, Missed;
    var c, w := f[i], m.works[i];
    var evidence := EvidenceFor(w.held, clock);
    if Missed(f, m, i) {
      MissedIsElsewhere(f, m, i, clock);
      MissedFrame(f, m, i);
    }
    ReducedFrame(e.H, e.R, c.id, s, horizon, w.state, evidence);
    ReducedClock(e.H, e.R, c.id, s, horizon, w.state, evidence);
    if w.state.Some? {
      ReduceLinks(e.H, e.R, c.id, s, horizon, w.state.value, evidence);
      if Ended(e, w) {
        InvalidEndsChain(e.H, e.R, c.id, s, horizon, w.state.value, evidence);
      }
      if Missed(f, m, i) {
        UnwitnessedStays(e.H, e.R, c.id, s, horizon, w.state.value);
      }
    } else {
      ReduceStarts(e.H, e.R, c.id, s, horizon, evidence);
    }
  }

  lemma ReducedClock(H: Hash, R: Reducer, id: Name, s: Snapshot, horizon: U64, p: Option<State>, evidence: Evidence)
    requires Reduce(H, R, id, s, horizon, p, evidence).Reduced?
    ensures Reduce(H, R, id, s, horizon, p, evidence).state.clock == s.clock
  {
    hide StateBytes, HiddenBytes, Classify, FollowsCheck;
  }

  lemma RejectedTrail(e: Env, f: seq<Spec>, m: Machine, j: nat, evidence: Evidence, clock: U64, i: nat)
    requires j < |f| && i < |f| == |m.works| && evidence == EvidenceFor(m.works[j].held, clock)
    requires !f[j].leaf && evidence.Given? ==> !Missed(f, m, j)
    requires evidence.Given? ==>
      forall k :: 0 <= k < |f[j].children| ==> HasCommitted(m.commits, f[j].children[k], clock)
    ensures Trail(e, f, m, Rejected(m, j, evidence).m, i)
  {
    hide Trail, Jammed, HasCommitted, Forward, Missed;
    var v := Rejected(m, j, evidence).m;
    SameStates(m, v, j);
    if j != i || !evidence.Given? {
      TrailSame(e, f, m, v, i);
    } else {
      TrailHeld(e, f, m, v, i, None);
    }
  }

  /** What SettleKeeps asks of the cell that settles, and that the new state is allowed. */
  ghost predicate MaySettle(e: Env, f: seq<Spec>, m: Machine, j: nat, next: Reduced, evidence: Evidence, clock: U64)
    requires Forest(f) && j < |f| == |m.works|
  {
    var c, w := f[j], m.works[j];
    && (c.leaf ==> w.batch.Some? && clock == w.batch.value.clock)
    && evidence == EvidenceFor(w.held, clock)
    && (next.Reduced? ==>
          Succeeds(c, w.state, next.state) && next.state.clock == clock && Allowed(e, f, m, j, next.state))
    && (!c.leaf && w.state.Some? ==> w.state.value.clock < clock)
    && (!c.leaf ==> forall k :: 0 <= k < |c.children| ==>
          ChildState(c, m, k).Some? && ChildState(c, m, k).value.clock == clock)
  }

  lemma SettleTrail(e: Env, f: seq<Spec>, m: Machine, j: nat, next: Reduced, evidence: Evidence, clock: U64, i: nat)
    requires Sane(e, f, m) && j < |f| == |m.works| && i < |f| && Shaped(f, m)
    requires MaySettle(e, f, m, j, next, evidence, clock)
    ensures Trail(e, f, m, Settle(e, f, m, j, next, evidence, clock).m, i)
    decreases |f| - j, 1
  {
    hide Trail, Commit, Inv, Allowed, HasCommitted, Succeeds, Missed;
    if !f[j].leaf {
      ChildrenCommitted(e, f, m, j, clock);
    }
    if next.Reduced? {
      KeepsOf(f, m, j, next.state);
      CommitKeeps(e, f, NoBases(|f|), m, j, next.state, evidence, clock);
      var v := Commit(e, f, m, j, next.state, evidence, clock);
      SaneShaped(e, f, v);
      CommitTrail(e, f, m, j, next.state, evidence, clock, i);
      PropagateTrail(e, f, v, j, i);
      TrailChains(e, f, m, v, Propagate(e, f, v, j).m, i);
    } else if next.why == Transition || next.why == FrameMismatch {
      if !f[j].leaf && Missed(f, m, j) {
        MissedIsElsewhere(f, m, j, clock);
      }
      RejectedTrail(e, f, m, j, evidence, clock, i);
    } else {
      TrailSame(e, f, m, m, i);
    }
  }

  lemma PropagateTrail(e: Env, f: seq<Spec>, m: Machine, child: nat, i: nat)
    requires Sane(e, f, m) && child < |f| == |m.works| && i < |f| && Shaped(f, m)
    ensures Trail(e, f, m, Propagate(e, f, m, child).m, i)
    decreases |f| - child, 0
  {
    hide Trail, Inv;
    if f[child].parent.Some? {
      ReduceCompositeTrail(e, f, m, f[child].parent.value, i);
    } else {
      TrailSame(e, f, m, m, i);
    }
  }

  lemma ReduceCompositeTrail(e: Env, f: seq<Spec>, m: Machine, j: nat, i: nat)
    requires Sane(e, f, m) && j < |f| == |m.works| && i < |f| && Shaped(f, m)
    ensures Trail(e, f, m, ReduceComposite(e, f, m, j).m, i)
    decreases |f| - j, 2
  {
    hide Trail, Inv, Reduce, CompositeFrame, NearerHorizon, Allowed, Succeeds, Shaped;
    var c, w := f[j], m.works[j];
    var v := ReduceComposite(e, f, m, j).m;
    if CompositeTries(e, f, m, j) {
      var clock := ChildState(c, m, 0).value.clock;
      var frame := CompositeFrame(e, c, m).snapshot;
      CompositeFrameClock(e, c, m);
      var evidence := EvidenceFor(w.held, clock);
      var next := Reduce(e.H, e.R, c.id, frame, NearerHorizon(c, m), w.state, evidence);
      if next.Reduced? {
        ReducedSucceeds(e, c, frame, NearerHorizon(c, m), w.state, evidence);
        CompositeAllowed(e, f, m, j, frame, NearerHorizon(c, m), clock);
      }
      SettleTrail(e, f, m, j, next, evidence, clock, i);
    } else {
      TrailSame(e, f, m, v, i);
    }
  }

  /** A composite frame of cell j is sealed and put to the reduction. */
  predicate CompositeTries(e: Env, f: seq<Spec>, m: Machine, j: nat)
    requires Forest(f) && Shaped(f, m) && j < |f|
  {
    var c, w := f[j], m.works[j];
    && !c.leaf && AllReady(c, m, |c.children|) && OneChildClock(c, m)
    && (w.state.Some? ==> w.state.value.clock < ChildState(c, m, 0).value.clock)
    && CompositeFrame(e, c, m).Sealed?
  }

  lemma ReduceLeafTrail(e: Env, f: seq<Spec>, m: Machine, j: nat, i: nat)
    requires Sane(e, f, m) && j < |f| == |m.works| && i < |f| && Shaped(f, m) && f[j].leaf
    ensures Trail(e, f, m, ReduceLeaf(e, f, m, j).m, i)
  {
    hide Trail, Inv, Reduce, Seal, Allowed, Succeeds, Forest, LeafInv, LeafObservations;
    var c, w := f[j], m.works[j];
    var b := BatchOf(w);
    LeafOfInv(e, f, NoBases(|f|), m, j);
    var frame := LeafFrame(e, c, w);
    if w.count == |c.members| && frame.Sealed? {
      LeafFrameClock(e, c, w);
      var evidence := EvidenceFor(w.held, b.clock);
      var next := Reduce(e.H, e.R, c.id, frame.snapshot, c.horizon, w.state, evidence);
      if next.Reduced? {
        ReducedSucceeds(e, c, frame.snapshot, c.horizon, w.state, evidence);
        LeafAllowed(e, f, m, j, evidence);
      }
      SettleTrail(e, f, m, j, next, evidence, b.clock, i);
    } else {
      TrailSame(e, f, m, m, i);
    }
  }

  // ---- events ----

  /** A leaf took a reading, or a witness: its state is as it was, and a full batch stays as it is. */
  lemma LeafTrail(e: Env, f: seq<Spec>, m: Machine, v: Machine, i: nat)
    requires i < |f| && i < |m.works| == |v.works| && f[i].leaf && v.commits == m.commits && Forward(m, v)
    requires v.works[i].state == m.works[i].state
    requires Jammed(e, f[i], m.works[i]) ==>
      && v.works[i].pending == m.works[i].pending && v.works[i].batch == m.works[i].batch
      && v.works[i].count == m.works[i].count
    ensures Trail(e, f, m, v, i)
  {
    hide StateValid, Seal, Hopeless, Forward;
    if Jammed(e, f[i], m.works[i]) {
      SameFrame(e, f[i], m.works[i], v.works[i]);
    }
  }

  lemma TakeReadingTrail(e: Env, f: seq<Spec>, m: Machine, j: nat, k: nat, r: Reading, i: nat)
    requires Sane(e, f, m) && Shaped(f, m) && j < |f| == |m.works| && i < |f| && f[j].leaf && k < |f[j].members|
    requires Joins(m.works[j], r) && r.cell == f[j].id && r.member == f[j].members[k]
    ensures Trail(e, f, m, TakeReading(e, f, With(m, j, Started(m.works[j], r)), j, k, r).m, i)
  {
    hide Trail, Inv, LeafInv, Forest, Rings, ReduceLeaf, ReadingBatch, Joins, LeafFrame;
    var w, bases := m.works[j], NoBases(|f|);
    LeafOfInv(e, f, bases, m, j);
    FilledInv(f[j], w, k, r);
    var filled := Filled(Started(w, r), k, r);
    HoldingInv(f[j], Started(w, r), filled, r);
    var taken := HoldingWitness(Started(w, r), filled, r);
    ReplacedKeeps(e, f, bases, m, j, taken);
    assert With(With(m, j, Started(w, r)), j, taken) == With(m, j, taken);
    var v := With(m, j, taken);
    FullTakesNothing(e, f[j], w, k, r);
    SameStates(m, v, j);
    if i == j {
      LeafTrail(e, f, m, v, i);
    } else {
      TrailSame(e, f, m, v, i);
    }
    if taken.count == |f[j].members| {
      SaneShaped(e, f, v);
      ReduceLeafTrail(e, f, v, j, i);
      TrailChains(e, f, m, v, ReduceLeaf(e, f, v, j).m, i);
    }
  }

  lemma FullTakesNothing(e: Env, c: Spec, w: Work, k: nat, r: Reading)
    requires k < |w.pending| && Joins(w, r)
    ensures var v := HoldingWitness(Started(w, r), Filled(Started(w, r), k, r), r);
      && v.state == w.state
      && (Jammed(e, c, w) ==> v.pending == w.pending && v.batch == w.batch && v.count == w.count)
  {
    hide LeafFrame, Hopeless;
  }

  lemma ApplyReadingTrail(e: Env, f: seq<Spec>, m: Machine, r: Reading, i: nat)
    requires Sane(e, f, m) && Shaped(f, m) && i < |f| == |m.works|
    ensures Trail(e, f, m, ApplyReading(e, f, m, r).m, i)
  {
    hide Trail, Inv, Forest, Rings, TakeReading, SameCore, Recommits;
    TrailSame(e, f, m, m, i);
    var j := FindCell(f, r.cell);
    if j < |f| && f[j].leaf {
      var w, k := m.works[j], Find(f[j].members, r.member);
      if k < |f[j].members| && Joins(w, r) {
        if (w.pending[k].Some? && !SameCore(w.pending[k].value, r)) || WitnessConflict(w, r) {
          ConflictKeeps(e, f, NoBases(|f|), m, j, k, r);
        } else {
          TakeReadingTrail(e, f, m, j, k, r, i);
        }
      }
    }
  }

  /** The machine after a witness was put into a cell that held none. */
  function Holding(m: Machine, j: nat, h: Held): Machine
    requires j < |m.works|
  {
    With(m, j, m.works[j].(held := Some(h))).(report := m.report.(witnesses := m.report.witnesses + 1))
  }

  lemma HoldingTrail(e: Env, f: seq<Spec>, m: Machine, j: nat, h: Held, i: nat)
    requires Sane(e, f, m) && j < |f| == |m.works| && i < |f| && m.works[j].held.None?
    requires f[j].leaf ==> m.works[j].batch.Some? && m.works[j].batch.value.clock == h.target
    ensures Sane(e, f, Holding(m, j, h)) && Trail(e, f, m, Holding(m, j, h), i)
  {
    hide Trail, Inv, WorkInv, Forest, Rings, Jammed;
    var w, bases := m.works[j], NoBases(|f|);
    WorkOf(e, f, bases, m, j);
    HeldInv(f[j], w, h);
    ReplacedKeeps(e, f, bases, m, j, w.(held := Some(h)));
    ReportKeeps(e, f, bases, With(m, j, w.(held := Some(h))), m.report.(witnesses := m.report.witnesses + 1));
    var v := Holding(m, j, h);
    SameStates(m, v, j);
    if j == i {
      TrailHeld(e, f, m, v, i, Some(h));
    } else {
      TrailSame(e, f, m, v, i);
    }
  }

  lemma ApplyWitnessTrail(e: Env, f: seq<Spec>, m: Machine, id: Name, clock: U64, x: Witness, i: nat)
    requires Sane(e, f, m) && Shaped(f, m) && i < |f| == |m.works|
    ensures Trail(e, f, m, ApplyWitness(e, f, m, id, clock, x).m, i)
  {
    hide Trail, Inv, Forest, Rings, ReduceLeaf, ReduceComposite;
    TrailSame(e, f, m, m, i);
    var j := FindCell(f, id);
    if j < |f| {
      var c, w := f[j], m.works[j];
      var late := w.state.Some? && clock <= w.state.value.clock;
      var other := c.leaf && (w.batch.None? || w.batch.value.clock != clock);
      if !late && !other && w.held.None? {
        HoldingTrail(e, f, m, j, Held(clock, x), i);
        var v := Holding(m, j, Held(clock, x));
        SaneShaped(e, f, v);
        if c.leaf {
          ReduceLeafTrail(e, f, v, j, i);
          TrailChains(e, f, m, v, ReduceLeaf(e, f, v, j).m, i);
        } else {
          ReduceCompositeTrail(e, f, v, j, i);
          TrailChains(e, f, m, v, ReduceComposite(e, f, v, j).m, i);
        }
      }
    }
  }

  lemma ApplyEventTrail(e: Env, f: seq<Spec>, m: Machine, v: Event, i: nat)
    requires Sane(e, f, m) && Shaped(f, m) && i < |f| == |m.works|
    ensures Sane(e, f, ApplyEvent(e, f, m, v).m) && Trail(e, f, m, ApplyEvent(e, f, m, v).m, i)
  {
    hide Trail, Inv, Forest, Rings, ApplyReading, ApplyWitness;
    ApplyEventKeeps(e, f, NoBases(|f|), m, v);
    match v
    case Observed(r, _) => ApplyReadingTrail(e, f, m, r, i);
    case Attested(id, clock, x, _) => ApplyWitnessTrail(e, f, m, id, clock, x, i);
  }

  // ---- retrying and draining ----

  /** One cell tried again. */
  function Tried(e: Env, f: seq<Spec>, m: Machine, j: nat): (r: Step)
    requires Forest(f) && Shaped(f, m) && j < |f|
    ensures Shaped(f, r.m)
  {
    if f[j].leaf then ReduceLeaf(e, f, m, j) else ReduceComposite(e, f, m, j)
  }

  lemma TriedTrail(e: Env, f: seq<Spec>, m: Machine, j: nat, i: nat)
    requires Sane(e, f, m) && Shaped(f, m) && j < |f| == |m.works| && i < |f|
    ensures Sane(e, f, Tried(e, f, m, j).m) && Trail(e, f, m, Tried(e, f, m, j).m, i)
  {
    hide Trail, Inv, Forest, Rings, ReduceLeaf, ReduceComposite;
    if f[j].leaf {
      ReduceLeafKeeps(e, f, NoBases(|f|), m, j);
      ReduceLeafTrail(e, f, m, j, i);
    } else {
      ReduceCompositeKeeps(e, f, NoBases(|f|), m, j);
      ReduceCompositeTrail(e, f, m, j, i);
    }
  }

  lemma {:induction false} RetryTrail(e: Env, f: seq<Spec>, m: Machine, visited: nat, after: Option<Name>, i: nat)
    requires Sane(e, f, m) && Shaped(f, m) && visited <= |f| == |m.works| && i < |f|
    ensures Trail(e, f, m, Retry(e, f, m, visited, after).m, i)
    decreases |f| - visited
  {
    hide Trail, Inv, Forest, Rings, ReduceLeaf, ReduceComposite, NextCell, Sane;
    SaneShaped(e, f, m);
    TrailSame(e, f, m, m, i);
    if visited < |f| && NextCell(f, after, |f|) < |f| {
      var j := NextCell(f, after, |f|);
      if f[j].leaf && m.works[j].count != |f[j].members| {
        RetryTrail(e, f, m, visited + 1, Some(f[j].id), i);
      } else {
        TriedTrail(e, f, m, j, i);
        var s := Tried(e, f, m, j);
        RetryTrail(e, f, s.m, visited + 1, Some(f[j].id), i);
        TrailChains(e, f, m, s.m, Retry(e, f, s.m, visited + 1, Some(f[j].id)).m, i);
      }
    }
  }

  /** Counting changes no cell. */
  lemma CountedTrail(e: Env, f: seq<Spec>, m: Machine, r: Report, i: nat)
    requires Sane(e, f, m) && i < |f| == |m.works|
    ensures Sane(e, f, m.(report := r)) && Shaped(f, m.(report := r)) && Trail(e, f, m, m.(report := r), i)
  {
    hide Trail, Inv, Forest, Rings;
    ReportKeeps(e, f, NoBases(|f|), m, r);
    SaneShaped(e, f, m.(report := r));
    TrailSame(e, f, m, m.(report := r), i);
  }

  lemma {:induction false} DrainQueueTrail(e: Env, f: seq<Spec>, m: Machine, q: seq<Event>, maximum: nat, i: nat)
    requires Sane(e, f, m) && Shaped(f, m) && i < |f| == |m.works|
    ensures Trail(e, f, m, DrainQueue(e, f, m, q, maximum).m, i)
    decreases |q|
  {
    hide Trail, Sane, Forest, Shaped, ApplyEvent, MinimumEvent, Counted;
    SaneShaped(e, f, m);
    TrailSame(e, f, m, m, i);
    if q != [] && m.report.processed < maximum {
      var n := MinimumEvent(q);
      var a := ApplyEvent(e, f, m, q[n]);
      ApplyEventTrail(e, f, m, q[n], i);
      WorksCount(f, a.m);
      if a.consumed {
        var v := a.m.(report := Counted(a.m.report, a.o));
        CountedTrail(e, f, a.m, Counted(a.m.report, a.o), i);
        TrailChains(e, f, m, a.m, v, i);
        if a.o == Ok || a.o == HoldDuplicate {
          DrainQueueTrail(e, f, v, Without(q, n), maximum, i);
          WorksCount(f, DrainQueue(e, f, v, Without(q, n), maximum).m);
          TrailChains(e, f, m, v, DrainQueue(e, f, v, Without(q, n), maximum).m, i);
        }
      }
    }
  }

  lemma WorksCount(f: seq<Spec>, m: Machine)
    requires Shaped(f, m)
    ensures |m.works| == |f|
  {}

  lemma DrainTrail(e: Env, f: seq<Spec>, m: Machine, q: seq<Event>, maximum: nat, i: nat)
    requires Sane(e, f, m) && Shaped(f, m) && i < |f| == |m.works|
    ensures Trail(e, f, m, Drain(e, f, m, q, maximum).m, i)
  {
    hide Trail, Inv, Forest, Rings, Shaped, Retry, DrainQueue;
    var bases := NoBases(|f|);
    var m0 := m.(report := NO_REPORT);
    CountedTrail(e, f, m, NO_REPORT, i);
    RetryTrail(e, f, m0, 0, None, i);
    RetryKeeps(e, f, bases, m0, 0, None);
    var m1 := Retry(e, f, m0, 0, None).m;
    WorksCount(f, m1);
    TrailChains(e, f, m, m0, m1, i);
    var d := DrainQueue(e, f, m1, q, maximum);
    DrainQueueTrail(e, f, m1, q, maximum, i);
    DrainQueueKeeps(e, f, bases, m1, q, maximum);
    WorksCount(f, d.m);
    TrailChains(e, f, m, m1, d.m, i);
    RetryTrail(e, f, d.m, 0, None, i);
    var m2 := Retry(e, f, d.m, 0, None).m;
    WorksCount(f, m2);
    TrailChains(e, f, m, d.m, m2, i);
  }
}
