/**
 * What every step of the scheduler keeps: well-formed batches, held witnesses that name the open batch,
 * composites never ahead of their children, and a history that is a chain per cell and a digest overall.
 */
module SchedulerLaws {
  import opened Bytes
  import opened Options
  import opened Ring
  import opened Frame
  import opened Topology
  import opened Cell
  import opened Scheduler

  // ---- one cell ----

  function Present(slots: seq<Option<Reading>>): nat {
    if slots == [] then 0
    else Present(slots[..|slots| - 1]) + if slots[|slots| - 1].Some? then 1 else 0
  }

  /** A reading sits in the slot of its member and belongs to the open batch. */
  predicate SlotFits(c: Spec, b: Option<Batch>, k: nat, slot: Option<Reading>)
    requires k < |c.members|
  {
    slot.Some? ==> b == Some(ReadingBatch(slot.value)) && slot.value.member == c.members[k] && slot.value.cell == c.id
  }

  predicate LeafInv(c: Spec, w: Work) {
    && |w.pending| == |w.committed| == |c.members|
    && w.count == Present(w.pending)
    && (w.batch.Some? <==> w.count > 0)
    && (forall k :: 0 <= k < |w.pending| ==> SlotFits(c, w.batch, k, w.pending[k]))
    && (w.batch.Some? && w.state.Some? ==> w.batch.value.clock > w.state.value.clock)
    && (w.held.Some? ==> w.batch.Some? && w.held.value.target == w.batch.value.clock)
  }

  predicate WorkInv(c: Spec, w: Work) {
    if c.leaf then LeafInv(c, w) else w.batch.None? && w.count == 0
  }

  predicate WorksInv(f: seq<Spec>, m: Machine) {
    Shaped(f, m) && forall i :: 0 <= i < |f| ==> WorkInv(f[i], m.works[i])
  }

  lemma {:induction false} PresentBound(slots: seq<Option<Reading>>)
    ensures Present(slots) <= |slots|
    ensures Present(slots) == |slots| <==> forall k :: 0 <= k < |slots| ==> slots[k].Some?
    ensures Present(slots) == 0 <==> forall k :: 0 <= k < |slots| ==> slots[k].None?
    decreases slots
  {
    if slots != [] {
      var front := slots[..|slots| - 1];
      PresentBound(front);
      assert forall k :: 0 <= k < |front| ==> slots[k] == front[k];
    }
  }

  lemma {:induction false} PresentFilled(slots: seq<Option<Reading>>, k: nat, r: Reading)
    requires k < |slots|
    ensures Present(slots[k := Some(r)]) == Present(slots) + if slots[k].Some? then 0 else 1
    decreases slots
  {
    var n := |slots| - 1;
    var filled := slots[k := Some(r)];
    if k < n {
      PresentFilled(slots[..n], k, r);
      assert filled[..n] == slots[..n][k := Some(r)];
    } else {
      assert filled[..n] == slots[..n];
    }
  }

  // ---- composites and their children ----

  /** No composite is ahead of any of its children. */
  predicate ClockInv(f: seq<Spec>, m: Machine)
    requires Forest(f) && Shaped(f, m)
  {
    forall i, k :: 0 <= i < |f| && 0 <= k < |f[i].children| ==>
      NotAhead(m.works[i].state, m.works[f[i].children[k]].state)
  }

  predicate NotAhead(parent: Option<State>, child: Option<State>) {
    parent.Some? ==> child.Some? && parent.value.clock <= child.value.clock
  }

  // ---- the history ----

  function TraceOf(e: Env, start: Digest, commits: seq<(nat, State)>): Digest {
    if commits == [] then start
    else e.H(TraceBytes(TraceOf(e, start, commits[..|commits| - 1]), commits[|commits| - 1].1.digest))
  }

  /** The states cell i committed, in order. */
  function History(commits: seq<(nat, State)>, i: nat): seq<State> {
    if commits == [] then []
    else
      var before, last := History(commits[..|commits| - 1], i), commits[|commits| - 1];
      if last.0 == i then before + [last.1] else before
  }

  /** The first state of a cell that had none. */
  predicate Begins(c: Spec, s: State) {
    s.id == c.id && s.generation == 1 && s.previous == ZeroDigest()
  }

  /** A chain of states from the given base (none without an import), each linked to the one before. */
  predicate ChainFrom(c: Spec, base: Option<State>, h: seq<State>) {
    forall k :: 0 <= k < |h| ==> LinkAt(c, base, h, k)
  }

  predicate LinkAt(c: Spec, base: Option<State>, h: seq<State>, k: nat)
    requires k < |h|
  {
    && h[k].frameVersion == c.frameVersion
    && (if k > 0 then Linked(h[k - 1], h[k]) else if base.Some? then Linked(base.value, h[0]) else Begins(c, h[0]))
  }

  function LastOf(base: Option<State>, h: seq<State>): Option<State> {
    if h == [] then base else Some(h[|h| - 1])
  }

  predicate HistoryInv(e: Env, f: seq<Spec>, bases: seq<Option<State>>, m: Machine) {
    && |bases| == |f| == |m.works|
    && m.trace == TraceOf(e, ZeroDigest(), m.commits)
    && forall i :: 0 <= i < |f| ==>
         && m.works[i].state == LastOf(bases[i], History(m.commits, i))
         && ChainFrom(f[i], bases[i], History(m.commits, i))
  }

  lemma HistoryGrows(commits: seq<(nat, State)>, i: nat, s: State, j: nat)
    ensures History(commits + [(i, s)], j) == History(commits, j) + if i == j then [s] else []
  {
    assert (commits + [(i, s)])[..|commits|] == commits;
  }

  lemma TraceGrows(e: Env, start: Digest, commits: seq<(nat, State)>, i: nat, s: State)
    ensures TraceOf(e, start, commits + [(i, s)]) == e.H(TraceBytes(TraceOf(e, start, commits), s.digest))
  {
    assert (commits + [(i, s)])[..|commits|] == commits;
  }

  predicate Inv(e: Env, f: seq<Spec>, bases: seq<Option<State>>, m: Machine)
    requires Forest(f)
  {
    WorksInv(f, m) && ClockInv(f, m) && HistoryInv(e, f, bases, m)
  }

  // ---- commits ----

  /** The new state may follow what the cell has: it starts it, or is linked to its last state. */
  predicate Succeeds(c: Spec, last: Option<State>, s: State) {
    s.frameVersion == c.frameVersion && if last.Some? then Linked(last.value, s) else Begins(c, s)
  }

  lemma ReducedSucceeds(e: Env, c: Spec, s: Snapshot, horizon: U64, last: Option<State>, evidence: Evidence)
    requires Reduce(e.H, e.R, c.id, s, horizon, last, evidence).Reduced? && s.frameVersion == c.frameVersion
    ensures var q := Reduce(e.H, e.R, c.id, s, horizon, last, evidence).state;
      Succeeds(c, last, q) && q.clock == s.clock
  {
    hide StateBytes, HiddenBytes, Classify, FollowsCheck, Linked;
    ReducedFrame(e.H, e.R, c.id, s, horizon, last, evidence);
    if last.Some? {
      ReduceLinks(e.H, e.R, c.id, s, horizon, last.value, evidence);
    } else {
      ReduceStarts(e.H, e.R, c.id, s, horizon, evidence);
    }
  }

  lemma ChainExtends(c: Spec, base: Option<State>, h: seq<State>, s: State)
    requires ChainFrom(c, base, h) && Succeeds(c, LastOf(base, h), s)
    ensures ChainFrom(c, base, h + [s])
  {
    hide Linked, Begins;
    var g := h + [s];
    forall k | 0 <= k < |g| ensures LinkAt(c, base, g, k) {
      if k < |h| {
        assert LinkAt(c, base, h, k);
      }
    }
  }

  lemma WorksShaped(f: seq<Spec>, m: Machine)
    requires WorksInv(f, m)
    ensures Shaped(f, m)
  {}

  lemma CommitHistory(e: Env, f: seq<Spec>, bases: seq<Option<State>>, m: Machine, i: nat, s: State,
      evidence: Evidence, clock: U64)
    requires Forest(f) && Shaped(f, m) && i < |f| && HistoryInv(e, f, bases, m) && Succeeds(f[i], m.works[i].state, s)
    ensures HistoryInv(e, f, bases, Commit(e, f, m, i, s, evidence, clock))
  {
    hide History, TraceOf, TraceBytes, Linked, Begins, SpentOn;
    var v := Commit(e, f, m, i, s, evidence, clock);
    TraceGrows(e, ZeroDigest(), m.commits, i, s);
    forall j | 0 <= j < |f|
      ensures v.works[j].state == LastOf(bases[j], History(v.commits, j))
      ensures ChainFrom(f[j], bases[j], History(v.commits, j))
    {
      HistoryGrows(m.commits, i, s, j);
      assert ChainFrom(f[j], bases[j], History(m.commits, j));
      if j == i {
        ChainExtends(f[j], bases[j], History(m.commits, j), s);
      } else {
        assert History(m.commits, j) + [] == History(m.commits, j);
      }
    }
  }

  /** The children are at the clock the composite commits, or the cell is a leaf that moves forward. */
  predicate Keeps(c: Spec, m: Machine, last: Option<State>, s: State) {
    && (last.Some? ==> last.value.clock < s.clock)
    && (forall k :: 0 <= k < |c.children| ==>
          c.children[k] < |m.works| && NotAhead(Some(s), m.works[c.children[k]].state))
  }

  lemma CommitClocks(e: Env, f: seq<Spec>, m: Machine, i: nat, s: State, evidence: Evidence, clock: U64)
    requires Forest(f) && Shaped(f, m) && i < |f| && ClockInv(f, m) && Keeps(f[i], m, m.works[i].state, s)
    ensures ClockInv(f, Commit(e, f, m, i, s, evidence, clock))
  {
    hide TraceBytes, SpentOn;
    var v := Commit(e, f, m, i, s, evidence, clock);
    assert v.works[i].state == Some(s) && forall j :: 0 <= j < |f| && j != i ==> v.works[j] == m.works[j];
    forall j, k | 0 <= j < |f| && 0 <= k < |f[j].children|
      ensures NotAhead(v.works[j].state, v.works[f[j].children[k]].state)
    {
      assert NotAhead(m.works[j].state, m.works[f[j].children[k]].state);
    }
  }

  lemma CommitWorks(e: Env, f: seq<Spec>, m: Machine, i: nat, s: State, evidence: Evidence, clock: U64)
    requires Forest(f) && WorksInv(f, m) && i < |f|
    requires f[i].leaf ==> m.works[i].batch.Some? && clock == m.works[i].batch.value.clock
    requires evidence == EvidenceFor(m.works[i].held, clock)
    ensures WorksInv(f, Commit(e, f, m, i, s, evidence, clock))
  {
    hide TraceBytes, Present;
    var v := Commit(e, f, m, i, s, evidence, clock);
    if f[i].leaf {
      PresentBound(v.works[i].pending);
    }
    assert WorkInv(f[i], v.works[i]);
    forall j | 0 <= j < |f| ensures WorkInv(f[j], v.works[j]) {
      assert WorkInv(f[j], m.works[j]);
    }
  }

  lemma CommitKeeps(e: Env, f: seq<Spec>, bases: seq<Option<State>>, m: Machine, i: nat, s: State,
      evidence: Evidence, clock: U64)
    requires Forest(f) && Inv(e, f, bases, m) && i < |f|
    requires f[i].leaf ==> m.works[i].batch.Some? && clock == m.works[i].batch.value.clock
    requires evidence == EvidenceFor(m.works[i].held, clock)
    requires Succeeds(f[i], m.works[i].state, s) && Keeps(f[i], m, m.works[i].state, s)
    ensures Inv(e, f, bases, Commit(e, f, m, i, s, evidence, clock))
  {
    hide Commit, Keeps, Succeeds, WorkInv, ClockInv, HistoryInv;
    CommitWorks(e, f, m, i, s, evidence, clock);
    CommitClocks(e, f, m, i, s, evidence, clock);
    CommitHistory(e, f, bases, m, i, s, evidence, clock);
  }

  // ---- reductions ----

  /** The frame a leaf's batch seals to, or why it is refused. */
  function LeafFrame(e: Env, c: Spec, w: Work): Sealed
    requires |c.succs| == |c.members| == |w.pending|
  {
    var b := BatchOf(w);
    Seal(e.H, FrameConfig(c, b.windowStart, b.windowEnd), LeafObservations(c, w), b.sealTime)
  }

  lemma LeafFrameClock(e: Env, c: Spec, w: Work)
    requires LeafInv(c, w) && w.count == |c.members| == |c.succs| && |c.members| >= 2
    requires LeafFrame(e, c, w).Sealed?
    ensures w.batch.Some?
    ensures LeafFrame(e, c, w).snapshot.clock == w.batch.value.clock
    ensures LeafFrame(e, c, w).snapshot.frameVersion == c.frameVersion
  {
    hide Seal, Present, SnapshotValid, ListsAll, IsRing;
    var b := BatchOf(w);
    PresentBound(w.pending);
    assert w.pending[0].Some? && SlotFits(c, w.batch, 0, w.pending[0]);
    SealYieldsRing(e.H, FrameConfig(c, b.windowStart, b.windowEnd), LeafObservations(c, w), b.sealTime);
  }

  /** Every leaf of a usable forest has at least two members. */
  predicate Rings(f: seq<Spec>) {
    forall i :: 0 <= i < |f| ==>
      |f[i].members| >= 2 && |f[i].succs| == |f[i].members| && (f[i].leaf ==> f[i].children == [])
  }

  lemma ReduceLeafKeeps(e: Env, f: seq<Spec>, bases: seq<Option<State>>, m: Machine, i: nat)
    requires Forest(f) && Rings(f) && Inv(e, f, bases, m) && i < |f| && f[i].leaf
    ensures Inv(e, f, bases, ReduceLeaf(e, f, m, i).m)
    decreases |f| - i, 2
  {
    hide Forest, WorksInv, ClockInv, HistoryInv, Seal, Reduce, LeafInv, LeafObservations;
    WorksShaped(f, m);
    var c, w := f[i], m.works[i];
    var b := BatchOf(w);
    assert LeafInv(c, w) by { LeafOf(f, m, i); }
    var sealed := Seal(e.H, FrameConfig(c, b.windowStart, b.windowEnd), LeafObservations(c, w), b.sealTime);
    if w.count == |c.members| && sealed.Sealed? {
      LeafFrameClock(e, c, w);
      var evidence := EvidenceFor(w.held, b.clock);
      var next := Reduce(e.H, e.R, c.id, sealed.snapshot, c.horizon, w.state, evidence);
      if next.Reduced? {
        ReducedSucceeds(e, c, sealed.snapshot, c.horizon, w.state, evidence);
      }
      SettleKeeps(e, f, bases, m, i, next, evidence, b.clock);
    }
  }

  lemma LeafOf(f: seq<Spec>, m: Machine, i: nat)
    requires WorksInv(f, m) && i < |f|
    ensures f[i].leaf ==> LeafInv(f[i], m.works[i])
  {
    assert WorkInv(f[i], m.works[i]);
  }

  lemma SettleKeeps(e: Env, f: seq<Spec>, bases: seq<Option<State>>, m: Machine, i: nat, next: Reduced,
      evidence: Evidence, clock: U64)
    requires Forest(f) && Rings(f) && Inv(e, f, bases, m) && i < |f|
    requires f[i].leaf ==> m.works[i].batch.Some? && clock == m.works[i].batch.value.clock
    requires evidence == EvidenceFor(m.works[i].held, clock)
    requires next.Reduced? ==> Succeeds(f[i], m.works[i].state, next.state) && next.state.clock == clock
    requires !f[i].leaf ==> forall k :: 0 <= k < |f[i].children| ==>
               ChildState(f[i], m, k).Some? && ChildState(f[i], m, k).value.clock == clock
    ensures Inv(e, f, bases, Settle(e, f, m, i, next, evidence, clock).m)
    decreases |f| - i, 1
  {
    hide WorksInv, ClockInv, HistoryInv, Commit;
    WorksShaped(f, m);
    if next.Reduced? {
      KeepsOf(f, m, i, next.state);
      CommitKeeps(e, f, bases, m, i, next.state, evidence, clock);
      PropagateKeeps(e, f, bases, Commit(e, f, m, i, next.state, evidence, clock), i);
    } else if next.why == Transition || next.why == FrameMismatch {
      RejectedKeeps(e, f, bases, m, i, evidence);
    }
  }

  lemma KeepsOf(f: seq<Spec>, m: Machine, i: nat, s: State)
    requires Forest(f) && Rings(f) && Shaped(f, m) && i < |f| && Succeeds(f[i], m.works[i].state, s)
    requires !f[i].leaf ==> forall k :: 0 <= k < |f[i].children| ==>
               ChildState(f[i], m, k).Some? && ChildState(f[i], m, k).value.clock == s.clock
    ensures Keeps(f[i], m, m.works[i].state, s)
  {
    forall k | 0 <= k < |f[i].children| ensures NotAhead(Some(s), m.works[f[i].children[k]].state) {
      assert ChildState(f[i], m, k).Some?;
    }
  }

  /** Only the counters and held witnesses change. */
  lemma RejectedKeeps(e: Env, f: seq<Spec>, bases: seq<Option<State>>, m: Machine, i: nat, evidence: Evidence)
    requires Forest(f) && Inv(e, f, bases, m) && i < |f|
    ensures Inv(e, f, bases, Rejected(m, i, evidence).m)
  {
    hide TraceOf, History, Present, SlotFits, ChainFrom;
    var v := Rejected(m, i, evidence).m;
    WorkStays(e, f, bases, m, v, i);
  }

  /** A change of one cell that leaves every state as it was keeps clocks and history. */
  lemma WorkStays(e: Env, f: seq<Spec>, bases: seq<Option<State>>, m: Machine, v: Machine, i: nat)
    requires Forest(f) && Inv(e, f, bases, m) && i < |f|
    requires |v.works| == |f| && v.trace == m.trace && v.commits == m.commits && WorkInv(f[i], v.works[i])
    requires |v.works[i].pending| == |m.works[i].pending| && |v.works[i].committed| == |m.works[i].committed|
    requires v.works[i].state == m.works[i].state && forall j :: 0 <= j < |f| && j != i ==> v.works[j] == m.works[j]
    ensures Inv(e, f, bases, v)
  {
    hide TraceOf, History, WorkInv, ChainFrom, NotAhead;
    assert forall j :: 0 <= j < |f| ==> v.works[j].state == m.works[j].state;
    forall j | 0 <= j < |f| ensures WorkInv(f[j], v.works[j]) {
      assert WorkInv(f[j], m.works[j]);
    }
    forall j, k | 0 <= j < |f| && 0 <= k < |f[j].children|
      ensures NotAhead(v.works[j].state, v.works[f[j].children[k]].state)
    {
      assert NotAhead(m.works[j].state, m.works[f[j].children[k]].state);
    }
  }

  lemma {:induction false} PropagateKeeps(e: Env, f: seq<Spec>, bases: seq<Option<State>>, m: Machine, child: nat)
    requires Forest(f) && Rings(f) && Inv(e, f, bases, m) && child < |f|
    ensures Inv(e, f, bases, Propagate(e, f, m, child).m)
    decreases |f| - child, 0
  {
    hide WorksInv, ClockInv, HistoryInv;
    WorksShaped(f, m);
    if f[child].parent.Some? {
      ReduceCompositeKeeps(e, f, bases, m, f[child].parent.value);
    }
  }

  lemma {:induction false} ReduceCompositeKeeps(e: Env, f: seq<Spec>, bases: seq<Option<State>>, m: Machine, i: nat)
    requires Forest(f) && Rings(f) && Inv(e, f, bases, m) && i < |f|
    ensures Inv(e, f, bases, ReduceComposite(e, f, m, i).m)
    decreases |f| - i, 2
  {
    hide WorksInv, ClockInv, HistoryInv, Reduce, CompositeFrame, NearerHorizon;
    WorksShaped(f, m);
    var c, w := f[i], m.works[i];
    if !c.leaf && AllReady(c, m, |c.children|) && OneChildClock(c, m) {
      var clock := ChildState(c, m, 0).value.clock;
      if !(w.state.Some? && clock <= w.state.value.clock) {
        var sealed := CompositeFrame(e, c, m);
        if sealed.Sealed? {
          CompositeFrameClock(e, c, m);
          var evidence := EvidenceFor(w.held, clock);
          var next := Reduce(e.H, e.R, c.id, sealed.snapshot, NearerHorizon(c, m), w.state, evidence);
          if next.Reduced? {
            ReducedSucceeds(e, c, sealed.snapshot, NearerHorizon(c, m), w.state, evidence);
          }
          SettleKeeps(e, f, bases, m, i, next, evidence, clock);
        } else {
          ReportKeeps(e, f, bases, m, m.report.(framesHeld := m.report.framesHeld + 1));
        }
      }
    }
  }

  lemma CompositeFrameClock(e: Env, c: Spec, m: Machine)
    requires 2 <= |c.children| == |c.members| == |c.succs|
    requires (forall k :: 0 <= k < |c.children| ==> c.children[k] < |m.works|) && AllReady(c, m, |c.children|)
    requires CompositeFrame(e, c, m).Sealed?
    ensures CompositeFrame(e, c, m).snapshot.clock == ChildState(c, m, 0).value.clock
    ensures CompositeFrame(e, c, m).snapshot.frameVersion == c.frameVersion
  {
    hide Seal, SnapshotValid, ListsAll, IsRing, ChildSpan;
    var span := ChildSpan(c, m, |c.children|);
    SealYieldsRing(e.H, FrameConfig(c, span.windowStart, span.windowEnd), ChildObservations(c, m), span.windowEnd);
  }

  lemma ReportKeeps(e: Env, f: seq<Spec>, bases: seq<Option<State>>, m: Machine, r: Report)
    requires Forest(f) && Inv(e, f, bases, m)
    ensures Inv(e, f, bases, m.(report := r))
  {
    hide WorkInv, NotAhead, TraceOf, History, ChainFrom;
    var v := m.(report := r);
    forall j | 0 <= j < |f| ensures WorkInv(f[j], v.works[j]) {
      assert WorkInv(f[j], m.works[j]);
    }
    forall j, k | 0 <= j < |f| && 0 <= k < |f[j].children|
      ensures NotAhead(v.works[j].state, v.works[f[j].children[k]].state)
    {
      assert NotAhead(m.works[j].state, m.works[f[j].children[k]].state);
    }
  }
}
