/** Every reachable state of the scheduler, and what follows for histories, digests and draining. */
module SchedulerRuns {
  import opened Bytes
  import opened Options
  import opened Ring
  import opened Frame
  import opened Topology
  import opened Cell
  import opened Scheduler
  import opened SchedulerOrder
  import opened SchedulerLaws
  import opened SchedulerDrain
  import opened SchedulerWorld

  function NoBases(n: nat): (b: seq<Option<State>>)
    ensures |b| == n && forall i :: 0 <= i < n ==> b[i] == None
  {
    seq(n, _ => None)
  }

  /** The invariant of every reachable scheduler. */
  ghost predicate Good(e: Env, s: Sched) {
    && Sound(s.f, s.limits)
    && Inv(e, s.f, NoBases(|s.f|), s.m)
    && DistinctKeys(s.q)
    && (!s.sealed ==> s.q == [] && s.m.commits == [])
  }

  datatype Op =
    | OpAdd(n: NewCell)
    | OpSeal
    | OpPublish(r: Reading, now: U64)
    | OpWitness(id: Name, clock: U64, x: Witness)
    | OpDrain(maximum: nat)

  ghost function After(e: Env, s: Sched, op: Op): Sched
    requires Forest(s.f) && Shaped(s.f, s.m)
  {
    match op
    case OpAdd(n) => if WellFormed(n) then AddCell(s, n, IsRing(n.members, n.succs)).s else s
    case OpSeal => SealForest(s).s
    case OpPublish(r, now) => Publish(s, r, now).s
    case OpWitness(id, clock, x) => PublishWitness(s, id, clock, x).s
    case OpDrain(maximum) => DrainWorld(e, s, maximum).s
  }

  lemma FreshIsGood(e: Env, limits: Limits)
    ensures Good(e, Fresh(limits))
  {}

  // ---- adding ----

  lemma NoneThere(n: nat)
    ensures var w := NoWork(n); w.count == Present(w.pending) && |w.pending| == n == |w.committed|
  {
    PresentBound(NoWork(n).pending);
  }

  lemma AddedWorks(s: Sched, n: NewCell, children: seq<nat>, depth: nat)
    requires Forest(s.f) && Rings(s.f) && WorksInv(s.f, s.m) && Addable(s, n, children, depth) && |n.members| >= 2
    ensures WorksInv(Added(s, n, children, depth).f, Added(s, n, children, depth).m)
  {
    hide Present, Added;
    var v := Added(s, n, children, depth);
    NoneThere(if n.leaf then |n.members| else 0);
    AddedMachine(s, n, children, depth);
    AddedCell(s, n, children, depth, |s.f|);
    forall i | 0 <= i < |v.f|
      ensures WorkInv(v.f[i], v.m.works[i]) && |v.f[i].succs| == |v.f[i].members|
      ensures v.f[i].leaf ==> |v.m.works[i].pending| == |v.f[i].members| && |v.m.works[i].committed| == |v.f[i].members|
    {
      AddedCell(s, n, children, depth, i);
      if i < |s.f| {
        SameCellSameInv(s.f[i], v.f[i], s.m.works[i]);
      }
    }
  }

  lemma SameCellSameInv(c: Spec, d: Spec, w: Work)
    requires WorkInv(c, w) && d.leaf == c.leaf && d.members == c.members && d.id == c.id
    ensures WorkInv(d, w)
  {
    if c.leaf {
      forall k | 0 <= k < |w.pending| ensures SlotFits(d, w.batch, k, w.pending[k]) {
        assert SlotFits(c, w.batch, k, w.pending[k]);
      }
    }
  }

  lemma AddedMachine(s: Sched, n: NewCell, children: seq<nat>, depth: nat)
    requires |s.m.works| == |s.f|
    ensures var v := Added(s, n, children, depth);
      && |v.m.works| == |v.f| == |s.f| + 1
      && (forall i :: 0 <= i < |s.f| ==> v.m.works[i] == s.m.works[i])
      && v.m.works[|s.f|] == NoWork(if n.leaf then |n.members| else 0)
      && v.m.trace == s.m.trace && v.m.commits == s.m.commits
      && v.q == s.q && v.sealed == s.sealed && v.limits == s.limits
  {}

  lemma AddedClocks(s: Sched, n: NewCell, children: seq<nat>, depth: nat)
    requires Forest(s.f) && Rings(s.f) && Shaped(s.f, s.m) && ClockInv(s.f, s.m) && Addable(s, n, children, depth)
    requires |n.members| >= 2
    requires Shaped(Added(s, n, children, depth).f, Added(s, n, children, depth).m)
    ensures Forest(Added(s, n, children, depth).f)
    ensures ClockInv(Added(s, n, children, depth).f, Added(s, n, children, depth).m)
  {
    hide Added;
    var v := Added(s, n, children, depth);
    AddedForest(s, n, children, depth);
    AddedMachine(s, n, children, depth);
    forall i, k | 0 <= i < |v.f| && 0 <= k < |v.f[i].children|
      ensures NotAhead(v.m.works[i].state, v.m.works[v.f[i].children[k]].state)
    {
      AddedCell(s, n, children, depth, i);
      if i < |s.f| {
        assert NotAhead(s.m.works[i].state, s.m.works[s.f[i].children[k]].state);
      }
    }
  }

  lemma AddedHistory(e: Env, s: Sched, n: NewCell, children: seq<nat>, depth: nat)
    requires HistoryInv(e, s.f, NoBases(|s.f|), s.m) && s.m.commits == []
    ensures HistoryInv(e, Added(s, n, children, depth).f, NoBases(|s.f| + 1), Added(s, n, children, depth).m)
  {
    hide Added;
    var v := Added(s, n, children, depth);
    AddedMachine(s, n, children, depth);
    forall i | 0 <= i < |v.f|
      ensures v.m.works[i].state == None && History(v.m.commits, i) == []
    {
      AddedCell(s, n, children, depth, i);
      if i < |s.f| {
        assert s.m.works[i].state == LastOf(NoBases(|s.f|)[i], History(s.m.commits, i));
      }
    }
  }

  lemma AddKeeps(e: Env, s: Sched, n: NewCell)
    requires Good(e, s) && WellFormed(n)
    ensures Good(e, AddCell(s, n, IsRing(n.members, n.succs)).s)
  {
    hide Sound, IsRing, WorksInv, ClockInv, HistoryInv, Added, Orphans;
    var ring := IsRing(n.members, n.succs);
    var v := AddCell(s, n, ring).s;
    if v != s {
      var r := if n.leaf then Resolved([], 0) else Resolve(s.f, n.childIds, |n.childIds|);
      FindCellAbsent(s.f, n.id);
      if !n.leaf {
        ResolveOrphans(s.f, n.childIds, |n.childIds|);
      } else {
        NoOrphans(s.f);
      }
      ForestOf(s);
      RingIsLong(n.members, n.succs);
      assert Addable(s, n, r.children, r.depth);
      AddedSound(s, n, r.children, r.depth);
      AddedWorks(s, n, r.children, r.depth);
      WorksShaped(s.f, s.m);
      WorksShaped(v.f, v.m);
      AddedClocks(s, n, r.children, r.depth);
      AddedHistory(e, s, n, r.children, r.depth);
      AddedMachine(s, n, r.children, r.depth);
    }
  }

  lemma ForestOf(s: Sched)
    requires Sound(s.f, s.limits)
    ensures Forest(s.f) && Rings(s.f)
  {}

  // ---- publishing ----

  /** A reading is appended only if no queued event has its key. */
  lemma {:induction false} AppendIsNew(q: seq<Event>, r: Reading, k: nat, sequence: nat)
    requires k <= |q| && QueueVerdict(q, r, k) == Append
    ensures forall j :: k <= j < |q| ==> !SameKey(q[j], Observed(r, sequence))
    decreases |q| - k
  {
    if k < |q| {
      AppendIsNew(q, r, k + 1, sequence);
    }
  }

  lemma {:induction false} WitnessIsNew(q: seq<Event>, id: Name, clock: U64, x: Witness, k: nat, sequence: nat)
    requires k <= |q| && QueueWitnessVerdict(q, id, clock, x, k) == Ok
    ensures forall j :: k <= j < |q| ==> !SameKey(q[j], Attested(id, clock, x, sequence))
    decreases |q| - k
  {
    if k < |q| {
      WitnessIsNew(q, id, clock, x, k + 1, sequence);
    }
  }

  lemma AppendedKeys(q: seq<Event>, v: Event)
    requires DistinctKeys(q) && forall j :: 0 <= j < |q| ==> !SameKey(q[j], v)
    ensures DistinctKeys(q + [v])
  {
    hide SameKey;
  }

  lemma AttachedKeys(q: seq<Event>, k: nat, x: Option<Witness>)
    requires DistinctKeys(q) && k < |q| && q[k].Observed?
    ensures DistinctKeys(q[k := q[k].(reading := q[k].reading.(attached := x))])
  {
    var q' := q[k := q[k].(reading := q[k].reading.(attached := x))];
    forall i, j | 0 <= i < j < |q'| ensures !SameKey(q'[i], q'[j]) {
      assert !SameKey(q[i], q[j]);
    }
  }

  lemma PublishKeeps(e: Env, s: Sched, r: Reading, now: U64)
    requires Good(e, s) && Forest(s.f) && Shaped(s.f, s.m)
    ensures Good(e, Publish(s, r, now).s)
  {
    hide Sound, Inv, CellVerdict, QueueVerdict, ReadingOk, DistinctKeys, SameKey;
    var a := QueueVerdict(s.q, r, 0);
    if a.Append? {
      AppendIsNew(s.q, r, 0, s.next);
      AppendedKeys(s.q, Observed(r, s.next));
    } else if a.Attach? {
      AttachedKeys(s.q, a.at, r.attached);
    }
  }

  lemma WitnessKeeps(e: Env, s: Sched, id: Name, clock: U64, x: Witness)
    requires Good(e, s) && Forest(s.f) && Shaped(s.f, s.m)
    ensures Good(e, PublishWitness(s, id, clock, x).s)
  {
    hide Sound, Inv, CellWitnessVerdict, QueueWitnessVerdict, DistinctKeys, SameKey;
    if QueueWitnessVerdict(s.q, id, clock, x, 0) == Ok {
      WitnessIsNew(s.q, id, clock, x, 0, s.next);
      AppendedKeys(s.q, Attested(id, clock, x, s.next));
    }
  }

  // ---- draining ----

  lemma {:induction false} DrainQueueKeys(e: Env, f: seq<Spec>, m: Machine, q: seq<Event>, maximum: nat)
    requires Forest(f) && Shaped(f, m) && DistinctKeys(q)
    ensures DistinctKeys(DrainQueue(e, f, m, q, maximum).q)
    decreases |q|
  {
    hide ApplyEvent, Forest, MinimumEvent, Counted, DistinctKeys, Without;
    if q != [] && m.report.processed < maximum {
      var i := MinimumEvent(q);
      var a := ApplyEvent(e, f, m, q[i]);
      WithoutKeys(q, i);
      if a.consumed && (a.o == Ok || a.o == HoldDuplicate) {
        DrainQueueKeys(e, f, a.m.(report := Counted(a.m.report, a.o)), Without(q, i), maximum);
      }
    }
  }

  lemma DrainWorldKeeps(e: Env, s: Sched, maximum: nat)
    requires Good(e, s) && Forest(s.f) && Shaped(s.f, s.m)
    ensures Good(e, DrainWorld(e, s, maximum).s)
  {
    hide Sound, Inv, Retry, DrainQueue, DistinctKeys;
    ForestOf(s);
    DrainKeeps(e, s.f, NoBases(|s.f|), s.m, s.q, maximum);
    var first := Retry(e, s.f, s.m.(report := NO_REPORT), 0, None);
    DrainQueueKeys(e, s.f, first.m, s.q, maximum);
  }

  // ---- runs ----

  lemma GoodIsUsable(e: Env, s: Sched)
    requires Good(e, s)
    ensures Forest(s.f) && Rings(s.f) && Shaped(s.f, s.m)
  {}

  lemma StepGood(e: Env, s: Sched, op: Op)
    requires Good(e, s)
    ensures Forest(s.f) && Shaped(s.f, s.m) && Good(e, After(e, s, op))
  {
    hide Sound, Inv, DistinctKeys, AddCell, Publish, PublishWitness, DrainWorld;
    GoodIsUsable(e, s);
    match op
    case OpAdd(n) => if WellFormed(n) { AddKeeps(e, s, n); }
    case OpSeal =>
    case OpPublish(r, now) => PublishKeeps(e, s, r, now);
    case OpWitness(id, clock, x) => WitnessKeeps(e, s, id, clock, x);
    case OpDrain(maximum) => DrainWorldKeeps(e, s, maximum);
  }

  /** Any sequence of operations; every state on the way satisfies the invariant. */
  ghost function Run(e: Env, s: Sched, ops: seq<Op>): (r: Sched)
    requires Good(e, s)
    ensures Good(e, r)
    decreases ops
  {
    if ops == [] then s
    else
      StepGood(e, s, ops[0]);
      Run(e, After(e, s, ops[0]), ops[1..])
  }

  /** The scheduler after these operations on a new one. */
  ghost function Reached(e: Env, limits: Limits, ops: seq<Op>): (r: Sched)
    ensures Good(e, r)
  {
    FreshIsGood(e, limits);
    Run(e, Fresh(limits), ops)
  }

  // ---- what every reachable state satisfies ----

  /** Every reachable scheduler, read out cell by cell. */
  lemma {:induction false} ReachableState(e: Env, limits: Limits, ops: seq<Op>, i: nat)
    requires i < |Reached(e, limits, ops).f|
    ensures var s := Reached(e, limits, ops);
      var c := s.f[i];
      && |s.m.works| == |s.f|
      && (c.parent.Some? ==> i < c.parent.value < |s.f| && c.depth < s.f[c.parent.value].depth <= s.limits.depth)
      && (c.leaf ==> LeafInv(c, s.m.works[i]))
      && (forall k :: 0 <= k < |c.children| ==>
            c.children[k] < i && s.f[c.children[k]].parent == Some(i)
            && NotAhead(s.m.works[i].state, s.m.works[c.children[k]].state))
      && s.m.trace == TraceOf(e, ZeroDigest(), s.m.commits)
  {
    hide Reached, DistinctKeys, IsRing, History, TraceOf, LeafInv;
    var s := Reached(e, limits, ops);
    var c := s.f[i];
    LeafOf(s.f, s.m, i);
    assert forall k :: 0 <= k < |c.children| ==> ParentOf(s.f, i, c.children[k]);
    if c.parent.Some? {
      var p := c.parent.value;
      var k :| 0 <= k < |s.f[p].children| && s.f[p].children[k] == i;
      assert ParentOf(s.f, p, s.f[p].children[k]);
    }
  }

  lemma {:induction false} ChainCounts(c: Spec, h: seq<State>, j: nat, k: nat)
    requires ChainFrom(c, None, h) && j < k < |h| < TWO_64
    ensures h[j].generation == j + 1 && h[k].generation == k + 1
    ensures h[j].clock < h[k].clock && h[j].windowEnd < h[k].windowEnd
    ensures h[0].previous == ZeroDigest() && h[k].previous == h[k - 1].digest
    decreases k
  {
    assert LinkAt(c, None, h, k) && LinkAt(c, None, h, 0);
    if j < k - 1 {
      ChainCounts(c, h, j, k - 1);
    } else if j > 0 {
      ChainCounts(c, h, j - 1, j);
    }
  }

  /**
   * The states a cell commits over a whole run count their generations from one, move strictly forward in
   * clock and window, and each remember the digest of the one before; the cell's state is the last of them.
   */
  lemma {:induction false} HistoriesAreChains(e: Env, limits: Limits, ops: seq<Op>, i: nat, j: nat, k: nat)
    requires i < |Reached(e, limits, ops).f|
    requires j < k < |History(Reached(e, limits, ops).m.commits, i)| < TWO_64
    ensures var s := Reached(e, limits, ops);
      var h := History(s.m.commits, i);
      && |s.m.works| == |s.f| && s.m.works[i].state == Some(h[|h| - 1])
      && h[j].generation == j + 1 && h[k].generation == k + 1
      && h[j].clock < h[k].clock && h[j].windowEnd < h[k].windowEnd
      && h[0].previous == ZeroDigest() && h[k].previous == h[k - 1].digest
  {
    hide Reached, Sound, DistinctKeys, History, TraceOf, WorksInv, ClockInv;
    var s := Reached(e, limits, ops);
    var h := History(s.m.commits, i);
    assert ChainFrom(s.f[i], NoBases(|s.f|)[i], h);
    ChainCounts(s.f[i], h, j, k);
  }

  /**
   * Over any stretch of a cell's history its winding moves exactly as often as a phase slip is recorded, and so drifts
   * by no more than there are.
   */
  lemma {:induction false} HistoriesDrift(e: Env, limits: Limits, ops: seq<Op>, i: nat, j: nat, k: nat)
    requires i < |Reached(e, limits, ops).f|
    requires j <= k < |History(Reached(e, limits, ops).m.commits, i)|
    ensures var h := History(Reached(e, limits, ops).m.commits, i);
      && Turns(h, j, k) == Slips(h, j, k)
      && -(Slips(h, j, k) as int) <= h[k].winding - h[j].winding <= Slips(h, j, k) <= k - j
  {
    hide Reached, Sound, DistinctKeys, History, TraceOf, WorksInv, ClockInv, Linked;
    var s := Reached(e, limits, ops);
    var h := History(s.m.commits, i);
    assert ChainFrom(s.f[i], NoBases(|s.f|)[i], h);
    forall n | j <= n <= k ensures h[n].frameVersion == s.f[i].frameVersion && (n > j ==> Linked(h[n - 1], h[n])) {
      assert LinkAt(s.f[i], None, h, n);
    }
    DriftIsWitnessed(h, j, k);
    TurnsAreSlips(h, j, k);
  }

  /** In every reachable state queue keys are distinct, so draining never depends on the order of publication. */
  lemma ReachableDrainIgnoresOrder(e: Env, limits: Limits, ops: seq<Op>, q: seq<Event>, p: seq<nat>, maximum: nat)
    returns (rest: seq<nat>)
    requires Rearranged(Reached(e, limits, ops).q, q, p)
    ensures var s := Reached(e, limits, ops);
      && Forest(s.f) && Shaped(s.f, s.m)
      && var a, b := DrainWorld(e, s, maximum), DrainWorld(e, s.(q := q), maximum);
      && b.o == a.o && b.s.m == a.s.m && Rearranged(a.s.q, b.s.q, rest)
  {
    hide Reached, Drain, Sound, DistinctKeys, Rearranged, WorksInv, ClockInv, HistoryInv;
    var s := Reached(e, limits, ops);
    GoodIsUsable(e, s);
    if maximum > 0 && s.sealed {
      rest := DrainIgnoresPublicationOrder(e, s.f, s.m, s.q, q, p, maximum);
    } else {
      rest := p;
    }
  }
}
