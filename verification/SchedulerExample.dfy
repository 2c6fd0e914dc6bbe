/**
 * Runs that get there, from a new scheduler of two leaves under one composite: to a witness whose clock was missed,
 * to a jammed leaf, to a state that ends its chain, and to a composite that blocks every drain with no leaf jammed.
 */
module SchedulerExample {
  import opened Bytes
  import opened Options
  import opened Angle
  import Ring
  import opened Frame
  import opened Topology
  import opened Cell
  import opened Scheduler
  import opened SchedulerOrder
  import opened SchedulerLaws
  import opened SchedulerDrain
  import opened SchedulerWorld
  import opened SchedulerRuns
  import opened SchedulerTrail
  import opened SchedulerFate
  import opened SchedulerBlock
  import opened SchedulerQueue
  import opened ExampleFrames
  import opened ExampleRounds

  const LIMITS: Limits := Limits(3, 10, 2)

  // ---- operations, one by one ----

  lemma RunStep(e: Env, s: Sched, ops: seq<Op>)
    requires Good(e, s) && ops != []
    ensures Forest(s.f) && Shaped(s.f, s.m) && Good(e, SchedulerRuns.After(e, s, ops[0]))
    ensures Run(e, s, ops) == Run(e, SchedulerRuns.After(e, s, ops[0]), ops[1..])
  {
    hide Good;
    StepGood(e, s, ops[0]);
  }

  lemma RunDone(e: Env, s: Sched)
    requires Good(e, s)
    ensures Run(e, s, []) == s
  {}

  lemma {:induction false} RunChains(e: Env, s: Sched, a: seq<Op>, b: seq<Op>)
    requires Good(e, s)
    ensures Run(e, s, a + b) == Run(e, Run(e, s, a), b)
    decreases a
  {
    hide Good, SchedulerRuns.After;
    if a == [] {
      assert a + b == b;
    } else {
      StepGood(e, s, a[0]);
      RunChains(e, SchedulerRuns.After(e, s, a[0]), a[1..], b);
      assert (a + b)[1..] == a[1..] + b;
    }
  }

  /** A scheduler between two rounds. */
  predicate Ready(e: Env, s: Sched, t: nat, held: Option<Held>) {
    && s.f == Cells() && s.sealed && s.limits == LIMITS && s.q == [] && 0 < s.next < 1000
    && Idle(e, s.m, t, held)
  }

  lemma ReadyShaped(e: Env, s: Sched, t: nat, held: Option<Held>)
    requires Ready(e, s, t, held)
    ensures Forest(Cells()) && Shaped(Cells(), s.m) && s.f == Cells() && s.next < 1000 && s.q == []
  {
    IdleShaped(e, s.m, t, held);
  }

  // ---- setting up ----

  function NewLeaf(id: Name): NewCell {
    NewCell(id, true, PAIR, SWAPPED, [], 1, 1, 1, STALE, HORIZON)
  }

  function NewTop(): NewCell {
    NewCell(C, false, PAIR, SWAPPED, [A, B], 1, 1, 1, STALE, HORIZON)
  }

  function SetUp(): seq<Op> {
    [OpAdd(NewLeaf(A)), OpAdd(NewLeaf(B)), OpAdd(NewTop()), OpSeal]
  }

  lemma AddsLeaf(s: Sched, id: Name)
    requires !s.sealed && |s.f| < 3 && s.limits == LIMITS && NameValid(id) && FindCell(s.f, id) == |s.f|
    ensures AddCell(s, NewLeaf(id), true) == Answer(Added(s, NewLeaf(id), [], 0), Ok)
  {
    hide Added;
  }

  lemma ResolvesBoth()
    ensures Resolve([Leaf(A, None), Leaf(B, None)], [A, B], 2) == Resolved([0, 1], 1)
  {
    var f := [Leaf(A, None), Leaf(B, None)];
    assert f[1..][0].id == B && FindCell(f, A) == 0 && FindCell(f, B) == 1;
    assert Resolve(f, [A, B], 0) == Resolved([], 0);
    assert Resolve(f, [A, B], 1) == Resolved([0], 1);
    assert [0] + [1] == [0, 1];
  }

  lemma AddsTop(s: Sched)
    requires !s.sealed && s.limits == LIMITS && s.f == [Leaf(A, None), Leaf(B, None)]
    ensures AddCell(s, NewTop(), true) == Answer(Added(s, NewTop(), [0, 1], 1), Ok)
    ensures Added(s, NewTop(), [0, 1], 1).f == Cells()
  {
    ResolvesBoth();
    assert s.f[1..][0].id == B && FindCell(s.f[1..][1..], C) == 0;
    assert FindCell(s.f[1..], C) == 1 && FindCell(s.f, C) == 2;
    assert Adopted(s.f, [0, 1], 2) == [Leaf(A, Some(2)), Leaf(B, Some(2))];
    assert SpecOf(NewTop(), [0, 1], 1) == Top();
  }

  lemma SetsUp(e: Env) returns (s: Sched)
    ensures s == Reached(e, LIMITS, SetUp())
    ensures Good(e, s) && Ready(e, s, 0, None) && s.next == 1
  {
    hide Good, Added, Resolve, AddCell;
    var ops := SetUp();
    PairIsRing();
    FreshIsGood(e, LIMITS);
    var s0 := Fresh(LIMITS);
    AddsLeaf(s0, A);
    RunStep(e, s0, ops);
    var s1 := Added(s0, NewLeaf(A), [], 0);
    AddsA(s0);
    AddsLeaf(s1, B);
    RunStep(e, s1, ops[1..]);
    var s2 := Added(s1, NewLeaf(B), [], 0);
    AddsB(s1);
    AddsTop(s2);
    RunStep(e, s2, ops[1..][1..]);
    var s3 := Added(s2, NewTop(), [0, 1], 1);
    RunStep(e, s3, ops[1..][1..][1..]);
    s := SealForest(s3).s;
    RunDone(e, s);
    ThreeIdle(e, s0, s1, s2, s3);
  }

  lemma AddsA(s: Sched)
    requires s == Fresh(LIMITS)
    ensures var v := Added(s, NewLeaf(A), [], 0);
      v.f == [Leaf(A, None)] && !v.sealed && v.limits == LIMITS && FindCell(v.f, B) == 1
  {
    assert Added(s, NewLeaf(A), [], 0).f == [Leaf(A, None)];
    assert FindCell([Leaf(A, None)][1..], B) == 0;
  }

  lemma AddsB(s: Sched)
    requires s.f == [Leaf(A, None)] && !s.sealed && s.limits == LIMITS
    ensures var v := Added(s, NewLeaf(B), [], 0);
      v.f == [Leaf(A, None), Leaf(B, None)] && !v.sealed && v.limits == LIMITS
  {
    assert Adopted(s.f, [], 1) == s.f;
  }

  lemma ThreeIdle(e: Env, s0: Sched, s1: Sched, s2: Sched, s3: Sched)
    requires s0 == Fresh(LIMITS) && s1 == Added(s0, NewLeaf(A), [], 0) && s2 == Added(s1, NewLeaf(B), [], 0)
    requires s3 == Added(s2, NewTop(), [0, 1], 1)
    ensures Idle(e, s3.m, 0, None) && s3.q == [] && s3.next == 1 && s3.limits == LIMITS
  {
    assert NoWork(2).pending == [None, None] && |NoWork(2).committed| == 2;
    assert NoWork(0).pending == [] && NoWork(0).committed == [];
    assert s3.m.works == [NoWork(2), NoWork(2), NoWork(0)];
  }

  // ---- a round: four readings and a drain ----

  function NthReading(t: nat, x: real, y: real, k: nat): Reading
    requires 0 < t < 100
  {
    Shown(if k < 2 then A else B, if k % 2 == 0 then 1 else 2, Even(t, if k < 2 then x else y))
  }

  /** The scheduler after k readings of clock t were published. */
  function Published(s: Sched, t: nat, x: real, y: real, k: nat): Sched
    requires 0 < t < 100 && k <= 4 && s.next + k < TWO_64
  {
    s.(q := Readings(t, x, y, s.next)[..k], next := s.next + k)
  }

  lemma PublishesNth(e: Env, s: Sched, before: nat, t: nat, x: real, y: real, held: Option<Held>, k: nat)
    requires Ready(e, s, before, held) && before < t < 100 && k < 4 && Forest(Cells()) && Shaped(Cells(), s.m)
    ensures Publish(Published(s, t, x, y, k), NthReading(t, x, y, k), Start(t) + WIDTH)
         == Answer(Published(s, t, x, y, k + 1), Ok)
  {
    hide StateAt, Cells, FindCell, Ring.Find;
    var i := if k < 2 then 0 else 1;
    FindsLeaf(i);
    StateClock(e, LeafName(i), s.m.works[i].state, before);
    var v, r := Published(s, t, x, y, k), NthReading(t, x, y, k);
    var q := Readings(t, x, y, s.next);
    assert q[k] == Observed(r, s.next + k);
    assert q[..k + 1] == q[..k] + [q[k]];
    NothingLike(t, x, y, s.next, k, k);
  }

  /** No earlier reading of the round stands in the way of the k-th. */
  lemma {:induction false} NothingLike(t: nat, x: real, y: real, n: nat, k: nat, left: nat)
    requires 0 < t < 100 && k < 4 && left <= k
    ensures QueueVerdict(Readings(t, x, y, n)[..k], NthReading(t, x, y, k), k - left) == Append
    decreases left
  {
    if left > 0 {
      NothingLike(t, x, y, n, k, left - 1);
      var j := k - left;
      assert Readings(t, x, y, n)[..k][j] == Observed(NthReading(t, x, y, j), n + j);
    }
  }

  function RoundOps(t: nat, x: real, y: real): seq<Op>
    requires 0 < t < 100
  {
    [OpPublish(NthReading(t, x, y, 0), Start(t) + WIDTH), OpPublish(NthReading(t, x, y, 1), Start(t) + WIDTH),
     OpPublish(NthReading(t, x, y, 2), Start(t) + WIDTH), OpPublish(NthReading(t, x, y, 3), Start(t) + WIDTH),
     OpDrain(10)]
  }

  /** A round leads to the drain of its four readings. */
  lemma RoundDrains(e: Env, s: Sched, before: nat, t: nat, x: real, y: real, held: Option<Held>)
    requires Good(e, s) && Ready(e, s, before, held) && before < t < 100
    ensures Forest(Cells()) && Shaped(Cells(), s.m)
    ensures Run(e, s, RoundOps(t, x, y)) == DrainWorld(e, Published(s, t, x, y, 4), 10).s
  {
    hide Good, Ready, Idle, Readings, Publish, DrainWorld, NthReading, Forest, Shaped;
    var ops := RoundOps(t, x, y);
    ReadyShaped(e, s, before, held);
    PublishesNth(e, s, before, t, x, y, held, 0);
    PublishesNth(e, s, before, t, x, y, held, 1);
    PublishesNth(e, s, before, t, x, y, held, 2);
    PublishesNth(e, s, before, t, x, y, held, 3);
    assert Readings(t, x, y, s.next)[..0] == [];
    assert Published(s, t, x, y, 0) == s;
    RunStep(e, s, ops);
    var s1 := Published(s, t, x, y, 1);
    RunStep(e, s1, ops[1..]);
    var s2 := Published(s, t, x, y, 2);
    RunStep(e, s2, ops[1..][1..]);
    var s3 := Published(s, t, x, y, 3);
    RunStep(e, s3, ops[1..][1..][1..]);
    var s4 := Published(s, t, x, y, 4);
    RunStep(e, s4, ops[1..][1..][1..][1..]);
    RunDone(e, DrainWorld(e, s4, 10).s);
  }

  lemma DrainsRound(e: Env, s: Sched, before: nat, t: nat, held: Option<Held>) returns (v: Sched)
    requires Fair(e) && Ready(e, s, before, held) && before < t < 100 && Forest(Cells()) && Shaped(Cells(), s.m)
    requires held.Some? ==> held.value.target != t
    ensures DrainWorld(e, Published(s, t, 0.0, 0.0, 4), 10).s == v
    ensures v.next == s.next + 4 && (s.next < 990 ==> Ready(e, v, t, held))
  {
    hide StateAt, Retry, DrainQueue, Readings, Fair, TopStays, Resting;
    var m := s.m.(report := NO_REPORT);
    IdleIsQuiet(e, m, before, held);
    RetryQuiet(e, m);
    QueueShape(t, 0.0, 0.0, s.next);
    assert Readings(t, 0.0, 0.0, s.next)[..4] == Readings(t, 0.0, 0.0, s.next);
    var x := DrainsFour(e, m, before, t, held, s.next);
    IdleShaped(e, x, t, held);
    IdleIsQuiet(e, x, t, held);
    RetryQuiet(e, x);
    v := DrainWorld(e, Published(s, t, 0.0, 0.0, 4), 10).s;
  }

  /** A round with all phases alike takes all three cells to its clock. */
  lemma Round(e: Env, s: Sched, before: nat, t: nat, held: Option<Held>) returns (v: Sched)
    requires Fair(e) && Good(e, s) && Ready(e, s, before, held) && before < t < 100 && s.next < 990
    requires held.Some? ==> held.value.target != t
    ensures Run(e, s, RoundOps(t, 0.0, 0.0)) == v && Good(e, v) && Ready(e, v, t, held) && v.next == s.next + 4
  {
    hide Good, Ready, Published, DrainWorld, Forest, Shaped, RoundOps, Fair;
    RoundDrains(e, s, before, t, 0.0, 0.0, held);
    v := DrainsRound(e, s, before, t, held);
  }

  // ---- the witness ----

  function Testimony(): Topology.Witness {
    Witness(LocalDeformation, 1, 2, 2, Ones())
  }

  function Waiting(): Option<Held> {
    Some(Held(2, Testimony()))
  }

  function WitnessOps(): seq<Op> {
    [OpWitness(C, 2, Testimony()), OpDrain(10)]
  }

  lemma FindsTop()
    ensures FindCell(Cells(), C) == 2
  {
    var f := Cells();
    assert f[1..][0].id == B && f[1..][1..][0].id == C;
    assert FindCell(f[1..][1..], C) == 0 && FindCell(f[1..], C) == 1;
  }

  lemma PublishesWitness(e: Env, s: Sched)
    requires Ready(e, s, 1, None) && Fits(s.f, s.m)
    ensures PublishWitness(s, C, 2, Testimony())
         == Answer(s.(q := [Attested(C, 2, Testimony(), s.next)], next := s.next + 1), Ok)
  {
    hide StateValid;
    FindsTop();
    assert s.q + [Attested(C, 2, Testimony(), s.next)] == [Attested(C, 2, Testimony(), s.next)];
  }

  lemma HoldsWitness(e: Env, m: Machine) returns (v: Machine)
    requires Idle(e, m, 1, None) && Forest(Cells()) && Shaped(Cells(), m)
    ensures ApplyWitness(e, Cells(), m, C, 2, Testimony()) == Applied(v, Ok, true)
    ensures Idle(e, v, 1, Waiting()) && Shaped(Cells(), v) && v.report.processed == m.report.processed
  {
    hide StateValid, ReduceComposite, ReduceLeaf;
    FindsTop();
    v := Holding(m, 2, Held(2, Testimony()));
    IdleIsQuiet(e, v, 1, Waiting());
    TopWaits(e, v);
  }

  lemma DrainsWitness(e: Env, s: Sched, q: seq<Event>) returns (v: Sched)
    requires Ready(e, s, 1, None) && Forest(Cells()) && Shaped(Cells(), s.m)
    requires q == [Attested(C, 2, Testimony(), s.next)]
    ensures v == DrainWorld(e, s.(q := q, next := s.next + 1), 10).s
    ensures v.next == s.next + 1 && (s.next < 999 ==> Ready(e, v, 1, Waiting()))
  {
    hide StateAt, Retry, ApplyWitness, DrainQueue, Waiting, Testimony;
    var m := s.m.(report := NO_REPORT);
    IdleIsQuiet(e, m, 1, None);
    RetryQuiet(e, m);
    var x := HoldsWitness(e, m);
    OneEvent(q);
    DrainsOne(e, m, q, x, 10);
    var u := CountedOk(x);
    QueueDone(e, u);
    IdleIsQuiet(e, u, 1, Waiting());
    RetryQuiet(e, u);
    v := DrainWorld(e, s.(q := q, next := s.next + 1), 10).s;
  }

  lemma OneEvent(q: seq<Event>)
    requires |q| == 1
    ensures MinimumEvent(q) == 0 && q[1..] == []
  {}

  lemma TakesWitness(e: Env, s: Sched) returns (v: Sched)
    requires Good(e, s) && Ready(e, s, 1, None) && s.next < 900
    ensures v == Run(e, s, WitnessOps()) && Good(e, v) && Ready(e, v, 1, Waiting())
    ensures v.next == s.next + 1
  {
    hide Good, Ready, Idle, PublishWitness, DrainWorld, Forest, Shaped, Waiting, Testimony;
    var ops := WitnessOps();
    ReadyShaped(e, s, 1, None);
    PublishesWitness(e, s);
    RunStep(e, s, ops);
    var q := [Attested(C, 2, Testimony(), s.next)];
    var s1 := s.(q := q, next := s.next + 1);
    v := DrainsWitness(e, s, q);
    RunStep(e, s1, ops[1..]);
    RunDone(e, v);
  }

  // ---- the run ----

  function SkippingRun(): seq<Op> {
    SetUp() + (RoundOps(1, 0.0, 0.0) + (WitnessOps() + RoundOps(3, 0.0, 0.0)))
  }

  lemma SkippingRunEnds(e: Env) returns (s: Sched)
    requires Fair(e)
    ensures s == Reached(e, LIMITS, SkippingRun()) && Good(e, s) && Ready(e, s, 3, Waiting())
  {
    hide Good, Run, Ready, Waiting, SetUp, RoundOps, WitnessOps, Fair;
    var s0 := SetsUp(e);
    var s1 := Round(e, s0, 0, 1, None);
    var s2 := TakesWitness(e, s1);
    WaitsForTwo();
    s := Round(e, s2, 1, 3, Waiting());
    var round, later := RoundOps(1, 0.0, 0.0), RoundOps(3, 0.0, 0.0);
    FreshIsGood(e, LIMITS);
    RunChains(e, Fresh(LIMITS), SetUp(), round + (WitnessOps() + later));
    RunChains(e, s0, round, WitnessOps() + later);
    RunChains(e, s1, WitnessOps(), later);
  }

  /**
   * After these sixteen operations the composite has gone from clock 1 to clock 3 and still holds the witness for
   * clock 2. What follows from there is MissedForever and MissedBlocks.
   */
  lemma SkippedWitnessIsReachable(e: Env)
    requires Fair(e)
    ensures var s := Reached(e, LIMITS, SkippingRun());
      && Good(e, s) && WitnessMissed(s, 2) && s.m.works[2].held == Waiting() && s.m.works[2].held.value.target == 2
      && Past(s.m.works[2], 2)
  {
    hide Good, Run, Ready, WitnessMissed, Waiting, Fair;
    var s := SkippingRunEnds(e);
    WaitsForTwo();
    ReadyMisses(e, s);
  }

  lemma WaitsForTwo()
    ensures Waiting().Some? && Waiting().value.target == 2
  {}

  lemma ReadyMisses(e: Env, s: Sched)
    requires Ready(e, s, 3, Waiting())
    ensures WitnessMissed(s, 2) && s.m.works[2].held == Waiting() && Past(s.m.works[2], 2)
  {
    hide StateValid;
  }

  // ---- both readings of the first leaf ----

  function PairOps(g: Shot): seq<Op>
    requires ShotFits(g)
  {
    [OpPublish(Shown(A, 1, g), Start(g.t) + WIDTH), OpPublish(Shown(A, 2, g), Start(g.t) + WIDTH), OpDrain(10)]
  }

  lemma PublishesPair(e: Env, s: Sched, g: Shot)
    requires Ready(e, s, 0, None) && ShotFits(g) && Forest(Cells()) && Shaped(Cells(), s.m)
    ensures var q := PairQueue(0, g, s.next);
      var s1 := s.(q := q[..1], next := s.next + 1);
      && Publish(s, Shown(A, 1, g), Start(g.t) + WIDTH) == Answer(s1, Ok)
      && Publish(s1, Shown(A, 2, g), Start(g.t) + WIDTH) == Answer(s.(q := q, next := s.next + 2), Ok)
  {
    hide StateAt, Cells, FindCell, Ring.Find;
    FindsLeaf(0);
    StateClock(e, A, s.m.works[0].state, 0);
    var q := PairQueue(0, g, s.next);
    assert q[..1] == [q[0]] && s.q + [q[0]] == q[..1] && q[..1] + [q[1]] == q;
    assert QueueVerdict(q[..1], Shown(A, 2, g), 1) == Append;
  }

  lemma PairDrains(e: Env, s: Sched, g: Shot)
    requires Good(e, s) && Ready(e, s, 0, None) && ShotFits(g)
    ensures Forest(Cells()) && Shaped(Cells(), s.m)
    ensures Run(e, s, PairOps(g)) == DrainWorld(e, s.(q := PairQueue(0, g, s.next), next := s.next + 2), 10).s
  {
    hide Good, Ready, Publish, DrainWorld, Shown, Forest, Shaped;
    var ops := PairOps(g);
    ReadyShaped(e, s, 0, None);
    PublishesPair(e, s, g);
    RunStep(e, s, ops);
    var s1 := s.(q := PairQueue(0, g, s.next)[..1], next := s.next + 1);
    RunStep(e, s1, ops[1..]);
    var s2 := s.(q := PairQueue(0, g, s.next), next := s.next + 2);
    assert ops[1..][0] == OpPublish(Shown(A, 2, g), Start(g.t) + WIDTH);
    RunStep(e, s2, ops[1..][1..]);
    RunDone(e, DrainWorld(e, s2, 10).s);
    assert ops[1..][1..] == [OpDrain(10)] && [OpDrain(10)][1..] == [];
  }

  /** The first retry and the first reading. */
  lemma DrainsFirst(e: Env, s: Sched, g: Shot) returns (u: Machine)
    requires Ready(e, s, 0, None) && ShotFits(g) && Forest(Cells()) && Shaped(Cells(), s.m)
    ensures Shaped(Cells(), u) && |u.works| == 3 && HalfLeaf(e, A, u.works[0], 0, g)
    ensures u.works[1] == s.m.works[1] && u.works[2] == s.m.works[2]
    ensures u.report.processed == 1
    ensures var m, q := s.m.(report := NO_REPORT), PairQueue(0, g, s.next);
      && Retry(e, Cells(), m, 0, None) == Step(m, Ok) && |q| == 2 && q[1..] == [q[1]]
      && q[1] == Observed(Shown(A, 2, g), s.next + 1)
      && DrainQueue(e, Cells(), m, q, 10) == DrainQueue(e, Cells(), u, [q[1]], 10)
  {
    hide StateAt, Retry, ApplyReading, HalfLeaf, FullLeaf, Shown, TopStays, DrainQueue, ReduceLeaf, Shaped, Forest,
      MinimumEvent, Counted, Resting, PairQueue, IdleLeaf, IdleTop;
    var m, q := s.m.(report := NO_REPORT), PairQueue(0, g, s.next);
    IdleIsQuiet(e, m, 0, None);
    IdleShaped(e, m, 0, None);
    RetryQuiet(e, m);
    PairOrder(0, g, s.next);
    ReadyHas(e, s);
    var x := TakesFirst(e, m, 0, 0, g);
    DrainsOne(e, m, q, x, 10);
    u := CountedOk(x);
  }

  lemma ReadyHas(e: Env, s: Sched)
    requires Ready(e, s, 0, None)
    ensures |s.m.works| == 3 && IdleLeaf(e, A, s.m.works[0], 0)
  {
    hide StateAt;
  }

  // ---- a jammed leaf ----

  function Opposed(): Shot {
    Shot(1, WIDTH, 0.0, PI)
  }

  /** Two readings half a turn apart. */
  lemma OpposedEdge(obs: seq<Observation>)
    requires |obs| == 2 && obs[0].phase == 0.0 && obs[1].phase == PI
    ensures Antipodal([Wrapped(obs[0]), Wrapped(obs[1])], 0)
  {
    hide Wrap;
    WrapUnique(0.0, 0.0, 0);
    WrapUnique(PI, PI, 0);
  }

  lemma OpposedIsJammed(e: Env, w: Work)
    requires Fair(e) && FullLeaf(e, A, w, 0, Opposed())
    ensures Jammed(e, Cells()[0], w)
  {
    hide Antipodal, Classify, Present, SnapshotValid, Seal, StateValid, Fair, LeafFrame;
    var c, g := Cells()[0], Opposed();
    LeafSeals(e, 0, w, 0, g);
    PairSeals(e, A, LeafObservations(c, w), g);
    OpposedEdge(LeafObservations(c, w));
    PresentBound(w.pending);
    assert LeafInv(c, w);
    AntipodalIsJammed(e, c, w, 0);
  }

  lemma DrainsIntoJam(e: Env, s: Sched) returns (v: Sched)
    requires Fair(e) && Ready(e, s, 0, None) && Forest(Cells()) && Shaped(Cells(), s.m)
    ensures v == DrainWorld(e, s.(q := PairQueue(0, Opposed(), s.next), next := s.next + 2), 10).s
    ensures v.f == Cells() && v.sealed && |v.m.works| == 3 && Jammed(e, Cells()[0], v.m.works[0])
  {
    hide Retry, ApplyReading, Jammed, HalfLeaf, FullLeaf, Shown, ReduceLeaf, DrainQueue, Forest, Shaped, Fair, Idle,
      Cells;
    var u := DrainsFirst(e, s, Opposed());
    var x := FillsSecond(e, u, 0, 0, Opposed());
    OpposedIsJammed(e, x.works[0]);
    OfThree();
    JammedFails(e, Cells(), x, 0);
    var q := PairQueue(0, Opposed(), s.next);
    DrainsBadly(e, u, [q[1]], x, ReduceLeaf(e, Cells(), x, 0).o);
    v := DrainWorld(e, s.(q := q, next := s.next + 2), 10).s;
  }

  lemma OfThree()
    ensures |Cells()| == 3
  {}

  /** Two readings half a turn apart jam their leaf, and with it every drain to come: JammedStopsDrains. */
  lemma JamIsReachable(e: Env)
    requires Fair(e)
    ensures var s := Reached(e, LIMITS, SetUp() + PairOps(Opposed()));
      && Good(e, s) && s.sealed && |s.f| == |s.m.works| == 3 && Jammed(e, s.f[0], s.m.works[0])
  {
    hide Good, Run, Ready, SetUp, DrainWorld, Jammed, PairOps, Fair;
    var s0 := SetsUp(e);
    FreshIsGood(e, LIMITS);
    RunChains(e, Fresh(LIMITS), SetUp(), PairOps(Opposed()));
    PairDrains(e, s0, Opposed());
    var s := DrainsIntoJam(e, s0);
  }

  // ---- a state that ends its chain ----

  function Momentary(): Shot {
    Shot(1, 0, 0.0, 0.0)
  }

  lemma DrainsToEnd(e: Env, s: Sched) returns (v: Sched)
    requires Fair(e) && Ready(e, s, 0, None) && Forest(Cells()) && Shaped(Cells(), s.m)
    ensures v == DrainWorld(e, s.(q := PairQueue(0, Momentary(), s.next), next := s.next + 2), 10).s
    ensures v.f == Cells() && v.sealed && |v.m.works| == 3 && v.q == [] && Shows(e, A, v.m.works[0], Momentary())
  {
    hide Retry, ApplyReading, HalfLeaf, FullLeaf, Shown, ReduceLeaf, Propagate, DrainQueue, Forest, Shaped, Fair,
      StateOf, LeafMacro;
    var g := Momentary();
    var u := DrainsFirst(e, s, g);
    var x := FillsSecond(e, u, 0, 0, g);
    var y := LeafCommits(e, x, 0, 0, g);
    ClimbWaits(e, y, 0);
    var q := PairQueue(0, g, s.next);
    DrainsLast(e, u, q[1], y);
    var z := CountedOk(y);
    RetryQuiet(e, z);
    v := DrainWorld(e, s.(q := q, next := s.next + 2), 10).s;
  }

  lemma DrainsLast(e: Env, m: Machine, x: Event, v: Machine)
    requires Forest(Cells()) && Shaped(Cells(), m) && m.report.processed < 10
    requires ApplyEvent(e, Cells(), m, x) == Applied(v, Ok, true)
    ensures Shaped(Cells(), v) && DrainQueue(e, Cells(), m, [x], 10) == Drained(CountedOk(v), [], Ok)
  {
    hide ApplyEvent, Cells, Forest, DrainQueue;
    OneEvent([x]);
    DrainsOne(e, m, [x], v, 10);
    QueueDone(e, CountedOk(v));
  }

  /**
   * Two readings of one time, in a window of no width, give their leaf a state that fails validation. What follows
   * from there is EndedForever.
   */
  lemma EndedIsReachable(e: Env)
    requires Fair(e)
    ensures var s := Reached(e, LIMITS, SetUp() + PairOps(Momentary()));
      && Good(e, s) && s.sealed && |s.f| == |s.m.works| == 3 && Ended(e, s.m.works[0])
  {
    hide Good, Run, Ready, SetUp, DrainWorld, Ended, PairOps, Fair, StateValid;
    var s0 := SetsUp(e);
    FreshIsGood(e, LIMITS);
    RunChains(e, Fresh(LIMITS), SetUp(), PairOps(Momentary()));
    PairDrains(e, s0, Momentary());
    var s := DrainsToEnd(e, s0);
    ZeroWidthEnds(e, s.m.works[0]);
  }

  // ---- a stuck composite ----

  /** Of two phases alike the mean is that phase, as the circular mean gives it; here at 0 and at half a turn. */
  predicate MeansAlike(e: Env) {
    e.R([0.0, 0.0], PAIR).meanPhase == 0.0 && e.R([PI, PI], PAIR).meanPhase == PI
  }

  /** The leaves, half a turn apart at clock 1, have committed, and the composite cannot. */
  predicate Split(e: Env, m: Machine) {
    && |m.works| == 3 && Shows(e, A, m.works[0], Even(1, 0.0)) && Shows(e, B, m.works[1], Even(1, PI))
    && IdleTop(e, m.works[2], 0, None)
  }

  lemma SplitIsStuck(e: Env, m: Machine)
    requires Fair(e) && MeansAlike(e) && Split(e, m) && Forest(Cells()) && Shaped(Cells(), m)
    ensures Stuck(e, Cells(), m, 2)
  {
    hide Antipodal, Seal, Fair, StateOf, PairFrame, SnapshotValid, Stuck, CompositeTries;
    MeansOf(e, m);
    TopSeals(e, m, 0, 1);
    var obs := ChildObservations(Top(), m);
    PairSeals(e, C, obs, TopShot(m, 1));
    FramePhases(obs, TopShot(m, 1));
    OpposedEdge(obs);
    assert Cells()[2] == Top();
    AntipodalIsStuck(e, Cells(), m, 2, 0);
  }

  lemma FramePhases(obs: seq<Observation>, g: Shot)
    requires PairFrame(obs, g)
    ensures |obs| == 2 && obs[0].phase == g.x && obs[1].phase == g.y
  {}

  lemma MeansOf(e: Env, m: Machine)
    requires MeansAlike(e) && Split(e, m)
    ensures TopMayGo(e, m, 0, 1) && TopShot(m, 1).x == 0.0 && TopShot(m, 1).y == PI
  {
    hide Wrap, StateOf;
    WrapUnique(0.0, 0.0, 0);
    WrapUnique(PI, PI, 0);
  }

  lemma SplitIsBlocked(e: Env, m: Machine)
    requires Fair(e) && MeansAlike(e) && Split(e, m) && Forest(Cells()) && Shaped(Cells(), m)
    ensures Blocked(e, Cells(), m) && !Jammed(e, Cells()[0], m.works[0]) && !Jammed(e, Cells()[1], m.works[1])
  {
    hide Shows, StateOf, Stuck, Fair, MeansAlike;
    SplitIsStuck(e, m);
    SplitRests(e, m);
    var f := Cells();
    forall j | 0 <= j < 3 && NameBefore(f[j].id, f[2].id) ensures Quiet(e, f, m, j) {
      NamesIrreflexive(C);
      NotFullIsQuiet(e, f, m, j);
    }
    assert BlockedAt(e, f, m, 2);
  }

  lemma SplitRests(e: Env, m: Machine)
    requires Split(e, m)
    ensures Resting(m.works[0]) && Resting(m.works[1])
  {
    hide StateOf;
  }

  lemma DrainsIntoSplit(e: Env, s: Sched) returns (v: Sched)
    requires Fair(e) && MeansAlike(e) && Ready(e, s, 0, None) && Forest(Cells()) && Shaped(Cells(), s.m)
    ensures v == DrainWorld(e, Published(s, 1, 0.0, PI, 4), 10).s
    ensures v.f == Cells() && v.sealed && Split(e, v.m) && Shaped(Cells(), v.m)
  {
    hide StateAt, Retry, DrainQueue, Readings, Fair, TopStays, Resting, ApplyEvent, Propagate, Shows, MeansAlike,
      Forest, Shaped;
    var m := s.m.(report := NO_REPORT);
    IdleIsQuiet(e, m, 0, None);
    IdleShaped(e, m, 0, None);
    RetryQuiet(e, m);
    QueueShape(1, 0.0, PI, s.next);
    assert Readings(1, 0.0, PI, s.next)[..4] == Readings(1, 0.0, PI, s.next);
    var u, x := DrainsThree(e, m, 0, 1, 0.0, PI, None, s.next);
    SplitIsStuck(e, x);
    StuckClimb(e, x);
    DrainsBadly(e, u, Readings(1, 0.0, PI, s.next)[3..], x, Propagate(e, Cells(), x, 1).o);
    v := DrainWorld(e, Published(s, 1, 0.0, PI, 4), 10).s;
  }

  /** The leaf's commit stands, and the error of its parent is the answer. */
  lemma StuckClimb(e: Env, m: Machine)
    requires Forest(Cells()) && Shaped(Cells(), m) && Stuck(e, Cells(), m, 2)
    ensures Propagate(e, Cells(), m, 1).m == m && IsError(Propagate(e, Cells(), m, 1).o)
  {
    hide ReduceComposite, Stuck;
    assert !Cells()[2].leaf;
    CellTried(e, Cells(), m, 2);
  }

  /**
   * Two leaves that each agree within and stand half a turn apart: the composite blocks every drain to come, though
   * no leaf is jammed and none has a batch begun. What follows from there is BlockedForever.
   */
  lemma CompositeBlockIsReachable(e: Env)
    requires Fair(e) && MeansAlike(e)
    ensures var s := Reached(e, LIMITS, SetUp() + RoundOps(1, 0.0, PI));
      && Good(e, s) && |s.f| == |s.m.works| == 3 && DrainBlocked(e, s)
      && !s.f[2].leaf && Stuck(e, s.f, s.m, 2)
      && forall i :: 0 <= i < 3 ==> !Jammed(e, s.f[i], s.m.works[i])
  {
    hide Good, Run, Ready, SetUp, DrainWorld, Jammed, RoundOps, Fair, Blocked, Stuck, Published, Split, Forest, Shaped;
    var s0 := SetsUp(e);
    FreshIsGood(e, LIMITS);
    RunChains(e, Fresh(LIMITS), SetUp(), RoundOps(1, 0.0, PI));
    RoundDrains(e, s0, 0, 1, 0.0, PI, None);
    var s := DrainsIntoSplit(e, s0);
    SplitIsStuck(e, s.m);
    SplitIsBlocked(e, s.m);
    TopIsNoLeaf(e, s.m);
  }

  lemma TopIsNoLeaf(e: Env, m: Machine)
    requires Split(e, m)
    ensures !Cells()[2].leaf && |m.works| == |Cells()| == 3 && !Jammed(e, Cells()[2], m.works[2])
  {
    hide StateOf;
  }

  // ---- two witnesses for one frame ----

  function Slip(): Topology.Witness {
    Witness(PhaseSlip, 1, 2, 1, Ones())
  }

  function Deformation(): Topology.Witness {
    Witness(LocalDeformation, 1, 2, 1, Ones())
  }

  function Told(member: U64, x: Option<Topology.Witness>): Reading {
    Shown(A, member, Even(1, 0.0)).(attached := x)
  }

  /** The first reading bare, the second with a witness, and the first again, with another. */
  function TwiceTold(): seq<Op> {
    [OpPublish(Told(1, None), Start(1) + WIDTH), OpPublish(Told(2, Some(Slip())), Start(1) + WIDTH),
     OpPublish(Told(1, Some(Deformation())), Start(1) + WIDTH)]
  }

  function ToldQueue(first: Option<Topology.Witness>, n: nat): seq<Event> {
    [Observed(Told(1, first), n), Observed(Told(2, Some(Slip())), n + 1)]
  }

  lemma PublishesTold(e: Env, s: Sched)
    requires Ready(e, s, 0, None) && Forest(Cells()) && Shaped(Cells(), s.m)
    ensures var now, q := Start(1) + WIDTH, ToldQueue(None, s.next);
      var s1 := s.(q := q[..1], next := s.next + 1);
      var s2 := s.(q := q, next := s.next + 2);
      && Publish(s, Told(1, None), now) == Answer(s1, Ok)
      && Publish(s1, Told(2, Some(Slip())), now) == Answer(s2, Ok)
      && Publish(s2, Told(1, Some(Deformation())), now) == Answer(s2.(q := ToldQueue(Some(Deformation()), s.next)), Ok)
  {
    hide StateAt, Cells, FindCell, Ring.Find;
    FindsLeaf(0);
    StateClock(e, A, s.m.works[0].state, 0);
    var q := ToldQueue(None, s.next);
    assert q[..1] == [q[0]] && s.q + [q[0]] == q[..1] && q[..1] + [q[1]] == q;
    assert QueueVerdict(q[..1], Told(2, Some(Slip())), 1) == Append;
    assert QueueVerdict(q, Told(1, Some(Deformation())), 0) == Attach(0);
  }

  /** All three are told OK, and the queue holds two witnesses for one frame: the last one was attached. */
  lemma TwoWitnessesAreReachable(e: Env)
    requires Fair(e)
    ensures var s := Reached(e, LIMITS, SetUp() + TwiceTold());
      Good(e, s) && QueueInv(s) && !WitnessesAgree(s.q)
  {
    hide Good, Run, Ready, SetUp, Publish, Fair, Told, Shown, Forest, Shaped, QueueInv;
    var s0 := SetsUp(e);
    FreshIsGood(e, LIMITS);
    RunChains(e, Fresh(LIMITS), SetUp(), TwiceTold());
    ReadyShaped(e, s0, 0, None);
    PublishesTold(e, s0);
    var ops, q := TwiceTold(), ToldQueue(None, s0.next);
    RunStep(e, s0, ops);
    var s1 := s0.(q := q[..1], next := s0.next + 1);
    RunStep(e, s1, ops[1..]);
    var s2 := s0.(q := q, next := s0.next + 2);
    assert ops[1..][0] == OpPublish(Told(2, Some(Slip())), Start(1) + WIDTH);
    RunStep(e, s2, ops[1..][1..]);
    var s3 := s2.(q := ToldQueue(Some(Deformation()), s0.next));
    assert ops[1..][1..] == [OpPublish(Told(1, Some(Deformation())), Start(1) + WIDTH)];
    assert ops[1..][1..][1..] == [];
    RunDone(e, s3);
    ReachableQueue(e, LIMITS, SetUp() + TwiceTold());
    Disagree(s0.next);
  }

  lemma Disagree(n: nat)
    ensures !WitnessesAgree(ToldQueue(Some(Deformation()), n))
  {
    var q := ToldQueue(Some(Deformation()), n);
    assert !SameWitness(q[0], q[1]);
  }
}
