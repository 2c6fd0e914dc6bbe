/** The three cells of the example, step by step: readings taken, leaves and composite reduced, a queue drained. */
module ExampleRounds {
  import opened Bytes
  import opened Options
  import opened Angle
  import Ring
  import opened Frame
  import opened Topology
  import opened Cell
  import opened Scheduler
  import opened SchedulerLaws
  import opened SchedulerTrail
  import opened ExampleFrames

  // ---- the cells between two rounds ----

  predicate Resting(w: Work) {
    w.pending == [None, None] && |w.committed| == 2 && w.count == 0 && w.batch.None? && w.held.None?
  }

  predicate IdleLeaf(e: Env, id: Name, w: Work, t: nat) {
    Resting(w) && StateAt(e, id, w.state, t)
  }

  predicate IdleTop(e: Env, w: Work, t: nat, held: Option<Held>) {
    && w.pending == [] && w.committed == [] && w.count == 0 && w.batch.None? && w.held == held
    && StateAt(e, C, w.state, t)
  }

  /** All three cells last committed at clock t; what the composite holds. */
  predicate Idle(e: Env, m: Machine, t: nat, held: Option<Held>) {
    |m.works| == 3 && IdleLeaf(e, A, m.works[0], t) && IdleLeaf(e, B, m.works[1], t) && IdleTop(e, m.works[2], t, held)
  }

  lemma CellsAreForest(m: Machine)
    requires |m.works| == 3 && |m.works[0].pending| == |m.works[0].committed| == 2
    requires |m.works[1].pending| == |m.works[1].committed| == 2
    ensures Forest(Cells()) && Shaped(Cells(), m)
  {}

  lemma IdleShaped(e: Env, m: Machine, t: nat, held: Option<Held>)
    requires Idle(e, m, t, held)
    ensures Forest(Cells()) && Shaped(Cells(), m)
  {
    hide StateAt;
    CellsAreForest(m);
  }

  lemma FindsLeaf(i: nat)
    requires i < 2
    ensures FindCell(Cells(), LeafName(i)) == i && Cells()[i] == Leaf(LeafName(i), Some(2)) && |Cells()| == 3
    ensures Ring.Find(PAIR, 1) == 0 && Ring.Find(PAIR, 2) == 1
  {
    assert Cells()[0].id != B;
    assert Cells()[1..][0].id == B;
  }

  // ---- a leaf ----

  /** What member 1 or 2 of a leaf reports of a shot. */
  function Shown(cell: Name, member: U64, g: Shot): Reading
    requires ShotFits(g)
  {
    Reading(cell, member, if member == 1 then g.x else g.y, Start(g.t), g.t, 1, Start(g.t), Start(g.t) + g.width,
            Start(g.t) + g.width, Ones(), None)
  }

  function ShotBatch(g: Shot): Batch
    requires ShotFits(g)
  {
    Batch(g.t, Start(g.t), Start(g.t) + g.width, Start(g.t) + g.width)
  }

  predicate HalfLeaf(e: Env, id: Name, w: Work, before: nat, g: Shot)
    requires ShotFits(g)
  {
    && w.pending == [Some(Shown(id, 1, g)), None] && |w.committed| == 2 && w.count == 1
    && w.batch == Some(ShotBatch(g)) && w.held.None? && StateAt(e, id, w.state, before)
  }

  predicate FullLeaf(e: Env, id: Name, w: Work, before: nat, g: Shot)
    requires ShotFits(g)
  {
    && w.pending == [Some(Shown(id, 1, g)), Some(Shown(id, 2, g))] && |w.committed| == 2 && w.count == 2
    && w.batch == Some(ShotBatch(g)) && w.held.None? && StateAt(e, id, w.state, before)
  }

  /** What a leaf with both phases at x is reduced to. */
  function LeafMacro(e: Env, x: real): Macro {
    e.R([Wrap(x), Wrap(x)], PAIR)
  }

  /** The leaf committed this shot. */
  predicate Shows(e: Env, id: Name, w: Work, g: Shot) {
    && Resting(w) && w.state.Some? && StateOf(e, id, w.state.value, g.t, g.width)
    && w.state.value.macro == LeafMacro(e, g.x)
  }

  lemma LeafSeals(e: Env, i: nat, w: Work, before: nat, g: Shot)
    requires i < 2 && Fair(e) && ShotFits(g) && FullLeaf(e, LeafName(i), w, before, g)
    ensures var c := Cells()[i];
      && PairFrame(LeafObservations(c, w), g)
      && LeafFrame(e, c, w) == Seal(e.H, PairConfig(c.id, g), LeafObservations(c, w), Start(g.t) + g.width)
  {
    hide Seal, StateAt;
    var c := Cells()[i];
    assert FrameConfig(c, Start(g.t), Start(g.t) + g.width) == PairConfig(c.id, g);
  }

  lemma LeafCommits(e: Env, m: Machine, i: nat, before: nat, g: Shot) returns (v: Machine)
    requires Fair(e) && ShotFits(g) && g.x == g.y && i < 2 && |m.works| == 3 && before < g.t
    requires FullLeaf(e, LeafName(i), m.works[i], before, g) && Shaped(Cells(), m) && Forest(Cells())
    ensures |v.works| == 3 && Shaped(Cells(), v) && Shows(e, LeafName(i), v.works[i], g)
    ensures forall j :: 0 <= j < 3 && j != i ==> v.works[j] == m.works[j]
    ensures ReduceLeaf(e, Cells(), m, i) == Propagate(e, Cells(), v, i)
    ensures v.report.processed == m.report.processed
  {
    hide Seal, Reduce, StateOf, Propagate, TraceBytes, Fair, PairFrame, SnapshotValid, Wrap;
    var f := Cells();
    var c, w := f[i], m.works[i];
    var obs := LeafObservations(c, w);
    LeafSeals(e, i, w, before, g);
    PairSeals(e, c.id, obs, g);
    var s := LeafFrame(e, c, w).snapshot;
    PairPhases(obs, s, g);
    PairReduces(e, c.id, s, w.state, before, g);
    v := Commit(e, f, m, i, Reduce(e.H, e.R, c.id, s, HORIZON, w.state, NoWitness).state, NoWitness, g.t);
    assert v.works[i].pending == [None, None];
  }

  lemma PairPhases(obs: seq<Observation>, s: Snapshot, g: Shot)
    requires PairFrame(obs, g) && s.observations == [Wrapped(obs[0]), Wrapped(obs[1])]
    ensures Phases(s.observations) == [Wrap(g.x), Wrap(g.y)] && Members(s.observations) == PAIR
    ensures s.observations[0].member == 1 && s.observations[0].succ == 2 && s.observations[0].phase == Wrap(g.x)
    ensures s.observations[1].member == 2 && s.observations[1].succ == 1 && s.observations[1].phase == Wrap(g.y)
  {
    hide Wrap;
  }

  lemma StateClock(e: Env, id: Name, p: Option<State>, t: nat)
    requires StateAt(e, id, p, t)
    ensures if t == 0 then p.None? else p.Some? && p.value.clock == t
  {}

  lemma TakesFirst(e: Env, m: Machine, i: nat, before: nat, g: Shot) returns (v: Machine)
    requires ShotFits(g) && i < 2 && |m.works| == 3 && before < g.t && IdleLeaf(e, LeafName(i), m.works[i], before)
    requires Shaped(Cells(), m) && Forest(Cells())
    ensures ApplyReading(e, Cells(), m, Shown(LeafName(i), 1, g)) == Applied(v, Ok, true)
    ensures Shaped(Cells(), v) && |v.works| == 3 && HalfLeaf(e, LeafName(i), v.works[i], before, g)
    ensures v.report == m.report && forall j :: 0 <= j < 3 && j != i ==> v.works[j] == m.works[j]
  {
    hide StateAt, ReduceLeaf, Cells, LeafName, Ring.Find, FindCell;
    FindsLeaf(i);
    StateClock(e, LeafName(i), m.works[i].state, before);
    var r := Shown(LeafName(i), 1, g);
    v := ApplyReading(e, Cells(), m, r).m;
    assert v.works[i].pending == [Some(r), None];
  }

  function Filled(m: Machine, i: nat, r: Reading): Machine
    requires i < |m.works| && m.works[i].pending != []
  {
    With(m, i, m.works[i].(pending := [m.works[i].pending[0], Some(r)], count := 2))
  }

  /** The second reading fills the batch, which is reduced. */
  lemma AppliesSecond(e: Env, m: Machine, i: nat, before: nat, g: Shot)
    requires ShotFits(g) && i < 2 && |m.works| == 3 && before < g.t && HalfLeaf(e, LeafName(i), m.works[i], before, g)
    requires Shaped(Cells(), m) && Forest(Cells())
    ensures var r := Shown(LeafName(i), 2, g);
      var v := Filled(m, i, r);
      && Shaped(Cells(), v)
      && var s := ReduceLeaf(e, Cells(), v, i);
         ApplyReading(e, Cells(), m, r) == Applied(s.m, if s.o == Ok || s.o == HoldIncomplete then Ok else s.o, true)
  {
    hide StateAt, ReduceLeaf, Cells, LeafName, Ring.Find, FindCell;
    FindsLeaf(i);
    StateClock(e, LeafName(i), m.works[i].state, before);
    var r := Shown(LeafName(i), 2, g);
    var w := m.works[i];
    assert With(m, i, w.(batch := Some(ReadingBatch(r)))) == m;
    assert w.pending[1 := Some(r)] == [w.pending[0], Some(r)];
  }

  lemma FillsSecond(e: Env, m: Machine, i: nat, before: nat, g: Shot) returns (v: Machine)
    requires ShotFits(g) && i < 2 && |m.works| == 3 && before < g.t && HalfLeaf(e, LeafName(i), m.works[i], before, g)
    requires Shaped(Cells(), m) && Forest(Cells())
    ensures |v.works| == 3 && Shaped(Cells(), v) && FullLeaf(e, LeafName(i), v.works[i], before, g)
    ensures v.report == m.report && forall j :: 0 <= j < 3 && j != i ==> v.works[j] == m.works[j]
    ensures var s := ReduceLeaf(e, Cells(), v, i);
      ApplyReading(e, Cells(), m, Shown(LeafName(i), 2, g))
      == Applied(s.m, if s.o == Ok || s.o == HoldIncomplete then Ok else s.o, true)
  {
    hide StateAt, ReduceLeaf, Cells, LeafName, ApplyReading, Shaped, Forest, Shown;
    AppliesSecond(e, m, i, before, g);
    v := Filled(m, i, Shown(LeafName(i), 2, g));
  }

  lemma TakesSecond(e: Env, m: Machine, i: nat, before: nat, g: Shot) returns (v: Machine)
    requires Fair(e) && ShotFits(g) && g.x == g.y && i < 2 && |m.works| == 3 && before < g.t
    requires HalfLeaf(e, LeafName(i), m.works[i], before, g) && Shaped(Cells(), m) && Forest(Cells())
    ensures |v.works| == 3 && Shaped(Cells(), v) && Shows(e, LeafName(i), v.works[i], g)
    ensures v.report.processed == m.report.processed && forall j :: 0 <= j < 3 && j != i ==> v.works[j] == m.works[j]
    ensures var s := Propagate(e, Cells(), v, i);
      ApplyReading(e, Cells(), m, Shown(LeafName(i), 2, g))
      == Applied(s.m, if s.o == Ok || s.o == HoldIncomplete then Ok else s.o, true)
  {
    hide Fair, HalfLeaf, FullLeaf, Shows, ReduceLeaf, Propagate, ApplyReading, Shown, Forest, Shaped;
    var full := FillsSecond(e, m, i, before, g);
    v := LeafCommits(e, full, i, before, g);
  }

  // ---- the composite ----

  /** The children are not at one clock later than the composite's. */
  predicate TopStays(m: Machine)
    requires |m.works| == 3
  {
    var a, b, c := m.works[0].state, m.works[1].state, m.works[2].state;
    a.None? || b.None? || a.value.clock != b.value.clock || (c.Some? && a.value.clock <= c.value.clock)
  }

  lemma TopWaits(e: Env, m: Machine)
    requires |m.works| == 3 && Shaped(Cells(), m) && Forest(Cells()) && TopStays(m)
    ensures ReduceComposite(e, Cells(), m, 2).m == m
    ensures ReduceComposite(e, Cells(), m, 2).o in {HoldIncomplete, HoldDuplicate}
  {
    hide Seal, Reduce;
    var c := Cells()[2];
    assert c.children == [0, 1];
    assert ChildState(c, m, 0) == m.works[0].state && ChildState(c, m, 1) == m.works[1].state;
  }

  lemma ClimbWaits(e: Env, m: Machine, i: nat)
    requires i < 2 && |m.works| == 3 && Shaped(Cells(), m) && Forest(Cells()) && TopStays(m)
    ensures Propagate(e, Cells(), m, i) == Step(m, Ok)
  {
    hide ReduceComposite, TopStays;
    TopWaits(e, m);
  }

  /** Both leaves committed at clock t, the composite before. */
  predicate TopMayGo(e: Env, m: Machine, before: nat, t: nat) {
    && |m.works| == 3 && before < t < 100 && StateAt(e, C, m.works[2].state, before)
    && StateAt(e, A, m.works[0].state, t) && StateAt(e, B, m.works[1].state, t)
  }

  /** What the composite is shown by its leaves. */
  function TopShot(m: Machine, t: nat): Shot
    requires |m.works| == 3 && m.works[0].state.Some? && m.works[1].state.Some?
  {
    Shot(t, WIDTH, m.works[0].state.value.macro.meanPhase, m.works[1].state.value.macro.meanPhase)
  }

  lemma TopSpan(e: Env, m: Machine, before: nat, t: nat)
    requires TopMayGo(e, m, before, t)
    ensures AllReady(Top(), m, 2) && ChildSpan(Top(), m, 2) == Span(Start(t), Start(t) + WIDTH, HORIZON)
    ensures NearerHorizon(Top(), m) == HORIZON && OneChildClock(Top(), m)
    ensures ChildState(Top(), m, 0).value.clock == t
    ensures PairFrame(ChildObservations(Top(), m), TopShot(m, t))
  {
    hide StateValid;
    assert Top().children == [0, 1];
    assert ChildState(Top(), m, 0) == m.works[0].state && ChildState(Top(), m, 1) == m.works[1].state;
    assert ChildSpan(Top(), m, 1) == Span(Start(t), Start(t) + WIDTH, HORIZON);
  }

  lemma TopSeals(e: Env, m: Machine, before: nat, t: nat)
    requires Fair(e) && TopMayGo(e, m, before, t) && Shaped(Cells(), m) && Forest(Cells())
    ensures CompositeTries(e, Cells(), m, 2)
    ensures AllReady(Top(), m, 2) && PairFrame(ChildObservations(Top(), m), TopShot(m, t))
    ensures CompositeFrame(e, Top(), m)
         == Seal(e.H, PairConfig(C, TopShot(m, t)), ChildObservations(Top(), m), Start(t) + WIDTH)
  {
    hide Seal, StateValid, PairFrame, SnapshotValid, Fair;
    TopSpan(e, m, before, t);
    assert Cells()[2] == Top();
    assert FrameConfig(Top(), Start(t), Start(t) + WIDTH) == PairConfig(C, TopShot(m, t));
    PairSeals(e, C, ChildObservations(Top(), m), TopShot(m, t));
  }

  /** Children alike at one later clock: the composite follows, whatever witness it holds for another. */
  lemma TopCommits(e: Env, m: Machine, before: nat, t: nat) returns (v: Machine)
    requires Fair(e) && TopMayGo(e, m, before, t) && Shaped(Cells(), m) && Forest(Cells())
    requires TopShot(m, t).x == TopShot(m, t).y && IdleTop(e, m.works[2], before, m.works[2].held)
    requires m.works[2].held.Some? ==> m.works[2].held.value.target != t
    ensures ReduceComposite(e, Cells(), m, 2) == Step(v, Ok)
    ensures |v.works| == 3 && v.works[0] == m.works[0] && v.works[1] == m.works[1]
    ensures IdleTop(e, v.works[2], t, m.works[2].held) && v.report.processed == m.report.processed
  {
    hide Seal, Reduce, SnapshotValid, TraceBytes, Fair, PairFrame, StateOf, Wrap, PairConfig;
    var f := Cells();
    var c, w, g := f[2], m.works[2], TopShot(m, t);
    TopSpan(e, m, before, t);
    TopSeals(e, m, before, t);
    var obs := ChildObservations(c, m);
    PairSeals(e, C, obs, g);
    var s := CompositeFrame(e, c, m).snapshot;
    PairPhases(obs, s, g);
    PairReduces(e, C, s, w.state, before, g);
    v := Commit(e, f, m, 2, Reduce(e.H, e.R, C, s, HORIZON, w.state, NoWitness).state, NoWitness, t);
  }

  // ---- draining ----

  lemma {:induction false} MinimumFirst(q: seq<Event>)
    requires q != [] && forall k :: 0 < k < |q| ==> !EventBefore(q[k], q[0])
    ensures MinimumEvent(q) == 0
    decreases q
  {
    hide EventBefore;
    if |q| > 1 {
      MinimumFirst(q[..|q| - 1]);
    }
  }

  function CountedOk(m: Machine): Machine {
    m.(report := Counted(m.report, Ok))
  }

  /** One event applied and counted. */
  lemma DrainsOne(e: Env, m: Machine, q: seq<Event>, v: Machine, maximum: nat)
    requires Forest(Cells()) && Shaped(Cells(), m) && q != [] && MinimumEvent(q) == 0 && m.report.processed < maximum
    requires ApplyEvent(e, Cells(), m, q[0]) == Applied(v, Ok, true)
    ensures Shaped(Cells(), v)
    ensures var u := CountedOk(v);
      && Shaped(Cells(), u) && u.report.processed == v.report.processed + 1
      && DrainQueue(e, Cells(), m, q, maximum) == DrainQueue(e, Cells(), u, q[1..], maximum)
  {
    hide ApplyEvent, Cells, Forest;
    assert Without(q, 0) == q[1..];
  }

  lemma QueueDone(e: Env, v: Machine)
    requires Forest(Cells()) && Shaped(Cells(), v)
    ensures DrainQueue(e, Cells(), v, [], 10) == Drained(v, [], Ok)
  {}

  /** An event applied with an error ends the drain. */
  lemma DrainsBadly(e: Env, m: Machine, q: seq<Event>, v: Machine, o: Outcome)
    requires Forest(Cells()) && Shaped(Cells(), m) && |q| == 1 && m.report.processed < 10
    requires ApplyEvent(e, Cells(), m, q[0]) == Applied(v, o, true) && IsError(o)
    ensures Shaped(Cells(), v)
    ensures DrainQueue(e, Cells(), m, q, 10) == Drained(v.(report := Counted(v.report, o)), [], o)
  {
    hide ApplyEvent, Cells, Forest;
    assert Without(q, 0) == [];
  }

  lemma RetryOrder()
    ensures NextCell(Cells(), None, 3) == 0
    ensures NextCell(Cells(), Some(A), 3) == 1
    ensures NextCell(Cells(), Some(B), 3) == 2
  {
    var f := Cells();
    assert !NameBefore(A, A) && !NameBefore(B, A) && !NameBefore(C, A) && !NameBefore(B, B) && !NameBefore(C, B);
    assert NameBefore(A, B) && NameBefore(A, C) && NameBefore(B, C);
    assert NextCell(f, None, 1) == 0 && NextCell(f, None, 2) == 0;
    assert NextCell(f, Some(A), 1) == 3 && NextCell(f, Some(A), 2) == 1;
    assert NextCell(f, Some(B), 1) == 3 && NextCell(f, Some(B), 2) == 3;
  }

  /** With no batch begun and the composite waiting a round of retries changes nothing. */
  lemma RetryQuiet(e: Env, m: Machine)
    requires |m.works| == 3 && Resting(m.works[0]) && Resting(m.works[1]) && TopStays(m)
    requires Forest(Cells()) && Shaped(Cells(), m)
    ensures Retry(e, Cells(), m, 0, None) == Step(m, Ok)
  {
    hide ReduceComposite, ReduceLeaf, NextCell, TopStays;
    var f := Cells();
    RetryOrder();
    TopWaits(e, m);
    assert f[0].id == A && f[1].id == B && f[2].id == C;
    assert Retry(e, f, m, 3, Some(C)) == Step(m, Ok);
    assert Retry(e, f, m, 2, Some(B)) == Step(m, Ok);
    assert Retry(e, f, m, 1, Some(A)) == Step(m, Ok);
  }

  lemma IdleIsQuiet(e: Env, m: Machine, t: nat, held: Option<Held>)
    requires Idle(e, m, t, held)
    ensures |m.works| == 3 && Resting(m.works[0]) && Resting(m.works[1]) && TopStays(m)
  {
    hide StateValid;
  }

  // ---- both readings of one leaf ----

  function PairQueue(i: nat, g: Shot, n: nat): seq<Event>
    requires ShotFits(g)
  {
    [Observed(Shown(LeafName(i), 1, g), n), Observed(Shown(LeafName(i), 2, g), n + 1)]
  }

  lemma PairOrder(i: nat, g: Shot, n: nat)
    requires ShotFits(g)
    ensures var q := PairQueue(i, g, n);
      && MinimumEvent(q) == 0 && |q| == 2 && q[1..] == [q[1]]
      && q[0] == Observed(Shown(LeafName(i), 1, g), n) && q[1] == Observed(Shown(LeafName(i), 2, g), n + 1)
  {
    MinimumFirst(PairQueue(i, g, n));
  }

  // ---- both readings of both leaves ----

  /** Phases at x in the first leaf and at y in the second, in a full window. */
  function Even(t: nat, x: real): Shot {
    Shot(t, WIDTH, x, x)
  }

  function Readings(t: nat, x: real, y: real, n: nat): seq<Event>
    requires 0 < t < 100
  {
    [Observed(Shown(A, 1, Even(t, x)), n), Observed(Shown(A, 2, Even(t, x)), n + 1),
     Observed(Shown(B, 1, Even(t, y)), n + 2), Observed(Shown(B, 2, Even(t, y)), n + 3)]
  }

  lemma ReadingsInOrder(t: nat, x: real, y: real, n: nat, k: nat)
    requires 0 < t < 100 && k < 4
    ensures MinimumEvent(Readings(t, x, y, n)[k..]) == 0
  {
    var q := Readings(t, x, y, n);
    forall i, j | 0 <= i < j < 4 ensures !EventBefore(q[j], q[i]) {
      assert !NameBefore(B, A);
    }
    MinimumFirst(q[k..]);
  }

  lemma QueueShape(t: nat, x: real, y: real, n: nat)
    requires 0 < t < 100
    ensures var q := Readings(t, x, y, n);
      && |q| == 4 && q[0..] == q && q[1..][1..] == q[2..] && q[2..][1..] == q[3..] && |q[3..]| == 1 && q[3..][1..] == []
      && q[0] == Observed(Shown(A, 1, Even(t, x)), n) && q[1..][0] == Observed(Shown(A, 2, Even(t, x)), n + 1)
      && q[2..][0] == Observed(Shown(B, 1, Even(t, y)), n + 2) && q[3..][0] == Observed(Shown(B, 2, Even(t, y)), n + 3)
  {}

  /** Three readings are through, and u is left with the fourth; with it both leaves have committed, which is v. */
  predicate ThreeThrough(e: Env, m: Machine, before: nat, t: nat, x: real, y: real, held: Option<Held>, n: nat,
                         u: Machine, v: Machine)
    requires 0 < t < 100 && Forest(Cells()) && Shaped(Cells(), m)
  {
    var q := Readings(t, x, y, n);
    && Shaped(Cells(), u) && u.report.processed == 3
    && DrainQueue(e, Cells(), m, q, 10) == DrainQueue(e, Cells(), u, q[3..], 10)
    && |v.works| == 3 && Shaped(Cells(), v) && v.report.processed == 3
    && Shows(e, A, v.works[0], Even(t, x)) && Shows(e, B, v.works[1], Even(t, y))
    && IdleTop(e, v.works[2], before, held)
    && var s := Propagate(e, Cells(), v, 1);
    ApplyEvent(e, Cells(), u, q[3]) == Applied(s.m, if s.o == Ok || s.o == HoldIncomplete then Ok else s.o, true)
  }

  /** Three readings go in quietly; the fourth lets the second leaf commit, which tries the composite. */
  lemma DrainsThree(e: Env, m: Machine, before: nat, t: nat, x: real, y: real, held: Option<Held>, n: nat)
    returns (u: Machine, v: Machine)
    requires Fair(e) && before < t < 100 && Idle(e, m, before, held) && m.report.processed == 0
    requires Forest(Cells()) && Shaped(Cells(), m)
    ensures ThreeThrough(e, m, before, t, x, y, held, n, u, v)
  {
    hide ApplyReading, DrainQueue, Shaped, Forest, StateAt, StateOf, Propagate, Readings, MinimumEvent, Fair, Shown,
      HalfLeaf, LeafMacro, TopStays;
    var q := Readings(t, x, y, n);
    var a, b := Even(t, x), Even(t, y);
    QueueShape(t, x, y, n);
    ReadingsInOrder(t, x, y, n, 0);
    ReadingsInOrder(t, x, y, n, 1);
    ReadingsInOrder(t, x, y, n, 2);
    var m1 := TakesFirst(e, m, 0, before, a);
    DrainsOne(e, m, q, m1, 10);
    var u1 := CountedOk(m1);
    var m2 := TakesSecond(e, u1, 0, before, a);
    FirstWaits(e, m2, before, a);
    ClimbWaits(e, m2, 0);
    DrainsOne(e, u1, q[1..], m2, 10);
    var u2 := CountedOk(m2);
    var m3 := TakesFirst(e, u2, 1, before, b);
    DrainsOne(e, u2, q[2..], m3, 10);
    u := CountedOk(m3);
    v := TakesSecond(e, u, 1, before, b);
  }

  lemma FirstWaits(e: Env, m: Machine, before: nat, g: Shot)
    requires |m.works| == 3 && before < g.t && Shows(e, A, m.works[0], g) && IdleLeaf(e, B, m.works[1], before)
    ensures TopStays(m)
  {
    hide StateValid;
  }

  /** The four readings of a later clock take all three cells to it. */
  lemma DrainsFour(e: Env, m: Machine, before: nat, t: nat, held: Option<Held>, n: nat) returns (v: Machine)
    requires Fair(e) && before < t < 100 && Idle(e, m, before, held) && m.report.processed == 0
    requires held.Some? ==> held.value.target != t
    requires Forest(Cells()) && Shaped(Cells(), m)
    ensures DrainQueue(e, Cells(), m, Readings(t, 0.0, 0.0, n), 10) == Drained(v, [], Ok)
    ensures Idle(e, v, t, held)
  {
    hide ApplyEvent, DrainQueue, Shaped, Forest, ReduceComposite, Readings, MinimumEvent, Counted, Fair, StateOf;
    QueueShape(t, 0.0, 0.0, n);
    ReadingsInOrder(t, 0.0, 0.0, n, 3);
    var u, x := DrainsThree(e, m, before, t, 0.0, 0.0, held, n);
    var y := TopCommits(e, x, before, t);
    var q := Readings(t, 0.0, 0.0, n)[3..];
    LinkToTop();
    DrainsOne(e, u, q, y, 10);
    v := CountedOk(y);
    QueueDone(e, v);
  }

  lemma LinkToTop()
    ensures Cells()[1].parent == Some(2)
  {}
}
