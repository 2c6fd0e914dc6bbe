/**
 * The smallest scheduler with a composite: two leaves of two members each under one cell. What its frames are
 * sealed and reduced to, for every digest that never gives zero and every phase reduction in its domain.
 */
module ExampleFrames {
  import opened Bytes
  import opened Options
  import opened Angle
  import Ring
  import opened Frame
  import opened Topology
  import opened Cell
  import opened Scheduler
  import opened SchedulerLaws

  /** The digest never gives zero, and the reduction stays in its domain. */
  ghost predicate Fair(e: Env) {
    && (forall b: seq<Byte> :: e.H(b) != ZeroDigest())
    && (forall phases: seq<real>, ids: seq<nat> :: MacroValid(e.R(phases, ids)))
  }

  const A: Name := [1]
  const B: Name := [2]
  const C: Name := [3]
  const PAIR: seq<U64> := [1, 2]
  const SWAPPED: seq<U64> := [2, 1]
  const HORIZON: U64 := 1000
  const STALE: U64 := 100

  function Leaf(id: Name, parent: Option<nat>): Spec {
    Spec(id, true, PAIR, SWAPPED, [], parent, 0, 1, 1, 1, STALE, HORIZON)
  }

  function Top(): Spec {
    Spec(C, false, PAIR, SWAPPED, [0, 1], None, 1, 1, 1, 1, STALE, HORIZON)
  }

  function Cells(): seq<Spec> {
    [Leaf(A, Some(2)), Leaf(B, Some(2)), Top()]
  }

  function LeafName(i: nat): Name {
    if i == 0 then A else B
  }

  function Ones(): (d: Digest)
    ensures d != ZeroDigest()
  {
    var d: Digest := seq(32, _ => 1);
    assert d[0] != ZeroDigest()[0];
    d
  }

  // ---- one frame of two members ----

  /** What a leaf is shown at one clock: how wide the window is, and the phase of each member. */
  datatype Shot = Shot(t: nat, width: nat, x: real, y: real)

  predicate ShotFits(g: Shot) {
    0 < g.t < 100 && g.width <= 5
  }

  const WIDTH: nat := 5

  function Start(t: nat): nat {
    10 * t
  }

  predicate PairFrame(obs: seq<Observation>, g: Shot) {
    && |obs| == 2 && obs[0].member == 1 && obs[0].succ == 2 && obs[1].member == 2 && obs[1].succ == 1
    && obs[0].phase == g.x && obs[1].phase == g.y
    && forall k :: 0 <= k < 2 ==>
         && Start(g.t) <= obs[k].observedAt <= Start(g.t) + g.width && obs[k].clock == g.t
         && obs[k].source != ZeroDigest()
  }

  function PairConfig(id: Name, g: Shot): Config
    requires ShotFits(g)
  {
    Config(id, 1, 1, 1, Start(g.t), Start(g.t) + g.width, STALE, 2, 2)
  }

  lemma PairIsRing()
    ensures Ring.IsRing(PAIR, SWAPPED) && Ring.Tour(PAIR, SWAPPED, 0) == [0, 1]
  {
    assert Ring.Cycle(PAIR, SWAPPED, [0, 1]);
    Ring.CycleIsTour(PAIR, SWAPPED, [0, 1]);
  }

  /** The pair seals, in the order of its members. */
  lemma PairSeals(e: Env, id: Name, obs: seq<Observation>, g: Shot)
    requires Fair(e) && NameValid(id) && ShotFits(g) && PairFrame(obs, g)
    ensures var r := Seal(e.H, PairConfig(id, g), obs, Start(g.t) + g.width);
      && r.Sealed? && SnapshotValid(r.snapshot)
      && r.snapshot.frameVersion == r.snapshot.reducerVersion == r.snapshot.topologyVersion == 1
      && r.snapshot.windowStart == Start(g.t) && r.snapshot.windowEnd == Start(g.t) + g.width
      && r.snapshot.clock == g.t && r.snapshot.digest != ZeroDigest()
      && r.snapshot.observations == [Wrapped(obs[0]), Wrapped(obs[1])]
  {
    hide Ring.IsRing, Ring.GoesRound, Ring.Tour, FrameHeader, AllObservationBytes, Wrap;
    var c, now := PairConfig(id, g), Start(g.t) + g.width;
    PairIsRing();
    assert Members(obs) == PAIR && Succs(obs) == SWAPPED;
    assert Screened(c, obs) && FreshEnough(c, obs, now);
    SealDecidesRing(e.H, c, obs, now);
    SealYieldsRing(e.H, c, obs, now);
    SealIs(e.H, c, obs, now);
    assert Ring.IsLeast(Members(obs), 0);
    var p := SealedTour(e.H, c, obs, now, 0);
    assert Ordered(obs, p) == [Wrapped(obs[0]), Wrapped(obs[1])];
  }

  function PairLinks(): seq<Byte> {
    LinkBytes(1, 2) + LinkBytes(2, 1)
  }

  function PairBoundary(H: Hash): Digest {
    H(BoundaryHeader(1, 2) + PairLinks())
  }

  lemma PairRingBytes(obs: seq<Observation>)
    requires |obs| == 2 && obs[0].member == 1 && obs[0].succ == 2 && obs[1].member == 2 && obs[1].succ == 1
    ensures RingBytes(obs) == PairLinks()
  {
    hide LinkBytes;
    assert obs[..1][..0] == [];
    assert RingBytes(obs[..1]) == LinkBytes(1, 2);
  }

  lemma {:induction false} AlikeIsLevel(obs: seq<Observation>, n: nat)
    requires n <= |obs| && forall k :: 0 <= k < |obs| ==> obs[k].phase == obs[0].phase
    ensures TotalDelta(obs, n) == 0.0
    decreases n
  {
    hide Wrap;
    WrapUnique(0.0, 0.0, 0);
    if n > 0 {
      AlikeIsLevel(obs, n - 1);
    }
  }

  /** With both phases alike the pair is classified, and does not wind. */
  lemma AlikeClassifies(e: Env, s: Snapshot)
    requires Fair(e) && SnapshotValid(s) && s.digest != ZeroDigest() && |s.observations| == 2 && s.topologyVersion == 1
    requires s.observations[0].member == 1 && s.observations[0].succ == 2
    requires s.observations[1].member == 2 && s.observations[1].succ == 1
    requires s.observations[0].phase == s.observations[1].phase
    ensures var r := Classify(e.H, s);
      && r.Classified? && r.state.winding == 0 && r.state.boundary == PairBoundary(e.H)
      && r.state.topologyVersion == 1 && r.state.clock == s.clock && r.state.snapshotDigest == s.digest
  {
    hide Antipodal, Wrap, BoundaryHeader, SectorBytes, Ring.Distinct, PairLinks, RingBytes;
    AlikeIsLevel(s.observations, 2);
    AlikeNotAntipodal(s.observations);
    ClassifySealed(e.H, s);
    ClassifiedBoundary(e.H, s);
    PairRingBytes(s.observations);
    RoundInteger(0);
    SectorWinding(e.H, s);
  }

  /** What a cell commits at one clock. */
  predicate StateOf(e: Env, id: Name, q: State, t: nat, width: nat) {
    && q.id == id && q.generation <= t && q.clock == t && q.horizon == HORIZON
    && q.frameVersion == q.reducerVersion == q.topologyVersion == 1
    && q.windowStart == Start(t) && q.windowEnd == Start(t) + width
    && q.winding == 0 && q.boundary == PairBoundary(e.H) && q.digest != ZeroDigest()
    && (StateValid(e.H, q) <==> width > 0)
  }

  /** The state of a cell that last committed at clock t, in a full window; at 0 there is none. */
  predicate StateAt(e: Env, id: Name, p: Option<State>, t: nat) {
    if t == 0 then p.None? else p.Some? && StateOf(e, id, p.value, t, WIDTH)
  }

  /** A pair with phases alike follows a state of an earlier clock, and yields the next. */
  lemma PairReduces(e: Env, id: Name, s: Snapshot, p: Option<State>, before: nat, g: Shot)
    requires Fair(e) && NameValid(id) && ShotFits(g) && before < g.t && StateAt(e, id, p, before)
    requires SnapshotValid(s) && s.digest != ZeroDigest() && |s.observations| == 2 && s.clock == g.t
    requires s.frameVersion == s.reducerVersion == s.topologyVersion == 1
    requires s.windowStart == Start(g.t) && s.windowEnd == Start(g.t) + g.width
    requires s.observations[0].member == 1 && s.observations[0].succ == 2
    requires s.observations[1].member == 2 && s.observations[1].succ == 1
    requires s.observations[0].phase == s.observations[1].phase
    ensures var r := Reduce(e.H, e.R, id, s, HORIZON, p, NoWitness);
      && r.Reduced? && StateOf(e, id, r.state, g.t, g.width)
      && r.state.macro == e.R(Phases(s.observations), Members(s.observations))
  {
    hide Classify, StateBytes, HiddenBytes, StateValid, SnapshotValid, MacroValid, PairBoundary;
    AlikeClassifies(e, s);
    var r := Reduce(e.H, e.R, id, s, HORIZON, p, NoWitness);
    assert r.Reduced?;
    assert DigestsPresent(r.state) by { FreshDigests(e, s, r.state, id, p); }
    ReducedStateValid(e.H, e.R, id, s, HORIZON, p, NoWitness);
  }

  /** The digests of a fresh state are digests of something. */
  lemma FreshDigests(e: Env, s: Snapshot, q: State, id: Name, p: Option<State>)
    requires Fair(e) && Reduce(e.H, e.R, id, s, HORIZON, p, NoWitness) == Reduced(q) && s.digest != ZeroDigest()
    ensures DigestsPresent(q)
  {
    hide EdgeCheck, WholeTurns, StateBytes, HiddenBytes, BoundaryHeader, RingBytes, SectorBytes, FollowsCheck,
      TotalDelta, GreatestDelta, Winding, MacroValid;
    var m := e.R(Phases(s.observations), Members(s.observations));
    NewStateDigests(e.H, m, id, s, Classify(e.H, s).state, HORIZON, p, NoWitness);
  }
}
