/**
 * A logical cell: each sealed frame is reduced to one state, and each state must be a legal successor
 * of the one before it.
 */
module Cell {
  import opened Bytes
  import opened Options
  import opened Angle
  import opened Ring
  import opened Frame
  import opened Topology

  /** What the phase reduction (trigonometry, not modelled) yields for phases and member identifiers. */
  datatype Macro = Macro(amplitude: real, meanPhase: real, dispersion: real)

  type Reducer = (seq<real>, seq<nat>) -> Macro

  datatype State = State(
    id: Name, generation: U64, frameVersion: U64, reducerVersion: U64, topologyVersion: U64,
    clock: U64, horizon: U64, windowStart: U64, windowEnd: U64, freshness: U64,
    macro: Macro, winding: int, count: nat,
    kind: Kind, eventClock: U64, eventFrom: U64, eventTo: U64,
    snapshotDigest: Digest, boundary: Digest, sector: Digest, evidence: Digest,
    hidden: Digest, previous: Digest, digest: Digest)

  datatype Failure = Argument | FrameMismatch | Unclassifiable | Transition | Clock

  datatype Reduced = Reduced(state: State) | Failed(why: Failure)

  function KindCode(k: Kind): nat {
    match k
    case NoEvent => 0
    case LocalDeformation => 1
    case PhaseSlip => 2
    case FrameChange => 3
  }

  function Quantised(x: real): seq<Byte> {
    Signed64(Round(x * 1000000000000.0))
  }

  function HiddenBytes(s: State): seq<Byte> {
    Ascii("CDC-RFTC-HIDDEN-CLASS-V1") + [0] + s.snapshotDigest + BE(KindCode(s.kind), 8)
    + BE(s.eventClock, 8) + BE(s.eventFrom, 8) + BE(s.eventTo, 8) + s.evidence
  }

  /** Everything the state digest covers: every field but the digest itself. */
  function StateBytes(s: State): seq<Byte> {
    Ascii("CDC-RFTC-CELL-V1") + [0] + BE(|s.id|, 8) + s.id
    + (VersionBytes(s) + MacroBytes(s) + EventBytes(s) + CoveredDigests(s))
  }

  function VersionBytes(s: State): seq<Byte> {
    BE(s.generation, 8) + BE(s.frameVersion, 8) + BE(s.reducerVersion, 8) + BE(s.topologyVersion, 8)
    + BE(s.clock, 8) + BE(s.horizon, 8) + BE(s.windowStart, 8) + BE(s.windowEnd, 8) + BE(s.freshness, 8)
  }

  function MacroBytes(s: State): seq<Byte> {
    Quantised(s.macro.amplitude) + Quantised(s.macro.meanPhase) + Quantised(s.macro.dispersion)
    + Signed64(s.winding) + BE(s.count, 8)
  }

  function EventBytes(s: State): seq<Byte> {
    BE(KindCode(s.kind), 8) + BE(s.eventClock, 8) + BE(s.eventFrom, 8) + BE(s.eventTo, 8)
  }

  function CoveredDigests(s: State): seq<Byte> {
    s.snapshotDigest + s.boundary + s.sector + s.evidence + s.hidden + s.previous
  }

  predicate MacroValid(m: Macro) {
    && 0.0 <= m.amplitude <= 1.0 + 0.000000000001
    && -0.000000000001 <= m.dispersion <= 1.0 + 0.000000000001
    && Abs(m.amplitude + m.dispersion - 1.0) <= 0.000000001
    && -PI - 0.000000000001 <= m.meanPhase <= PI + 0.000000000001
  }

  predicate EventValid(s: State) {
    if s.kind == NoEvent then
      s.eventClock == 0 && s.eventFrom == 0 && s.eventTo == 0 && s.evidence == ZeroDigest()
    else s.eventClock != 0 && s.evidence != ZeroDigest()
  }

  predicate DigestsPresent(s: State) {
    && s.snapshotDigest != ZeroDigest() && s.boundary != ZeroDigest() && s.sector != ZeroDigest()
    && s.hidden != ZeroDigest() && s.digest != ZeroDigest()
  }

  /** The canonical domain of states, digests recomputed. */
  predicate StateValid(H: Hash, s: State) {
    && NameValid(s.id)
    && s.generation != 0 && s.frameVersion != 0 && s.reducerVersion != 0 && s.topologyVersion != 0
    && s.clock != 0 && s.horizon >= s.clock && s.windowEnd > s.windowStart && s.count >= 2
    && MacroValid(s.macro) && DigestsPresent(s) && EventValid(s)
    && (s.generation == 1 ==> s.previous == ZeroDigest())
    && (s.generation > 1 ==> s.previous != ZeroDigest())
    && s.hidden == H(HiddenBytes(s)) && s.digest == H(StateBytes(s))
  }

  predicate FrameChangeValid(p: State, s: Snapshot, evidence: Evidence) {
    && s.frameVersion == Add64(p.frameVersion, 1)
    && s.reducerVersion >= p.reducerVersion && s.topologyVersion >= p.topologyVersion
    && evidence.Given? && evidence.w.kind == FrameChange && evidence.w.evidence != ZeroDigest()
    && p.clock < evidence.w.clock <= s.clock
  }

  /** The predecessor as the transition check sees it. */
  function PriorSector(p: State): Sector {
    Sector(p.frameVersion, p.topologyVersion, p.clock, p.winding, 0.0, ZeroDigest(), p.boundary, p.sector)
  }

  /** Whether this snapshot, classified as t, may follow p. */
  function FollowsCheck(H: Hash, id: Name, s: Snapshot, t: Sector, horizon: U64, p: State,
      evidence: Evidence): Option<Failure> {
    if !StateValid(H, p) || p.id != id || p.clock >= s.clock || horizon < p.horizon
       || s.windowStart < p.windowStart || s.windowEnd <= p.windowEnd then Some(Clock)
    else if s.frameVersion == p.frameVersion then
      if s.reducerVersion != p.reducerVersion || s.topologyVersion != p.topologyVersion then Some(FrameMismatch)
      else if VerifyTransition(PriorSector(p), t, s, evidence) != Accept then Some(Transition)
      else None
    else if !FrameChangeValid(p, s, evidence) then Some(FrameMismatch)
    else None
  }

  predicate Unwitnessed(evidence: Evidence) {
    evidence == NoWitness || evidence.w.kind == NoEvent
  }

  const MAX_MEMBERS: nat := 0xFFFF_FFFF

  function Phases(obs: seq<Observation>): (r: seq<real>)
    ensures |r| == |obs| && forall k :: 0 <= k < |obs| ==> r[k] == obs[k].phase
  {
    seq(|obs|, k requires 0 <= k < |obs| => obs[k].phase)
  }

  function Reduce(H: Hash, R: Reducer, id: Name, s: Snapshot, horizon: U64, p: Option<State>,
      evidence: Evidence): Reduced {
    if !NameValid(id) || |s.observations| < 2 || horizon < s.clock || s.digest == ZeroDigest() then Failed(Argument)
    else if Classify(H, s).Unclassified? then Failed(Unclassifiable)
    else
      var t := Classify(H, s).state;
      var refusal :=
        if p.Some? then FollowsCheck(H, id, s, t, horizon, p.value, evidence)
        else if !Unwitnessed(evidence) then Some(Transition) else None;
      if refusal.Some? then Failed(refusal.value)
      else if |s.observations| > MAX_MEMBERS then Failed(Argument)
      else Reduced(NewState(H, R(Phases(s.observations), Members(s.observations)), id, s, t, horizon, p, evidence))
  }

  /** The state before its digests are filled in. */
  function Draft(m: Macro, id: Name, s: Snapshot, t: Sector, horizon: U64, p: Option<State>,
      evidence: Evidence): State {
    var none := Unwitnessed(evidence);
    State(id, if p.Some? then Add64(p.value.generation, 1) else 1,
          s.frameVersion, s.reducerVersion, s.topologyVersion,
          s.clock, horizon, s.windowStart, s.windowEnd, s.freshness,
          m, t.winding, |s.observations|,
          if none then NoEvent else evidence.w.kind, if none then 0 else evidence.w.clock,
          if none then 0 else evidence.w.from, if none then 0 else evidence.w.to,
          s.digest, t.boundary, t.sector, if none then ZeroDigest() else evidence.w.evidence,
          ZeroDigest(), if p.Some? then p.value.digest else ZeroDigest(), ZeroDigest())
  }

  function NewState(H: Hash, m: Macro, id: Name, s: Snapshot, t: Sector, horizon: U64, p: Option<State>,
      evidence: Evidence): State {
    var draft := Draft(m, id, s, t, horizon, p, evidence);
    var hidden := draft.(hidden := H(HiddenBytes(draft)));
    hidden.(digest := H(StateBytes(hidden)))
  }

  /** The reduction, with the two arrays it hands to the phase reduction. */
  method ReduceCell(H: Hash, R: Reducer, id: Name, s: Snapshot, horizon: U64, p: Option<State>, evidence: Evidence)
    returns (r: Reduced)
    ensures r == Reduce(H, R, id, s, horizon, p, evidence)
  {
    hide StateBytes, HiddenBytes, Classify, StateValid, VerifyTransition, FrameChangeValid;
    var n := |s.observations|;
    if !NameValid(id) || n < 2 || horizon < s.clock || s.digest == ZeroDigest() {
      return Failed(Argument);
    }
    var classified := ClassifySnapshot(H, s);
    if classified.Unclassified? {
      return Failed(Unclassifiable);
    }
    if p.Some? {
      var refusal := FollowsCheck(H, id, s, classified.state, horizon, p.value, evidence);
      if refusal.Some? {
        return Failed(refusal.value);
      }
    } else if !Unwitnessed(evidence) {
      return Failed(Transition);
    }
    if n > MAX_MEMBERS {
      return Failed(Argument);
    }
    var phases, ids := new real[n], new nat[n];
    var i := 0;
    while i < n
      invariant 0 <= i <= n
      invariant forall k :: 0 <= k < i ==> phases[k] == s.observations[k].phase && ids[k] == s.observations[k].member
    {
      phases[i] := s.observations[i].phase;
      ids[i] := s.observations[i].member;
      i := i + 1;
    }
    assert phases[..] == Phases(s.observations) && ids[..] == Members(s.observations);
    r := Reduced(NewState(H, R(phases[..], ids[..]), id, s, classified.state, horizon, p, evidence));
  }

  // ---- one step ----

  /**
   * A committed state is linked to the one before it: next generation, later clock and window, its digest
   * remembered.
   */
  predicate Linked(p: State, q: State) {
    && q.id == p.id && q.generation == Add64(p.generation, 1)
    && q.clock > p.clock && q.windowEnd > p.windowEnd && q.windowStart >= p.windowStart && q.horizon >= p.horizon
    && q.previous == p.digest
    && WindingStep(p, q)
  }

  /** Within one frame version the winding moves exactly with a phase slip on record, and then by one. */
  predicate WindingStep(p: State, q: State) {
    q.frameVersion == p.frameVersion ==>
      && -1 <= q.winding - p.winding <= 1
      && (q.winding != p.winding <==> q.kind == PhaseSlip) && q.kind != FrameChange
  }

  lemma ReduceLinks(H: Hash, R: Reducer, id: Name, s: Snapshot, horizon: U64, p: State, evidence: Evidence)
    requires Reduce(H, R, id, s, horizon, Some(p), evidence).Reduced?
    ensures Linked(p, Reduce(H, R, id, s, horizon, Some(p), evidence).state)
  {
    hide StateBytes, HiddenBytes, Classify, VerifyTransition, FrameChangeValid, WindingStep;
    assert WindingStep(p, Reduce(H, R, id, s, horizon, Some(p), evidence).state) by {
      ReducedFrame(H, R, id, s, horizon, Some(p), evidence);
      if s.frameVersion == p.frameVersion {
        ReduceMovesWinding(H, R, id, s, horizon, p, evidence);
      }
      WindingStepIs(p, Reduce(H, R, id, s, horizon, Some(p), evidence).state);
    }
  }

  lemma WindingStepIs(p: State, q: State)
    requires q.frameVersion == p.frameVersion ==>
      && -1 <= q.winding - p.winding <= 1
      && (q.winding != p.winding <==> q.kind == PhaseSlip) && q.kind != FrameChange
    ensures WindingStep(p, q)
  {}

  lemma ReduceStarts(H: Hash, R: Reducer, id: Name, s: Snapshot, horizon: U64, evidence: Evidence)
    requires Reduce(H, R, id, s, horizon, None, evidence).Reduced?
    ensures var q := Reduce(H, R, id, s, horizon, None, evidence).state;
      q.id == id && q.generation == 1 && q.previous == ZeroDigest() && q.kind == NoEvent
  {
    hide StateBytes, HiddenBytes, Classify;
  }

  /** Within one frame version a commit moves the winding if and only if it records a phase slip, and then by one. */
  lemma ReduceMovesWinding(H: Hash, R: Reducer, id: Name, s: Snapshot, horizon: U64, p: State, evidence: Evidence)
    requires Reduce(H, R, id, s, horizon, Some(p), evidence).Reduced?
    requires s.frameVersion == p.frameVersion
    ensures var q := Reduce(H, R, id, s, horizon, Some(p), evidence).state;
      && -1 <= q.winding - p.winding <= 1
      && (q.winding != p.winding <==> q.kind == PhaseSlip) && q.kind != FrameChange
      && q.boundary == p.boundary
  {
    hide StateBytes, HiddenBytes, Classify, StateValid, VerifyTransition;
    AcceptedIff(PriorSector(p), Classify(H, s).state, s, evidence);
  }

  // ---- which states can have a successor ----

  lemma InvalidEndsChain(H: Hash, R: Reducer, id: Name, s: Snapshot, horizon: U64, p: State, evidence: Evidence)
    requires !StateValid(H, p)
    ensures Reduce(H, R, id, s, horizon, Some(p), evidence).Failed?
  {
    hide StateValid, Classify, StateBytes, HiddenBytes;
  }

  predicate EvidenceUsable(evidence: Evidence) {
    Unwitnessed(evidence) || (evidence.w.clock != 0 && evidence.w.evidence != ZeroDigest())
  }

  lemma AcceptedEvidence(H: Hash, R: Reducer, id: Name, s: Snapshot, horizon: U64, p: Option<State>, evidence: Evidence)
    requires Reduce(H, R, id, s, horizon, p, evidence).Reduced?
    ensures EvidenceUsable(evidence)
    ensures p.Some? ==> StateValid(H, p.value)
  {
    hide StateBytes, HiddenBytes, Classify, StateValid;
  }

  /**
   * A reduced state passes validation, and so can have a successor, exactly when its window has positive
   * width; sealing lets a window of zero width through.
   */
  lemma ReducedStateValid(H: Hash, R: Reducer, id: Name, s: Snapshot, horizon: U64, p: Option<State>,
      evidence: Evidence)
    requires Reduce(H, R, id, s, horizon, p, evidence).Reduced?
    requires s.frameVersion != 0 && s.reducerVersion != 0 && s.topologyVersion != 0 && s.clock != 0
    requires p.Some? ==> p.value.generation + 1 < TWO_64
    requires MacroValid(R(Phases(s.observations), Members(s.observations)))
    requires DigestsPresent(Reduce(H, R, id, s, horizon, p, evidence).state)
    ensures StateValid(H, Reduce(H, R, id, s, horizon, p, evidence).state) <==> s.windowStart < s.windowEnd
  {
    hide Classify, FollowsCheck, MacroValid, HiddenBytes, StateBytes;
    AcceptedEvidence(H, R, id, s, horizon, p, evidence);
    var m := R(Phases(s.observations), Members(s.observations));
    NewStateDigests(H, m, id, s, Classify(H, s).state, horizon, p, evidence);
  }

  /** A ring whose readings were all taken at one time, in a window of no width. */
  ghost predicate Momentary(c: Config, obs: seq<Observation>, now: U64) {
    && ConfigValid(c) && c.minimum <= |obs| <= c.maximum && |obs| <= MAX_MEMBERS
    && c.windowStart == c.windowEnd <= now <= c.windowEnd + c.staleAfter
    && IsRing(Members(obs), Succs(obs))
    && forall k :: 0 <= k < |obs| ==>
         && obs[k].observedAt == c.windowEnd && obs[k].clock == obs[0].clock != 0 && obs[k].source != ZeroDigest()
         && obs[k].phase == obs[0].phase
  }

  /** Every such ring seals. */
  lemma MomentarySeals(H: Hash, c: Config, obs: seq<Observation>, now: U64)
    requires Momentary(c, obs, now)
    ensures Seal(H, c, obs, now).Sealed?
  {
    hide Seal, Screen;
    assert Screened(c, obs);
    SealDecidesRing(H, c, obs, now);
  }

  /**
   * And it is reduced to a first state; but that state fails validation, so nothing can follow it. The digest of
   * the frame must not happen to be zero.
   */
  lemma MomentaryEnds(H: Hash, R: Reducer, id: Name, c: Config, obs: seq<Observation>, now: U64, horizon: U64)
    requires Momentary(c, obs, now) && NameValid(id) && horizon >= obs[0].clock
    requires Seal(H, c, obs, now).Sealed? ==> Seal(H, c, obs, now).snapshot.digest != ZeroDigest()
    ensures Seal(H, c, obs, now).Sealed?
    ensures var r := Reduce(H, R, id, Seal(H, c, obs, now).snapshot, horizon, None, NoWitness);
      && r.Reduced? && !StateValid(H, r.state)
      && forall s, later, evidence :: Reduce(H, R, id, s, later, Some(r.state), evidence).Failed?
  {
    hide Seal, Classify, StateBytes, HiddenBytes, StateValid, IsRing, SnapshotValid;
    MomentarySeals(H, c, obs, now);
    SealYieldsRing(H, c, obs, now);
    var s := Seal(H, c, obs, now).snapshot;
    ListedAlike(s, obs);
    AlikeNotAntipodal(s.observations);
    ClassifySealed(H, s);
    var q := Reduce(H, R, id, s, horizon, None, NoWitness).state;
    NoWidthIsInvalid(H, q);
    forall t, later, evidence ensures Reduce(H, R, id, t, later, Some(q), evidence).Failed? {
      InvalidEndsChain(H, R, id, t, later, q, evidence);
    }
  }

  lemma ListedAlike(s: Snapshot, obs: seq<Observation>)
    requires ListsAll(s, obs) && forall k :: 0 <= k < |obs| ==> obs[k].phase == obs[0].phase
    ensures forall k :: 0 <= k < |s.observations| ==> s.observations[k].phase == s.observations[0].phase
  {
    hide Wrap;
    var p :| Permutes(p, |obs|) && s.observations == Ordered(obs, p);
    assert forall k :: 0 <= k < |p| ==> s.observations[k] == Wrapped(obs[p[k]]);
  }

  lemma NoWidthIsInvalid(H: Hash, s: State)
    requires s.windowStart == s.windowEnd
    ensures !StateValid(H, s)
  {
    hide StateBytes, HiddenBytes, MacroValid;
  }

  lemma NewStateDigests(H: Hash, m: Macro, id: Name, s: Snapshot, t: Sector, horizon: U64, p: Option<State>,
      evidence: Evidence)
    ensures var q := NewState(H, m, id, s, t, horizon, p, evidence);
      q.hidden == H(HiddenBytes(q)) && q.digest == H(StateBytes(q))
  {}

  // ---- runs of commits ----

  datatype Input = Input(snapshot: Snapshot, horizon: U64, evidence: Evidence)

  /** The states a cell commits, one input after another, from no state at all. */
  predicate Chain(H: Hash, R: Reducer, id: Name, inputs: seq<Input>, states: seq<State>) {
    && |inputs| == |states|
    && forall k :: 0 <= k < |states| ==>
         Reduce(H, R, id, inputs[k].snapshot, inputs[k].horizon, Prior(states, k), inputs[k].evidence)
         == Reduced(states[k])
  }

  function Prior(states: seq<State>, k: nat): Option<State>
    requires k <= |states|
  {
    if k == 0 then None else Some(states[k - 1])
  }

  /** Generations count from one; clocks and windows only move on; every state remembers its predecessor's digest. */
  lemma {:induction false} ChainLaws(H: Hash, R: Reducer, id: Name, inputs: seq<Input>, states: seq<State>, j: nat,
      k: nat)
    requires Chain(H, R, id, inputs, states) && j < k < |states| < TWO_64
    ensures states[j].generation == j + 1 && states[k].generation == k + 1
    ensures states[j].clock < states[k].clock && states[j].windowEnd < states[k].windowEnd
    ensures states[k].previous == states[k - 1].digest && states[0].previous == ZeroDigest()
    decreases k
  {
    hide Reduce;
    assert Prior(states, 0) == None;
    assert Reduce(H, R, id, inputs[0].snapshot, inputs[0].horizon, None, inputs[0].evidence) == Reduced(states[0]);
    ReduceStarts(H, R, id, inputs[0].snapshot, inputs[0].horizon, inputs[0].evidence);
    var i := inputs[k];
    ReduceLinks(H, R, id, i.snapshot, i.horizon, states[k - 1], i.evidence);
    if j < k - 1 {
      ChainLaws(H, R, id, inputs, states, j, k - 1);
    } else if j > 0 {
      ChainLaws(H, R, id, inputs, states, j - 1, j);
    }
  }

  /** Phase slips among the states after the j-th, up to the k-th. */
  function Slips(states: seq<State>, j: nat, k: nat): nat
    requires j <= k < |states|
  {
    if j == k then 0 else Slips(states, j, k - 1) + if states[k].kind == PhaseSlip then 1 else 0
  }

  predicate OneFrame(states: seq<State>, j: nat, k: nat)
    requires j <= k < |states|
  {
    forall i :: j <= i <= k ==> states[i].frameVersion == states[j].frameVersion
  }

  /** Over any run of linked states in one frame the winding drifts by no more than the phase slips on record. */
  lemma {:induction false} DriftIsWitnessed(states: seq<State>, j: nat, k: nat)
    requires j <= k < |states| && OneFrame(states, j, k)
    requires forall i :: j < i <= k ==> Linked(states[i - 1], states[i])
    ensures -(Slips(states, j, k) as int) <= states[k].winding - states[j].winding <= Slips(states, j, k)
    ensures Slips(states, j, k) <= k - j
    decreases k
  {
    if j < k {
      assert Linked(states[k - 1], states[k]);
      DriftIsWitnessed(states, j, k - 1);
    }
  }

  /** How often the winding moved after the j-th state, up to the k-th. */
  function Turns(states: seq<State>, j: nat, k: nat): nat
    requires j <= k < |states|
  {
    if j == k then 0 else Turns(states, j, k - 1) + if states[k].winding != states[k - 1].winding then 1 else 0
  }

  /** It moved exactly as often as a phase slip is on record. */
  lemma {:induction false} TurnsAreSlips(states: seq<State>, j: nat, k: nat)
    requires j <= k < |states| && OneFrame(states, j, k)
    requires forall i :: j < i <= k ==> Linked(states[i - 1], states[i])
    ensures Turns(states, j, k) == Slips(states, j, k)
    decreases k
  {
    if j < k {
      assert Linked(states[k - 1], states[k]);
      TurnsAreSlips(states, j, k - 1);
    }
  }

  lemma ReducedFrame(H: Hash, R: Reducer, id: Name, s: Snapshot, horizon: U64, p: Option<State>, evidence: Evidence)
    requires Reduce(H, R, id, s, horizon, p, evidence).Reduced?
    ensures Reduce(H, R, id, s, horizon, p, evidence).state.frameVersion == s.frameVersion
  {
    hide StateBytes, HiddenBytes, Classify, FollowsCheck;
  }
}
