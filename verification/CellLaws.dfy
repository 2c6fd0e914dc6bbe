/**
 * Which frames a cell takes, and what the state it makes of one says; and that its digests determine what they
 * cover.
 */
module CellLaws {
  import opened Bytes
  import opened Options
  import opened Angle
  import opened Ring
  import opened Frame
  import opened Topology
  import opened Cell

  // ---- which frames may follow ----

  /** The guards a frame has to pass whatever is said of the transition. */
  predicate Reducible(H: Hash, id: Name, s: Snapshot, horizon: U64) {
    && NameValid(id) && 2 <= |s.observations| <= MAX_MEMBERS && s.clock <= horizon && s.digest != ZeroDigest()
    && Classify(H, s).Classified?
  }

  /** It is later than p, in a window that moved on. */
  predicate Follows(H: Hash, id: Name, s: Snapshot, horizon: U64, p: State) {
    && StateValid(H, p) && p.id == id && p.clock < s.clock && p.horizon <= horizon
    && p.windowStart <= s.windowStart && p.windowEnd < s.windowEnd
  }

  /**
   * Exactly these frames are reduced: sound ones; behind a state, later ones, which within its frame version keep its
   * versions and its boundary and account for the winding, and otherwise are of the next version, with a witness for
   * the change.
   */
  lemma ReducesIff(H: Hash, R: Reducer, id: Name, s: Snapshot, horizon: U64, p: Option<State>, evidence: Evidence)
    ensures Reduce(H, R, id, s, horizon, p, evidence).Reduced?
       <==> && Reducible(H, id, s, horizon)
            && match p {
                 case None => evidence == NoWitness || evidence.w.kind == NoEvent
                 case Some(q) =>
                   && Follows(H, id, s, horizon, q)
                   && if s.frameVersion == q.frameVersion then Continues(H, s, q, evidence) else Changes(s, q, evidence)
               }
  {
    hide StateBytes, HiddenBytes, Classify, StateValid, VerifyTransition, Accounts;
    if p.Some? && Classify(H, s).Classified? {
      AcceptedIff(PriorSector(p.value), Classify(H, s).state, s, evidence);
      ClassifiedAs(H, s);
    }
  }

  /** Within one frame version: versions and boundary stay, and the winding is accounted for. */
  predicate Continues(H: Hash, s: Snapshot, p: State, evidence: Evidence)
    requires Classify(H, s).Classified?
  {
    var t := Classify(H, s).state;
    && s.reducerVersion == p.reducerVersion && s.topologyVersion == p.topologyVersion && t.boundary == p.boundary
    && Accounts(evidence, PriorSector(p), t, s.observations)
  }

  /** To the next frame version: no version goes back, and a witness says so, at a clock between the two. */
  predicate Changes(s: Snapshot, p: State, evidence: Evidence) {
    && s.frameVersion == Add64(p.frameVersion, 1)
    && p.reducerVersion <= s.reducerVersion && p.topologyVersion <= s.topologyVersion
    && evidence.Given? && evidence.w.kind == FrameChange && evidence.w.evidence != ZeroDigest()
    && p.clock < evidence.w.clock && evidence.w.clock <= s.clock
  }

  lemma ClassifiedAs(H: Hash, s: Snapshot)
    requires Classify(H, s).Classified?
    ensures var t := Classify(H, s).state;
      && t.topologyVersion == s.topologyVersion && t.clock == s.clock && t.snapshotDigest == s.digest
  {
    hide EdgeCheck, WholeTurns, BoundaryHeader, RingBytes, TotalDelta, GreatestDelta, Winding, SectorBytes;
  }

  /** What a new state says: of the frame, of the ring, of the witness, and of the state before. */
  lemma ReducedSays(H: Hash, R: Reducer, id: Name, s: Snapshot, horizon: U64, p: Option<State>, evidence: Evidence)
    requires Reduce(H, R, id, s, horizon, p, evidence).Reduced?
    ensures var q, t := Reduce(H, R, id, s, horizon, p, evidence).state, Classify(H, s).state;
      && q.id == id && q.horizon == horizon && q.count == |s.observations|
      && q.frameVersion == s.frameVersion && q.reducerVersion == s.reducerVersion
      && q.topologyVersion == s.topologyVersion && q.clock == s.clock && q.freshness == s.freshness
      && q.windowStart == s.windowStart && q.windowEnd == s.windowEnd && q.snapshotDigest == s.digest
      && q.macro == R(Phases(s.observations), Members(s.observations))
      && q.winding == t.winding && q.boundary == t.boundary && q.sector == t.sector
      && (q.kind == NoEvent <==> evidence == NoWitness || evidence.w.kind == NoEvent)
      && (q.kind != NoEvent ==>
            evidence == Given(Witness(q.kind, q.eventFrom, q.eventTo, q.eventClock, q.evidence)))
      && (q.kind == NoEvent ==>
            q.eventClock == q.eventFrom == q.eventTo == 0 && q.evidence == ZeroDigest())
      && q.hidden == H(HiddenBytes(q)) && q.digest == H(StateBytes(q))
  {
    hide StateBytes, HiddenBytes, Classify, FollowsCheck;
    NewStateDigests(H, R(Phases(s.observations), Members(s.observations)), id, s, Classify(H, s).state, horizon, p,
                    evidence);
  }

  // ---- which states are valid ----

  /** The state with its two digests computed, the hidden one first. */
  function Sealed(H: Hash, s: State): State {
    var hidden := s.(hidden := H(HiddenBytes(s)));
    hidden.(digest := H(StateBytes(hidden)))
  }

  /**
   * Exactly these states are valid: sealing gives them back, they lack nothing, they lie within their horizon in a
   * window that has width, their macro state does up to rounding, they tell all of an event or nothing, and they name
   * a predecessor unless they are the first.
   */
  lemma ValidIff(H: Hash, s: State)
    ensures StateValid(H, s)
       <==> && s == Sealed(H, s)
            && NameValid(s.id) && 0 !in [s.generation, s.frameVersion, s.reducerVersion, s.topologyVersion, s.clock]
            && ZeroDigest() !in [s.snapshotDigest, s.boundary, s.sector, s.hidden, s.digest]
            && s.clock <= s.horizon && s.windowStart < s.windowEnd && s.count > 1
            && 0.0 <= s.macro.amplitude && s.macro.amplitude - 1.0 <= PICO && Abs(s.macro.meanPhase) <= PI + PICO
            && Abs(s.macro.dispersion - 0.5) <= 0.5 + PICO
            && Abs(s.macro.amplitude - (1.0 - s.macro.dispersion)) <= 1000.0 * PICO
            && (s.kind == NoEvent <==> s.eventClock == 0) && (s.kind == NoEvent <==> s.evidence == ZeroDigest())
            && (s.kind == NoEvent ==> s.eventFrom == 0 == s.eventTo)
            && (s.generation == 1 <==> s.previous == ZeroDigest())
  {
    hide HiddenBytes, StateBytes;
  }

  const PICO := 0.000000000001
}
