/**
 * Classifying a sealed ring: its oriented boundary, its integer winding number, and which transitions
 * between two classified states are allowed.
 */
module Topology {
  import opened Bytes
  import opened Angle
  import opened Ring
  import opened Frame

  const TOLERANCE: real := 0.000000001

  datatype Kind = NoEvent | LocalDeformation | PhaseSlip | FrameChange

  datatype Witness = Witness(kind: Kind, from: U64, to: U64, clock: U64, evidence: Digest)

  datatype Sector = Sector(
    frameVersion: U64, topologyVersion: U64, clock: U64, winding: int, maximumDelta: real,
    snapshotDigest: Digest, boundary: Digest, sector: Digest)

  datatype Verdict = Accept | BadInput | BadBoundary | BadSector | BadWitness | OutOfOrder

  datatype Classified = Classified(state: Sector) | Unclassified(verdict: Verdict)

  // ---- the oriented boundary ----

  function BoundaryHeader(version: U64, count: nat): seq<Byte> {
    Ascii("CDC-RFTC-BOUNDARY-V1") + [0] + BE(version, 8) + BE(count, 8)
  }

  function LinkBytes(member: nat, succ: nat): seq<Byte> {
    BE(member, 8) + BE(succ, 8)
  }

  /** The links, taken in the order p. */
  function LinksBytes(members: seq<nat>, succs: seq<nat>, p: seq<nat>): seq<Byte>
    requires |succs| == |members| && forall k :: 0 <= k < |p| ==> p[k] < |members|
  {
    if p == [] then []
    else
      var last := p[|p| - 1];
      LinksBytes(members, succs, p[..|p| - 1]) + LinkBytes(members[last], succs[last])
  }

  /** The same for observations already in order. */
  function RingBytes(obs: seq<Observation>): seq<Byte> {
    if obs == [] then []
    else RingBytes(obs[..|obs| - 1]) + LinkBytes(obs[|obs| - 1].member, obs[|obs| - 1].succ)
  }

  lemma LinksNext(members: seq<nat>, succs: seq<nat>, p: seq<nat>, i: nat)
    requires |succs| == |members| && i < |p| && forall k :: 0 <= k <= i ==> p[k] < |members|
    ensures LinksBytes(members, succs, p[..i + 1])
         == LinksBytes(members, succs, p[..i]) + LinkBytes(members[p[i]], succs[p[i]])
  {
    assert p[..i + 1][..i] == p[..i];
  }

  lemma NoLinks(members: seq<nat>, succs: seq<nat>)
    requires |succs| == |members|
    ensures LinksBytes(members, succs, []) == []
  {}

  datatype Boundary = Boundary(digest: Digest) | NoBoundary(verdict: Verdict)

  /** The commitment to a ring given by unordered links, by walking it from its least member. */
  method BoundaryDigest(H: Hash, members: seq<nat>, succs: seq<nat>, version: U64)
    returns (b: Boundary, ghost anchor: nat)
    requires |succs| == |members|
    ensures |members| < 2 || version == 0 ==> b == NoBoundary(BadInput)
    ensures |members| >= 2 && version != 0 && !IsRing(members, succs) ==> b == NoBoundary(BadBoundary)
    ensures |members| >= 2 && version != 0 && IsRing(members, succs) ==>
      && IsLeast(members, anchor) && GoesRound(members, succs, anchor)
      && b == Boundary(H(BoundaryHeader(version, |members|) + LinksBytes(members, succs, Tour(members, succs, anchor))))
  {
    hide IsRing, Nonzero, GoesRound, Distinct, Walk, BoundaryHeader, LinkBytes, LinksBytes;
    anchor := 0;
    if |members| < 2 || version == 0 {
      return NoBoundary(BadInput), anchor;
    }
    var ok, start := LinksValid(members, succs);
    if !ok {
      return NoBoundary(BadBoundary), anchor;
    }
    anchor := start;
    var n := |members|;
    RingIsRound(members, succs, anchor);
    WalkStart(members, succs, start);
    ghost var p := Tour(members, succs, start);
    var bytes := BoundaryHeader(version, n);
    NoLinks(members, succs);
    var current := start;
    var i := 0;
    while i < n
      invariant 0 <= i <= n && current < n && current == Walk(members, succs, start, i)
      invariant forall k :: 0 <= k <= i ==> Walk(members, succs, start, k) < n
      invariant forall k :: 0 < k < i ==> Walk(members, succs, start, k) != start
      invariant bytes == BoundaryHeader(version, n) + LinksBytes(members, succs, p[..i])
    {
      if i > 0 && current == start {
        EarlyReturn(members, succs, start, i);
        return NoBoundary(BadBoundary), anchor;
      }
      LinksNext(members, succs, p, i);
      bytes := bytes + LinkBytes(members[current], succs[current]);
      var next := Find(members, succs[current]);
      WalkNext(members, succs, start, i);
      if next == n {
        Stuck(members, succs, start, i + 1);
        return NoBoundary(BadBoundary), anchor;
      }
      current := next;
      i := i + 1;
    }
    if current != start {
      NotBack(members, succs, start);
      return NoBoundary(BadBoundary), anchor;
    }
    NeverMerges(members, succs, start);
    assert p[..i] == p;
    b := Boundary(H(bytes));
  }

  // ---- winding ----

  /** The wrapped phase difference along the edge leaving member k. */
  function Delta(obs: seq<Observation>, k: nat): real
    requires k < |obs|
  {
    Wrap(obs[After(k, |obs|)].phase - obs[k].phase)
  }

  function TotalDelta(obs: seq<Observation>, n: nat): real
    requires n <= |obs|
  {
    if n == 0 then 0.0 else TotalDelta(obs, n - 1) + Delta(obs, n - 1)
  }

  /** The greatest edge difference so far. */
  function GreatestDelta(obs: seq<Observation>, n: nat): real
    requires n <= |obs|
  {
    if n == 0 then 0.0
    else
      var d, m := Abs(Delta(obs, n - 1)), GreatestDelta(obs, n - 1);
      if d > m then d else m
  }

  predicate Antipodal(obs: seq<Observation>, k: nat)
    requires k < |obs|
  {
    Abs(Abs(Delta(obs, k)) - PI) <= TOLERANCE
  }

  lemma Apart(turns: int, more: int)
    ensures TWO_PI * ((turns + more) as real) == TWO_PI * (turns as real) + TWO_PI * (more as real)
  {}

  /** Differences telescope: round the first n edges they add up to the phase gained, less whole turns. */
  lemma {:induction false} TotalTurns(obs: seq<Observation>, n: nat) returns (turns: int)
    requires 0 < n <= |obs|
    ensures TotalDelta(obs, n) == obs[After(n - 1, |obs|)].phase - obs[0].phase - TWO_PI * (turns as real)
    decreases n
  {
    var last := WrapTurns(obs[After(n - 1, |obs|)].phase - obs[n - 1].phase);
    if n == 1 {
      turns := last;
    } else {
      var before := TotalTurns(obs, n - 1);
      turns := before + last;
      Apart(before, last);
    }
  }

  lemma {:induction false} TotalBound(obs: seq<Observation>, n: nat)
    requires n <= |obs|
    ensures Abs(TotalDelta(obs, n)) <= PI * (n as real)
    ensures n > 0 && (forall k :: 0 <= k < n ==> Abs(Delta(obs, k)) < PI) ==> Abs(TotalDelta(obs, n)) < PI * (n as real)
    decreases n
  {
    if n > 0 {
      TotalBound(obs, n - 1);
      var turns := WrapTurns(obs[After(n - 1, |obs|)].phase - obs[n - 1].phase);
      assert PI * (n as real) == PI * ((n - 1) as real) + PI;
    }
  }

  /** Round the whole ring the wrapped differences add up to a whole number of turns: the winding number. */
  lemma WindingIsInteger(obs: seq<Observation>) returns (winding: int)
    requires obs != []
    ensures TotalDelta(obs, |obs|) == TWO_PI * (winding as real)
    ensures Winding(obs) == winding
    ensures -(|obs| as int) <= 2 * winding <= |obs|
    ensures (forall k :: 0 <= k < |obs| ==> !Antipodal(obs, k)) ==> -(|obs| as int) < 2 * winding < |obs|
  {
    var turns := TotalTurns(obs, |obs|);
    winding := -turns;
    TotalBound(obs, |obs|);
    assert TotalDelta(obs, |obs|) / TWO_PI == winding as real;
    RoundInteger(winding);
    if forall k :: 0 <= k < |obs| ==> !Antipodal(obs, k) {
      forall k | 0 <= k < |obs| ensures Abs(Delta(obs, k)) < PI {
        assert !Antipodal(obs, k);
        var t := WrapTurns(obs[After(k, |obs|)].phase - obs[k].phase);
      }
    }
  }

  function Winding(obs: seq<Observation>): int {
    Round(TotalDelta(obs, |obs|) / TWO_PI)
  }

  // ---- classification ----

  /** The first complaint about the edges from k on: a broken link, or an edge too close to half a turn. */
  function EdgeCheck(obs: seq<Observation>, k: nat): Verdict
    requires k <= |obs|
    decreases |obs| - k
  {
    if k == |obs| then Accept
    else if obs[k].succ != obs[After(k, |obs|)].member then BadBoundary
    else if Antipodal(obs, k) then BadSector
    else EdgeCheck(obs, k + 1)
  }

  function SectorBytes(boundary: Digest, version: U64, winding: int): seq<Byte> {
    Ascii("CDC-RFTC-SECTOR-V1") + [0] + boundary + BE(version, 8) + Signed64(winding)
  }

  predicate WholeTurns(total: real) {
    Abs(total / TWO_PI - (Round(total / TWO_PI) as real)) <= TOLERANCE
  }

  function Classify(H: Hash, s: Snapshot): Classified {
    var obs := s.observations;
    if |obs| < 2 || s.digest == ZeroDigest() then Unclassified(BadInput)
    else if EdgeCheck(obs, 0) != Accept then Unclassified(EdgeCheck(obs, 0))
    else if !WholeTurns(TotalDelta(obs, |obs|)) then Unclassified(BadSector)
    else Classified(SectorOf(H, s))
  }

  function SectorOf(H: Hash, s: Snapshot): Sector {
    var obs := s.observations;
    var boundary := H(BoundaryHeader(s.topologyVersion, |obs|) + RingBytes(obs));
    Sector(s.frameVersion, s.topologyVersion, s.clock, Winding(obs), GreatestDelta(obs, |obs|), s.digest, boundary,
           H(SectorBytes(boundary, s.topologyVersion, Winding(obs))))
  }

  /** One pass over the edges, summing differences and digesting links. */
  method ClassifySnapshot(H: Hash, s: Snapshot) returns (r: Classified)
    ensures r == Classify(H, s)
  {
    hide Wrap, Abs, BoundaryHeader, LinkBytes, WholeTurns, SectorBytes, Antipodal;
    var obs := s.observations;
    var n := |obs|;
    if n < 2 || s.digest == ZeroDigest() {
      return Unclassified(BadInput);
    }
    var bytes := BoundaryHeader(s.topologyVersion, n);
    var total, greatest := 0.0, 0.0;
    var i := 0;
    while i < n
      invariant 0 <= i <= n
      invariant EdgeCheck(obs, i) == EdgeCheck(obs, 0)
      invariant total == TotalDelta(obs, i) && greatest == GreatestDelta(obs, i)
      invariant bytes == BoundaryHeader(s.topologyVersion, n) + RingBytes(obs[..i])
    {
      var next := obs[After(i, n)];
      if obs[i].succ != next.member {
        return Unclassified(BadBoundary);
      }
      var delta := Wrap(next.phase - obs[i].phase);
      if Antipodal(obs, i) {
        return Unclassified(BadSector);
      }
      total := total + delta;
      if Abs(delta) > greatest {
        greatest := Abs(delta);
      }
      assert obs[..i + 1][..i] == obs[..i];
      bytes := bytes + LinkBytes(obs[i].member, obs[i].succ);
      i := i + 1;
    }
    assert obs[..i] == obs;
    if !WholeTurns(total) {
      return Unclassified(BadSector);
    }
    var boundary := H(bytes);
    var winding := Round(total / TWO_PI);
    r := Classified(Sector(s.frameVersion, s.topologyVersion, s.clock, winding, greatest, s.digest, boundary,
                           H(SectorBytes(boundary, s.topologyVersion, winding))));
  }

  lemma {:induction false} EdgesOfRing(obs: seq<Observation>, k: nat)
    requires InOrder(obs) && k <= |obs|
    ensures EdgeCheck(obs, k) == if exists j :: k <= j < |obs| && Antipodal(obs, j) then BadSector else Accept
    decreases |obs| - k
  {
    hide Antipodal;
    if k < |obs| {
      EdgesOfRing(obs, k + 1);
      if Antipodal(obs, k) {
        assert EdgeCheck(obs, k) == BadSector;
      } else {
        assert EdgeCheck(obs, k) == EdgeCheck(obs, k + 1);
      }
    }
  }

  /**
   * On a sealed snapshot classification never finds a broken boundary, and fails exactly when some edge is
   * antipodal: the rounding check that follows never does. The winding it reports is the exact one.
   */
  lemma ClassifySealed(H: Hash, s: Snapshot)
    requires SnapshotValid(s) && s.digest != ZeroDigest()
    ensures var obs := s.observations;
      && Classify(H, s) != Unclassified(BadBoundary)
      && (Classify(H, s).Unclassified? <==> exists k :: 0 <= k < |obs| && Antipodal(obs, k))
      && (Classify(H, s).Unclassified? ==> Classify(H, s).verdict == BadSector)
      && (Classify(H, s).Classified? ==>
            var w := Classify(H, s).state.winding;
            TotalDelta(obs, |obs|) == TWO_PI * (w as real) && -(|obs| as int) < 2 * w < |obs|)
  {
    hide Antipodal, SectorOf, Wrap, Delta;
    var obs := s.observations;
    EdgesOfRing(obs, 0);
    var w := WindingIsInteger(obs);
    WholeIsWhole(TotalDelta(obs, |obs|), w);
    SectorWinding(H, s);
  }

  /** Where all phases are alike no edge is near half a turn. */
  lemma AlikeNotAntipodal(obs: seq<Observation>)
    requires forall k :: 0 <= k < |obs| ==> obs[k].phase == obs[0].phase
    ensures forall k :: 0 <= k < |obs| ==> !Antipodal(obs, k)
  {
    hide Wrap;
    WrapUnique(0.0, 0.0, 0);
  }

  lemma SectorWinding(H: Hash, s: Snapshot)
    ensures SectorOf(H, s).winding == Winding(s.observations)
  {}

  lemma WholeIsWhole(total: real, w: int)
    requires total == TWO_PI * (w as real)
    ensures WholeTurns(total)
  {
    assert total / TWO_PI == w as real;
    RoundInteger(w);
  }

  lemma {:induction false} SameLinks(obs: seq<Observation>, p: seq<nat>)
    requires forall k :: 0 <= k < |p| ==> p[k] < |obs|
    ensures RingBytes(Ordered(obs, p)) == LinksBytes(Members(obs), Succs(obs), p)
    decreases p
  {
    if p != [] {
      var q := p[..|p| - 1];
      SameLinks(obs, q);
      assert Ordered(obs, p)[..|p| - 1] == Ordered(obs, q);
    }
  }

  /** Classification commits to the same boundary as the ring specification the frame was sealed from. */
  lemma BoundariesAgree(H: Hash, c: Config, obs: seq<Observation>, now: U64, anchor: nat) returns (p: seq<nat>)
    requires Seal(H, c, obs, now).Sealed? && Classify(H, Seal(H, c, obs, now).snapshot).Classified?
    requires IsLeast(Members(obs), anchor)
    ensures p == Tour(Members(obs), Succs(obs), anchor) && forall k :: 0 <= k < |p| ==> p[k] < |obs|
    ensures Classify(H, Seal(H, c, obs, now).snapshot).state.boundary
         == H(BoundaryHeader(c.topologyVersion, |obs|) + LinksBytes(Members(obs), Succs(obs), p))
  {
    hide Seal, Classify, BoundaryHeader, Tour, RingBytes, LinksBytes, GoesRound, Distinct;
    p := SealedTour(H, c, obs, now, anchor);
    SameLinks(obs, p);
    ClassifiedBoundary(H, Seal(H, c, obs, now).snapshot);
  }

  lemma ClassifiedBoundary(H: Hash, s: Snapshot)
    requires Classify(H, s).Classified?
    ensures Classify(H, s).state.boundary
         == H(BoundaryHeader(s.topologyVersion, |s.observations|) + RingBytes(s.observations))
  {
    hide EdgeCheck, WholeTurns, BoundaryHeader, RingBytes, TotalDelta, GreatestDelta, Winding, SectorBytes;
  }

  lemma SealedTour(H: Hash, c: Config, obs: seq<Observation>, now: U64, anchor: nat) returns (p: seq<nat>)
    requires Seal(H, c, obs, now).Sealed? && IsLeast(Members(obs), anchor)
    ensures GoesRound(Members(obs), Succs(obs), anchor) && p == Tour(Members(obs), Succs(obs), anchor)
    ensures forall k :: 0 <= k < |p| ==> p[k] < |obs|
    ensures var s := Seal(H, c, obs, now).snapshot;
      s.observations == Ordered(obs, p) && s.topologyVersion == c.topologyVersion
  {
    hide Seal, Screened, Distinct, Walk, FrameHeader, AllObservationBytes;
    var freshness := SealedParts(H, c, obs, now);
    LeastIsUnique(Members(obs), anchor, Anchor(obs));
    p := Tour(Members(obs), Succs(obs), anchor);
  }

  // ---- transitions ----

  predicate EdgeExists(obs: seq<Observation>, a: U64, b: U64) {
    exists k :: 0 <= k < |obs| && obs[k].member == a && obs[k].succ == b
  }

  /** The witness names this kind of event, on an edge of the ring, between the two clocks. */
  predicate Testifies(w: Witness, kind: Kind, before: U64, after: U64, obs: seq<Observation>) {
    && w.kind == kind && w.evidence != ZeroDigest()
    && before < w.clock <= after
    && EdgeExists(obs, w.from, w.to)
  }

  datatype Evidence = NoWitness | Given(w: Witness)

  function VerifyTransition(before: Sector, after: Sector, s: Snapshot, evidence: Evidence): Verdict {
    if before.topologyVersion != after.topologyVersion || after.clock <= before.clock
       || after.snapshotDigest != s.digest then OutOfOrder
    else if before.boundary != after.boundary then BadBoundary
    else
      var step := after.winding - before.winding;
      if step == 0 then
        if evidence == NoWitness || evidence.w.kind == NoEvent then Accept
        else if !Testifies(evidence.w, LocalDeformation, before.clock, after.clock, s.observations) then BadWitness
        else Accept
      else if step != 1 && step != -1 then BadSector
      else if evidence == NoWitness || !Testifies(evidence.w, PhaseSlip, before.clock, after.clock, s.observations)
      then BadWitness
      else Accept
  }

  /** The witness has evidence and names an edge of the ring and a clock behind the first and up to the second. */
  predicate OnRecord(w: Witness, before: U64, after: U64, obs: seq<Observation>) {
    && w.evidence != ZeroDigest() && before < w.clock && w.clock <= after
    && exists k :: 0 <= k < |obs| && obs[k].member == w.from && obs[k].succ == w.to
  }

  /** What is said of the transition fits how the winding went. */
  predicate Accounts(evidence: Evidence, before: Sector, after: Sector, obs: seq<Observation>) {
    match evidence
    case NoWitness => after.winding == before.winding
    case Given(w) =>
      match w.kind
      case NoEvent => after.winding == before.winding
      case LocalDeformation => after.winding == before.winding && OnRecord(w, before.clock, after.clock, obs)
      case PhaseSlip =>
        after.winding - before.winding in {-1, 1} && OnRecord(w, before.clock, after.clock, obs)
      case FrameChange => false
  }

  /**
   * A transition is accepted if and only if it leads from one clock to a later one on the same boundary, and the
   * winding stays, with no witness or one for a local deformation, or moves by one, with one for a phase slip.
   */
  lemma AcceptedIff(before: Sector, after: Sector, s: Snapshot, evidence: Evidence)
    ensures VerifyTransition(before, after, s, evidence) == Accept
       <==> && before.topologyVersion == after.topologyVersion && before.clock < after.clock
            && after.snapshotDigest == s.digest && before.boundary == after.boundary
            && Accounts(evidence, before, after, s.observations)
  {}
}
