/**
 * The strings the digests are taken of determine what they cover: two frames, boundaries, sectors, states or structures
 * with the same string are the same, phases and the like up to the twelve digits they are taken at. So a digest stands
 * for all of it, unless it collides.
 */
module Layouts {
  import opened Bytes
  import opened Options
  import opened Angle
  import opened Frame
  import opened Topology
  import opened Cell

  lemma SplitAt(a: seq<Byte>, x: seq<Byte>, b: seq<Byte>, y: seq<Byte>)
    requires |a| == |b| && a + x == b + y
    ensures a == b && x == y
  {
    assert (a + x)[..|a|] == a && (b + y)[..|b|] == b;
    assert (a + x)[|a|..] == x && (b + y)[|b|..] == y;
  }

  lemma SplitEnd(a: seq<Byte>, x: seq<Byte>, b: seq<Byte>, y: seq<Byte>)
    requires |x| == |y| && a + x == b + y
    ensures a == b && x == y
  {
    assert |a| == |b|;
    SplitAt(a, x, b, y);
  }

  lemma SameNumber(m: U64, n: U64)
    requires BE(m, 8) == BE(n, 8)
    ensures m == n
  {
    Widths();
    BERoundTrip(m, 8);
    BERoundTrip(n, 8);
  }

  /** A signed number within 63 bits. */
  predicate Fits63(x: int) {
    -0x8000_0000_0000_0000 <= x < 0x8000_0000_0000_0000
  }

  lemma SameSigned(x: int, y: int)
    requires Signed64(x) == Signed64(y) && Fits63(x) && Fits63(y)
    ensures x == y
  {
    SameNumber(x % TWO_64, y % TWO_64);
  }

  /** The digits a real number is taken at. */
  function Digits(x: real): int {
    Round(x * 1000000000000.0)
  }

  // ---- states ----

  /** Equal in all a state's string covers. */
  predicate SameCovered(a: State, b: State) {
    && a.(macro := b.macro, digest := b.digest) == b
    && Digits(a.macro.amplitude) == Digits(b.macro.amplitude) && Digits(a.macro.meanPhase) == Digits(b.macro.meanPhase)
    && Digits(a.macro.dispersion) == Digits(b.macro.dispersion)
  }

  /** Its macro values, winding and count are within the program's integers. */
  predicate InWidth(s: State) {
    && Fits63(Digits(s.macro.amplitude)) && Fits63(Digits(s.macro.meanPhase)) && Fits63(Digits(s.macro.dispersion))
    && Fits63(s.winding) && s.count < TWO_64 && |s.id| < TWO_64
  }

  lemma VersionsAt(s: State)
    ensures var b := VersionBytes(s);
      && |b| == 72
      && b[0..8] == BE(s.generation, 8) && b[8..16] == BE(s.frameVersion, 8)
      && b[16..24] == BE(s.reducerVersion, 8) && b[24..32] == BE(s.topologyVersion, 8)
      && b[32..40] == BE(s.clock, 8) && b[40..48] == BE(s.horizon, 8)
      && b[48..56] == BE(s.windowStart, 8) && b[56..64] == BE(s.windowEnd, 8)
      && b[64..72] == BE(s.freshness, 8)
  {
    hide BE, Quantised, Signed64;
  }

  lemma MacrosAt(s: State)
    ensures var b := MacroBytes(s);
      && |b| == 40
      && b[0..8] == Quantised(s.macro.amplitude) && b[8..16] == Quantised(s.macro.meanPhase)
      && b[16..24] == Quantised(s.macro.dispersion) && b[24..32] == Signed64(s.winding)
      && b[32..40] == BE(s.count, 8)
  {
    hide BE;
  }

  lemma EventsAt(s: State)
    ensures var b := EventBytes(s);
      && |b| == 32
      && b[0..8] == BE(KindCode(s.kind), 8) && b[8..16] == BE(s.eventClock, 8)
      && b[16..24] == BE(s.eventFrom, 8) && b[24..32] == BE(s.eventTo, 8)
  {
    hide BE;
  }

  lemma DigestsAt(s: State)
    ensures var b := CoveredDigests(s);
      && |b| == 192
      && b[0..32] == s.snapshotDigest && b[32..64] == s.boundary
      && b[64..96] == s.sector && b[96..128] == s.evidence
      && b[128..160] == s.hidden && b[160..192] == s.previous
  {
  }

  /** Where everything is in a state's string: domain, name, and behind them four groups of fields. */
  lemma StateLayout(s: State)
    ensures var b, n := StateBytes(s), 25 + |s.id|;
      && |b| == n + 336
      && b[..17] == Ascii("CDC-RFTC-CELL-V1") + [0] && b[17..25] == BE(|s.id|, 8) && b[25..n] == s.id
      && b[n..n + 72] == VersionBytes(s) && b[n + 72..n + 112] == MacroBytes(s)
      && b[n + 112..n + 144] == EventBytes(s) && b[n + 144..n + 336] == CoveredDigests(s)
  {
    hide BE, Ascii, VersionBytes, MacroBytes, EventBytes, CoveredDigests;
    VersionsAt(s);
    MacrosAt(s);
    EventsAt(s);
    DigestsAt(s);
  }

  lemma SameVersions(a: State, b: State)
    requires VersionBytes(a) == VersionBytes(b)
    ensures a.generation == b.generation && a.frameVersion == b.frameVersion && a.reducerVersion == b.reducerVersion
    ensures a.topologyVersion == b.topologyVersion && a.clock == b.clock && a.horizon == b.horizon
    ensures a.windowStart == b.windowStart && a.windowEnd == b.windowEnd && a.freshness == b.freshness
  {
    hide BE, VersionBytes;
    VersionsAt(a);
    VersionsAt(b);
    SameNumber(a.generation, b.generation);
    SameNumber(a.frameVersion, b.frameVersion);
    SameNumber(a.reducerVersion, b.reducerVersion);
    SameNumber(a.topologyVersion, b.topologyVersion);
    SameNumber(a.clock, b.clock);
    SameNumber(a.horizon, b.horizon);
    SameNumber(a.windowStart, b.windowStart);
    SameNumber(a.windowEnd, b.windowEnd);
    SameNumber(a.freshness, b.freshness);
  }

  lemma SameMacros(a: State, b: State)
    requires MacroBytes(a) == MacroBytes(b) && InWidth(a) && InWidth(b)
    ensures Digits(a.macro.amplitude) == Digits(b.macro.amplitude)
    ensures Digits(a.macro.meanPhase) == Digits(b.macro.meanPhase)
    ensures Digits(a.macro.dispersion) == Digits(b.macro.dispersion)
    ensures a.winding == b.winding && a.count == b.count
  {
    hide BE, MacroBytes, Signed64;
    MacrosAt(a);
    MacrosAt(b);
    SameSigned(Digits(a.macro.amplitude), Digits(b.macro.amplitude));
    SameSigned(Digits(a.macro.meanPhase), Digits(b.macro.meanPhase));
    SameSigned(Digits(a.macro.dispersion), Digits(b.macro.dispersion));
    SameSigned(a.winding, b.winding);
    SameNumber(a.count, b.count);
  }

  lemma SameEvents(a: State, b: State)
    requires EventBytes(a) == EventBytes(b)
    ensures a.kind == b.kind && a.eventClock == b.eventClock && a.eventFrom == b.eventFrom && a.eventTo == b.eventTo
  {
    hide BE, EventBytes;
    EventsAt(a);
    EventsAt(b);
    SameNumber(KindCode(a.kind), KindCode(b.kind));
    SameNumber(a.eventClock, b.eventClock);
    SameNumber(a.eventFrom, b.eventFrom);
    SameNumber(a.eventTo, b.eventTo);
  }

  /** Two states with the same string are the same, their own digest aside. */
  lemma StateDetermined(a: State, b: State)
    requires InWidth(a) && InWidth(b) && StateBytes(a) == StateBytes(b)
    ensures SameCovered(a, b)
  {
    hide BE, Ascii, StateBytes, VersionBytes, MacroBytes, EventBytes, CoveredDigests, Digits;
    StateLayout(a);
    StateLayout(b);
    SameNumber(|a.id|, |b.id|);
    SameVersions(a, b);
    SameMacros(a, b);
    SameEvents(a, b);
    DigestsAt(a);
    DigestsAt(b);
  }

  /**
   * So two valid states with one digest are the same in all it covers, unless the digest collides on the two: whoever
   * alters a state, and keeps it valid, alters its digest.
   */
  lemma OneDigestOneState(H: Hash, a: State, b: State)
    requires StateValid(H, a) && StateValid(H, b) && InWidth(a) && InWidth(b) && a.digest == b.digest
    requires H(StateBytes(a)) == H(StateBytes(b)) ==> StateBytes(a) == StateBytes(b)
    ensures SameCovered(a, b)
  {
    hide StateBytes, HiddenBytes, SameCovered, InWidth;
    StateDetermined(a, b);
  }

  // ---- sectors and boundaries ----

  lemma SectorDetermined(boundary: Digest, version: U64, winding: int, boundary': Digest, version': U64, winding': int)
    requires Fits63(winding) && Fits63(winding')
    requires SectorBytes(boundary, version, winding) == SectorBytes(boundary', version', winding')
    ensures boundary == boundary' && version == version' && winding == winding'
  {
    hide BE, Ascii, Signed64;
    var d := Ascii("CDC-RFTC-SECTOR-V1") + [0];
    SplitEnd(d + boundary + BE(version, 8), Signed64(winding), d + boundary' + BE(version', 8), Signed64(winding'));
    SplitEnd(d + boundary, BE(version, 8), d + boundary', BE(version', 8));
    SplitAt(d, boundary, d, boundary');
    SameNumber(version, version');
    SameSigned(winding, winding');
  }

  lemma {:induction false} RingDetermined(a: seq<Observation>, b: seq<Observation>)
    requires |a| == |b| && RingBytes(a) == RingBytes(b)
    ensures forall k :: 0 <= k < |a| ==> a[k].member == b[k].member && a[k].succ == b[k].succ
    decreases |a|
  {
    hide BE;
    if a != [] {
      var n := |a| - 1;
      RingLength(a[..n]);
      RingLength(b[..n]);
      var x, y := LinkBytes(a[n].member, a[n].succ), LinkBytes(b[n].member, b[n].succ);
      SplitEnd(RingBytes(a[..n]), x, RingBytes(b[..n]), y);
      SplitAt(BE(a[n].member, 8), BE(a[n].succ, 8), BE(b[n].member, 8), BE(b[n].succ, 8));
      SameNumber(a[n].member, b[n].member);
      SameNumber(a[n].succ, b[n].succ);
      RingDetermined(a[..n], b[..n]);
      assert forall k :: 0 <= k < n ==> a[k] == a[..n][k] && b[k] == b[..n][k];
    }
  }

  lemma {:induction false} RingLength(a: seq<Observation>)
    ensures |RingBytes(a)| == 16 * |a|
    decreases |a|
  {
    if a != [] {
      RingLength(a[..|a| - 1]);
    }
  }

  /** Two rings with one boundary string are one ring, under one version. */
  lemma {:induction false} BoundaryDetermined(version: U64, a: seq<Observation>, version': U64, b: seq<Observation>)
    requires |a| < TWO_64 && |b| < TWO_64
    requires BoundaryHeader(version, |a|) + RingBytes(a) == BoundaryHeader(version', |b|) + RingBytes(b)
    ensures version == version' && |a| == |b|
    ensures forall k :: 0 <= k < |a| ==> a[k].member == b[k].member && a[k].succ == b[k].succ
  {
    hide BE, Ascii, RingBytes;
    var d := Ascii("CDC-RFTC-BOUNDARY-V1") + [0];
    SplitAt(BoundaryHeader(version, |a|), RingBytes(a), BoundaryHeader(version', |b|), RingBytes(b));
    SplitEnd(d + BE(version, 8), BE(|a|, 8), d + BE(version', 8), BE(|b|, 8));
    SplitAt(d, BE(version, 8), d, BE(version', 8));
    SameNumber(version, version');
    SameNumber(|a|, |b|);
    RingDetermined(a, b);
  }

  // ---- frames ----

  /** Equal in all a frame's string covers. */
  predicate SameSeen(a: Observation, b: Observation) {
    a.(phase := b.phase) == b && Digits(a.phase) == Digits(b.phase)
  }

  lemma ObservationAt(o: Observation)
    ensures var b := ObservationBytes(o);
      && |b| == 72
      && b[0..8] == BE(o.member, 8) && b[8..16] == BE(o.succ, 8) && b[16..24] == Signed64(Digits(o.phase))
      && b[24..32] == BE(o.observedAt, 8) && b[32..40] == BE(o.clock, 8) && b[40..72] == o.source
  {
    hide BE;
  }

  lemma ObservationDetermined(a: Observation, b: Observation)
    requires ObservationBytes(a) == ObservationBytes(b) && Fits63(Digits(a.phase)) && Fits63(Digits(b.phase))
    ensures SameSeen(a, b)
  {
    hide BE, ObservationBytes, Signed64, Digits;
    ObservationAt(a);
    ObservationAt(b);
    SameNumber(a.member, b.member);
    SameNumber(a.succ, b.succ);
    SameSigned(Digits(a.phase), Digits(b.phase));
    SameNumber(a.observedAt, b.observedAt);
    SameNumber(a.clock, b.clock);
  }

  lemma {:induction false} ObservationsDetermined(a: seq<Observation>, b: seq<Observation>)
    requires |a| == |b| && AllObservationBytes(a) == AllObservationBytes(b)
    requires forall k :: 0 <= k < |a| ==> Fits63(Digits(a[k].phase)) && Fits63(Digits(b[k].phase))
    ensures forall k :: 0 <= k < |a| ==> SameSeen(a[k], b[k])
    decreases |a|
  {
    hide ObservationBytes, SameSeen, Digits;
    if a != [] {
      var n := |a| - 1;
      ObservationAt(a[n]);
      ObservationAt(b[n]);
      var x, y := AllObservationBytes(a[..n]), AllObservationBytes(b[..n]);
      SplitEnd(x, ObservationBytes(a[n]), y, ObservationBytes(b[n]));
      ObservationDetermined(a[n], b[n]);
      ObservationsDetermined(a[..n], b[..n]);
      assert forall k :: 0 <= k < n ==> a[k] == a[..n][k] && b[k] == b[..n][k];
    }
  }

  function FrameNumbers(c: Config, clock: U64, freshness: U64, count: nat): seq<Byte> {
    BE(c.frameVersion, 8) + BE(c.reducerVersion, 8) + BE(c.topologyVersion, 8)
    + BE(c.windowStart, 8) + BE(c.windowEnd, 8) + BE(clock, 8) + BE(freshness, 8) + BE(count, 8)
  }

  lemma FrameNumbersAt(c: Config, clock: U64, freshness: U64, count: nat)
    ensures var b := FrameNumbers(c, clock, freshness, count);
      && |b| == 64
      && b[0..8] == BE(c.frameVersion, 8) && b[8..16] == BE(c.reducerVersion, 8)
      && b[16..24] == BE(c.topologyVersion, 8) && b[24..32] == BE(c.windowStart, 8)
      && b[32..40] == BE(c.windowEnd, 8) && b[40..48] == BE(clock, 8) && b[48..56] == BE(freshness, 8)
      && b[56..64] == BE(count, 8)
  {
    hide BE;
  }

  /** Where everything is in a frame's string: domain, name, eight numbers, the observations. */
  lemma FrameLayout(c: Config, clock: U64, freshness: U64, count: nat)
    ensures var b, n := FrameHeader(c, clock, freshness, count), 19 + |c.frameId|;
      && |b| == n + 64
      && b[..18] == Ascii("CDC-RFTC-FRAME-V1") + [0] && b[18..19] == BE(|c.frameId|, 1) && b[19..n] == c.frameId
      && b[n..n + 64] == FrameNumbers(c, clock, freshness, count)
  {
    hide BE, Ascii;
    var front := Ascii("CDC-RFTC-FRAME-V1") + [0] + BE(|c.frameId|, 1) + c.frameId;
    assert FrameHeader(c, clock, freshness, count) == front + FrameNumbers(c, clock, freshness, count);
  }

  /** Two sealed frames, as the digest sees them. */
  predicate SameFrame(a: Snapshot, b: Snapshot) {
    && a.(observations := b.observations, digest := b.digest) == b && |a.observations| == |b.observations|
    && forall k :: 0 <= k < |a.observations| ==> SameSeen(a.observations[k], b.observations[k])
  }

  lemma ByteLength(m: nat, n: nat)
    requires m < 256 && n < 256 && BE(m, 1) == BE(n, 1)
    ensures m == n
  {
    Widths();
    BERoundTrip(m, 1);
    BERoundTrip(n, 1);
  }

  /** The part of a configuration that its frames carry. */
  function ConfigOf(s: Snapshot): Config {
    Config(s.frameId, s.frameVersion, s.reducerVersion, s.topologyVersion, s.windowStart, s.windowEnd, 0, 0, 0)
  }

  /** The string a snapshot's digest is taken of. */
  function SnapshotBytes(s: Snapshot): seq<Byte> {
    FrameHeader(ConfigOf(s), s.clock, s.freshness, |s.observations|) + AllObservationBytes(s.observations)
  }

  lemma SealedBytes(H: Hash, c: Config, obs: seq<Observation>, now: U64)
    requires Seal(H, c, obs, now).Sealed?
    ensures var s := Seal(H, c, obs, now).snapshot;
      s.digest == H(SnapshotBytes(s)) && 1 <= |s.frameId| <= 63
      && forall k :: 0 <= k < |s.observations| ==> -PI < s.observations[k].phase <= PI
  {
    hide Screen, AllObservationBytes, BE, Ascii;
    SealYieldsRing(H, c, obs, now);
  }

  lemma PhaseDigits(x: real)
    requires -PI < x <= PI
    ensures Fits63(Digits(x))
  {}

  lemma {:induction false} ObservationsLength(a: seq<Observation>)
    ensures |AllObservationBytes(a)| == 72 * |a|
    decreases |a|
  {
    hide ObservationBytes;
    if a != [] {
      ObservationAt(a[|a| - 1]);
      ObservationsLength(a[..|a| - 1]);
    }
  }

  lemma SnapshotDetermined(a: Snapshot, b: Snapshot)
    requires |a.frameId| <= 63 && |b.frameId| <= 63 && |a.observations| < TWO_64 && |b.observations| < TWO_64
    requires forall k :: 0 <= k < |a.observations| ==> Fits63(Digits(a.observations[k].phase))
    requires forall k :: 0 <= k < |b.observations| ==> Fits63(Digits(b.observations[k].phase))
    requires SnapshotBytes(a) == SnapshotBytes(b)
    ensures SameFrame(a, b)
  {
    hide BE, Ascii, FrameHeader, FrameNumbers, AllObservationBytes, Digits, SameSeen;
    var c, d := ConfigOf(a), ConfigOf(b);
    var x := FrameHeader(c, a.clock, a.freshness, |a.observations|);
    var y := FrameHeader(d, b.clock, b.freshness, |b.observations|);
    FrameLayout(c, a.clock, a.freshness, |a.observations|);
    FrameLayout(d, b.clock, b.freshness, |b.observations|);
    assert x[18..19] == SnapshotBytes(a)[18..19] && y[18..19] == SnapshotBytes(b)[18..19];
    ByteLength(|a.frameId|, |b.frameId|);
    SplitAt(x, AllObservationBytes(a.observations), y, AllObservationBytes(b.observations));
    FrameNumbersAt(c, a.clock, a.freshness, |a.observations|);
    FrameNumbersAt(d, b.clock, b.freshness, |b.observations|);
    SameNumber(a.frameVersion, b.frameVersion);
    SameNumber(a.reducerVersion, b.reducerVersion);
    SameNumber(a.topologyVersion, b.topologyVersion);
    SameNumber(a.windowStart, b.windowStart);
    SameNumber(a.windowEnd, b.windowEnd);
    SameNumber(a.clock, b.clock);
    SameNumber(a.freshness, b.freshness);
    SameNumber(|a.observations|, |b.observations|);
    ObservationsDetermined(a.observations, b.observations);
  }

  /** Two sealed frames with one digest are one frame, unless the digest collides on the two. */
  lemma OneDigestOneFrame(H: Hash, c: Config, obs: seq<Observation>, now: U64, c': Config, obs': seq<Observation>,
      now': U64)
    requires Seal(H, c, obs, now).Sealed? && Seal(H, c', obs', now').Sealed? && |obs| < TWO_64 && |obs'| < TWO_64
    requires var a, b := Seal(H, c, obs, now).snapshot, Seal(H, c', obs', now').snapshot;
      a.digest == b.digest && (H(SnapshotBytes(a)) == H(SnapshotBytes(b)) ==> SnapshotBytes(a) == SnapshotBytes(b))
    ensures SameFrame(Seal(H, c, obs, now).snapshot, Seal(H, c', obs', now').snapshot)
  {
    hide Seal, SnapshotBytes, SameFrame, Digits, SnapshotValid;
    var a, b := Seal(H, c, obs, now).snapshot, Seal(H, c', obs', now').snapshot;
    SealedBytes(H, c, obs, now);
    SealedBytes(H, c', obs', now');
    SealYieldsRing(H, c, obs, now);
    SealYieldsRing(H, c', obs', now');
    forall k | 0 <= k < |a.observations| ensures Fits63(Digits(a.observations[k].phase)) {
      PhaseDigits(a.observations[k].phase);
    }
    forall k | 0 <= k < |b.observations| ensures Fits63(Digits(b.observations[k].phase)) {
      PhaseDigits(b.observations[k].phase);
    }
    SnapshotDetermined(a, b);
  }
}
