/**
 * Sealing unordered observations into one oriented-ring snapshot: every observation is screened, then
 * the successor links are walked from the least member.
 */
module Frame {
  import opened Bytes
  import opened Angle
  import opened Ring

  const ID_MAX: nat := 63

  type Name = seq<Byte>

  datatype Observation = Observation(
    member: U64, succ: U64, phase: real, observedAt: U64, clock: U64, source: Digest)

  datatype Config = Config(
    frameId: Name, frameVersion: U64, reducerVersion: U64, topologyVersion: U64,
    windowStart: U64, windowEnd: U64, staleAfter: U64, minimum: nat, maximum: nat)

  datatype Snapshot = Snapshot(
    frameId: Name, frameVersion: U64, reducerVersion: U64, topologyVersion: U64,
    windowStart: U64, windowEnd: U64, clock: U64, freshness: U64,
    observations: seq<Observation>, digest: Digest)

  datatype Status = Fine | HoldStale | BadArgument | BadCount | Duplicate | NoRing | BadWindow | BadClock

  datatype Sealed = Sealed(snapshot: Snapshot) | Refused(status: Status)

  predicate NameValid(name: Name) {
    1 <= |name| <= ID_MAX
  }

  predicate ConfigValid(c: Config) {
    && NameValid(c.frameId)
    && c.frameVersion != 0 && c.reducerVersion != 0 && c.topologyVersion != 0
    && c.windowStart <= c.windowEnd
    && 2 <= c.minimum <= c.maximum
  }

  function Members(obs: seq<Observation>): (ids: seq<nat>)
    ensures |ids| == |obs| && forall k :: 0 <= k < |obs| ==> ids[k] == obs[k].member
  {
    seq(|obs|, k requires 0 <= k < |obs| => obs[k].member)
  }

  function Succs(obs: seq<Observation>): (ids: seq<nat>)
    ensures |ids| == |obs| && forall k :: 0 <= k < |obs| ==> ids[k] == obs[k].succ
  {
    seq(|obs|, k requires 0 <= k < |obs| => obs[k].succ)
  }

  /** One observation lies in the window and says who and when it is. */
  predicate InWindow(c: Config, o: Observation) {
    && o.member != 0 && o.succ != 0
    && c.windowStart <= o.observedAt <= c.windowEnd
    && o.clock != 0 && o.source != ZeroDigest()
  }

  /** The first complaint about the observations from i on, in their order. */
  function Screen(c: Config, obs: seq<Observation>, i: nat): Status
    requires i <= |obs|
    decreases |obs| - i
  {
    if i == |obs| then Fine
    else if !InWindow(c, obs[i]) then BadWindow
    else if obs[i].clock != obs[0].clock then BadClock
    else if exists j :: i < j < |obs| && obs[j].member == obs[i].member then Duplicate
    else Screen(c, obs, i + 1)
  }

  function Oldest(obs: seq<Observation>): (t: U64)
    requires obs != []
    ensures forall k :: 0 <= k < |obs| ==> t <= obs[k].observedAt
    ensures exists k :: 0 <= k < |obs| && t == obs[k].observedAt
  {
    if |obs| == 1 then obs[0].observedAt
    else
      var front := obs[..|obs| - 1];
      var t := Oldest(front);
      var last := obs[|obs| - 1].observedAt;
      assert forall k :: 0 <= k < |front| ==> front[k] == obs[k];
      if last < t then last else t
  }

  /** The index of the least member. */
  function Anchor(obs: seq<Observation>): (i: nat)
    requires obs != []
    ensures IsLeast(Members(obs), i)
  {
    if |obs| == 1 then 0
    else
      var front := obs[..|obs| - 1];
      var i := Anchor(front);
      assert forall k :: 0 <= k < |front| ==> front[k] == obs[k] && Members(front)[k] == Members(obs)[k];
      if obs[|obs| - 1].member < obs[i].member then |obs| - 1 else i
  }

  function Wrapped(o: Observation): Observation {
    o.(phase := Wrap(o.phase))
  }

  /** The observations in the order of the walk, with wrapped phases. */
  function Ordered(obs: seq<Observation>, p: seq<nat>): (r: seq<Observation>)
    requires forall k :: 0 <= k < |p| ==> p[k] < |obs|
    ensures |r| == |p| && forall k :: 0 <= k < |p| ==> r[k] == Wrapped(obs[p[k]])
  {
    seq(|p|, k requires 0 <= k < |p| => Wrapped(obs[p[k]]))
  }

  // ---- the digest ----

  /** A two's-complement 64-bit field. */
  function Signed64(x: int): seq<Byte> {
    BE(x % TWO_64, 8)
  }

  function ObservationBytes(o: Observation): seq<Byte> {
    BE(o.member, 8) + BE(o.succ, 8) + Signed64(Round(o.phase * 1000000000000.0))
    + BE(o.observedAt, 8) + BE(o.clock, 8) + o.source
  }

  function AllObservationBytes(obs: seq<Observation>): seq<Byte> {
    if obs == [] then [] else AllObservationBytes(obs[..|obs| - 1]) + ObservationBytes(obs[|obs| - 1])
  }

  function FrameHeader(c: Config, clock: U64, freshness: U64, count: nat): seq<Byte> {
    Ascii("CDC-RFTC-FRAME-V1") + [0] + BE(|c.frameId|, 1) + c.frameId
    + BE(c.frameVersion, 8) + BE(c.reducerVersion, 8) + BE(c.topologyVersion, 8)
    + BE(c.windowStart, 8) + BE(c.windowEnd, 8) + BE(clock, 8) + BE(freshness, 8) + BE(count, 8)
  }

  function SnapshotOf(H: Hash, c: Config, clock: U64, freshness: U64, ordered: seq<Observation>): Snapshot {
    Snapshot(c.frameId, c.frameVersion, c.reducerVersion, c.topologyVersion, c.windowStart, c.windowEnd,
             clock, freshness, ordered,
             H(FrameHeader(c, clock, freshness, |ordered|) + AllObservationBytes(ordered)))
  }

  // ---- sealing ----

  function Seal(H: Hash, c: Config, obs: seq<Observation>, now: U64): Sealed {
    if !ConfigValid(c) then Refused(BadArgument)
    else if !(c.minimum <= |obs| <= c.maximum) then Refused(BadCount)
    else if now < c.windowEnd then Refused(BadWindow)
    else if Screen(c, obs, 0) != Fine then Refused(Screen(c, obs, 0))
    else if !FreshEnough(c, obs, now) then Refused(HoldStale)
    else if !GoesRound(Members(obs), Succs(obs), Anchor(obs)) then Refused(NoRing)
    else
      var ring := Tour(Members(obs), Succs(obs), Anchor(obs));
      Sealed(SnapshotOf(H, c, obs[0].clock, Age(obs, now), Ordered(obs, ring)))
  }

  /** How old the oldest observation is. */
  function Age(obs: seq<Observation>, now: U64): U64
    requires obs != []
  {
    (now - Oldest(obs)) % TWO_64
  }

  predicate FreshEnough(c: Config, obs: seq<Observation>, now: U64)
    requires obs != []
  {
    Age(obs, now) <= c.staleAfter
  }

  /** What screening establishes: all in the window, one clock, distinct members. */
  predicate Screened(c: Config, obs: seq<Observation>) {
    && (forall k :: 0 <= k < |obs| ==> InWindow(c, obs[k]) && obs[k].clock == obs[0].clock)
    && Distinct(Members(obs))
  }

  lemma {:induction false} ScreenFine(c: Config, obs: seq<Observation>, i: nat)
    requires i <= |obs|
    ensures Screen(c, obs, i) == Fine <==>
      && (forall k :: i <= k < |obs| ==> InWindow(c, obs[k]) && obs[k].clock == obs[0].clock)
      && (forall j, k :: i <= j < k < |obs| ==> obs[j].member != obs[k].member)
    decreases |obs| - i
  {
    if i < |obs| {
      ScreenFine(c, obs, i + 1);
    }
  }

  lemma {:induction false} ScreenedIsFine(c: Config, obs: seq<Observation>)
    ensures Screen(c, obs, 0) == Fine <==> Screened(c, obs)
  {
    ScreenFine(c, obs, 0);
    assert forall k :: 0 <= k < |obs| ==> Members(obs)[k] == obs[k].member;
  }

  // ---- what sealing yields ----

  /** A snapshot's observations are a ring in order: each names the next, the last one the first. */
  predicate InOrder(obs: seq<Observation>) {
    forall k :: 0 <= k < |obs| ==> obs[k].succ == obs[After(k, |obs|)].member
  }

  /** What every sealed snapshot satisfies. */
  predicate SnapshotValid(s: Snapshot) {
    && |s.observations| >= 2
    && InOrder(s.observations) && Distinct(Members(s.observations))
    && IsLeast(Members(s.observations), 0)
    && (forall k :: 0 <= k < |s.observations| ==> -PI < s.observations[k].phase <= PI)
    && (forall k :: 0 <= k < |s.observations| ==> s.observations[k].clock == s.clock)
    && s.windowStart <= s.windowEnd
  }

  /** The snapshot lists exactly the given observations, each once, with its phase wrapped. */
  ghost predicate ListsAll(s: Snapshot, obs: seq<Observation>) {
    && |s.observations| == |obs|
    && exists p :: Permutes(p, |obs|) && s.observations == Ordered(obs, p)
  }

  /**
   * A sealed snapshot is the ring the links form, from its least member on; sealing refuses every other link
   * structure.
   */
  lemma SealYieldsRing(H: Hash, c: Config, obs: seq<Observation>, now: U64)
    requires Seal(H, c, obs, now).Sealed?
    ensures var s := Seal(H, c, obs, now).snapshot;
      && SnapshotValid(s) && ListsAll(s, obs) && IsRing(Members(obs), Succs(obs))
      && s.frameId == c.frameId && s.frameVersion == c.frameVersion && s.reducerVersion == c.reducerVersion
      && s.topologyVersion == c.topologyVersion && s.windowStart == c.windowStart && s.windowEnd == c.windowEnd
      && s.clock == obs[0].clock
  {
    hide Seal, Screened, GoesRound, Tour, Anchor, Nonzero;
    var freshness := SealedParts(H, c, obs, now);
    var members, succs, anchor := Members(obs), Succs(obs), Anchor(obs);
    RingIsRound(members, succs, anchor);
    RoundIsCycle(members, succs, anchor);
    var p := Tour(members, succs, anchor);
    RingListed(c, obs, p);
  }

  lemma SealedParts(H: Hash, c: Config, obs: seq<Observation>, now: U64) returns (freshness: U64)
    requires Seal(H, c, obs, now).Sealed?
    ensures |obs| >= 2 && ConfigValid(c) && Screened(c, obs) && Distinct(Members(obs))
    ensures Nonzero(Members(obs)) && Nonzero(Succs(obs))
    ensures GoesRound(Members(obs), Succs(obs), Anchor(obs))
    ensures Tour(Members(obs), Succs(obs), Anchor(obs))[0] == Anchor(obs)
    ensures Seal(H, c, obs, now).snapshot
         == SnapshotOf(H, c, obs[0].clock, freshness, Ordered(obs, Tour(Members(obs), Succs(obs), Anchor(obs))))
  {
    hide Screen, SnapshotOf, Age, FreshEnough, GoesRound;
    ScreenedIsFine(c, obs);
    freshness := Age(obs, now);
  }

  lemma RingListed(c: Config, obs: seq<Observation>, p: seq<nat>)
    requires Screened(c, obs) && |obs| >= 2 && Cycle(Members(obs), Succs(obs), p) && IsLeast(Members(obs), p[0])
    ensures var r := Ordered(obs, p);
      && InOrder(r) && Distinct(Members(r)) && IsLeast(Members(r), 0)
      && (forall k :: 0 <= k < |r| ==> -PI < r[k].phase <= PI && r[k].clock == obs[0].clock)
  {
    var r := Ordered(obs, p);
    forall k | 0 <= k < |r| ensures r[k].succ == r[After(k, |r|)].member {
      assert Succs(obs)[p[k]] == Members(obs)[p[After(k, |p|)]];
    }
    forall j, k | 0 <= j < k < |r| ensures Members(r)[j] != Members(r)[k] {
      assert Members(obs)[p[j]] != Members(obs)[p[k]];
    }
    forall k | 0 <= k < |r| ensures -PI < r[k].phase <= PI && Members(r)[0] <= Members(r)[k] {
      var turns := WrapTurns(obs[p[k]].phase);
      assert Members(obs)[p[0]] <= Members(obs)[p[k]];
    }
  }

  /** Screened, fresh observations in sufficient number are sealed exactly when their links form one ring. */
  lemma SealDecidesRing(H: Hash, c: Config, obs: seq<Observation>, now: U64)
    requires ConfigValid(c) && c.minimum <= |obs| <= c.maximum && now >= c.windowEnd
    requires Screened(c, obs) && FreshEnough(c, obs, now)
    ensures Seal(H, c, obs, now).Sealed? <==> IsRing(Members(obs), Succs(obs))
    ensures !Seal(H, c, obs, now).Sealed? ==> Seal(H, c, obs, now).status == NoRing
  {
    ScreenedIsFine(c, obs);
    RingIsRound(Members(obs), Succs(obs), Anchor(obs));
  }

  // ---- arrival order ----

  /** The same observations, arriving in the order q. */
  predicate Arrives(obs: seq<Observation>, obs': seq<Observation>, q: seq<nat>) {
    |obs'| == |obs| && Permutes(q, |obs|) && forall k :: 0 <= k < |obs| ==> obs'[k] == obs[q[k]]
  }

  lemma ArrivesBack(obs: seq<Observation>, obs': seq<Observation>, q: seq<nat>) returns (b: seq<nat>)
    requires Arrives(obs, obs', q)
    ensures Arrives(obs', obs, b)
  {
    b := seq(|q|, k requires 0 <= k < |q| => Find(q, k));
    forall k | 0 <= k < |q| ensures b[k] < |q| && q[b[k]] == k {
      var j := Onto(q, |q|, k);
      assert k in q;
    }
  }

  lemma ScreenedArrives(c: Config, obs: seq<Observation>, obs': seq<Observation>, q: seq<nat>)
    requires Arrives(obs, obs', q) && Screened(c, obs)
    ensures Screened(c, obs')
  {
    forall j, k | 0 <= j < k < |obs'| ensures Members(obs')[j] != Members(obs')[k] {
      assert Members(obs)[q[j]] != Members(obs)[q[k]];
    }
  }

  lemma OldestArrives(obs: seq<Observation>, obs': seq<Observation>, q: seq<nat>)
    requires obs != [] && Arrives(obs, obs', q)
    ensures Oldest(obs) == Oldest(obs')
  {
    var j :| 0 <= j < |obs| && Oldest(obs) == obs[j].observedAt;
    var k := Onto(q, |q|, j);
    assert obs'[k] == obs[j];
  }

  lemma AnchorArrives(obs: seq<Observation>, obs': seq<Observation>, q: seq<nat>)
    requires obs != [] && Arrives(obs, obs', q) && Distinct(Members(obs))
    ensures q[Anchor(obs')] == Anchor(obs)
  {
    var j := Onto(q, |q|, Anchor(obs));
    assert Members(obs')[Anchor(obs')] <= Members(obs')[j];
    LeastIsUnique(Members(obs), q[Anchor(obs')], Anchor(obs));
  }

  lemma TourArrives(obs: seq<Observation>, obs': seq<Observation>, q: seq<nat>)
    requires obs != [] && Arrives(obs, obs', q) && Distinct(Members(obs))
    requires GoesRound(Members(obs), Succs(obs), Anchor(obs))
    ensures GoesRound(Members(obs'), Succs(obs'), Anchor(obs'))
    ensures Ordered(obs', Tour(Members(obs'), Succs(obs'), Anchor(obs')))
         == Ordered(obs, Tour(Members(obs), Succs(obs), Anchor(obs)))
  {
    hide GoesRound;
    var m, s, m', s' := Members(obs), Succs(obs), Members(obs'), Succs(obs');
    AnchorArrives(obs, obs', q);
    assert Reordered(m, m', q) && Reordered(s, s', q);
    TourReordered(m, s, m', s', q, Anchor(obs), Anchor(obs'));
    var p, p' := Tour(m, s, Anchor(obs)), Tour(m', s', Anchor(obs'));
    TourStays(m', s', Anchor(obs'));
    forall k | 0 <= k < |obs| ensures obs'[p'[k]] == obs[p[k]] {}
  }

  lemma TourStays(members: seq<nat>, succs: seq<nat>, start: nat)
    requires |succs| == |members| && start < |members| && GoesRound(members, succs, start)
    ensures forall k :: 0 <= k < |members| ==> Tour(members, succs, start)[k] < |members|
  {}

  /** When sealing succeeds, and with what. */
  lemma SealIs(H: Hash, c: Config, obs: seq<Observation>, now: U64)
    ensures Seal(H, c, obs, now).Sealed? <==>
      && ConfigValid(c) && c.minimum <= |obs| <= c.maximum && now >= c.windowEnd
      && Screened(c, obs) && FreshEnough(c, obs, now) && GoesRound(Members(obs), Succs(obs), Anchor(obs))
    ensures Seal(H, c, obs, now).Sealed? ==>
      && Seal(H, c, obs, now) == Sealed(SnapshotOf(H, c, obs[0].clock, Age(obs, now),
           Ordered(obs, Tour(Members(obs), Succs(obs), Anchor(obs)))))
  {
    hide Screen, Screened, SnapshotOf, FreshEnough, Age, GoesRound, Tour, Anchor, Ordered, Members, Succs;
    ScreenedIsFine(c, obs);
  }

  /** The order in which observations arrive decides neither whether sealing succeeds nor what it yields. */
  lemma SealIgnoresArrival(H: Hash, c: Config, obs: seq<Observation>, obs': seq<Observation>, q: seq<nat>, now: U64)
    requires Arrives(obs, obs', q) && Seal(H, c, obs, now).Sealed?
    ensures Seal(H, c, obs', now) == Seal(H, c, obs, now)
  {
    hide Seal, Screened, SnapshotOf, Oldest, GoesRound, Tour, Ordered, ConfigValid, Members, Succs;
    var freshness := SealedParts(H, c, obs, now);
    ScreenedArrives(c, obs, obs', q);
    OldestArrives(obs, obs', q);
    TourArrives(obs, obs', q);
    OneClock(c, obs, q[0]);
    SealAgrees(H, c, obs, obs', now);
  }

  lemma AgeAgrees(obs: seq<Observation>, obs': seq<Observation>, now: U64)
    requires obs != [] && obs' != [] && Oldest(obs) == Oldest(obs')
    ensures Age(obs, now) == Age(obs', now)
  {}

  lemma SealAgrees(H: Hash, c: Config, obs: seq<Observation>, obs': seq<Observation>, now: U64)
    requires obs != [] && |obs'| == |obs| && obs'[0].clock == obs[0].clock && Oldest(obs) == Oldest(obs')
    requires Seal(H, c, obs, now).Sealed? && Screened(c, obs')
    requires GoesRound(Members(obs'), Succs(obs'), Anchor(obs'))
    requires GoesRound(Members(obs), Succs(obs), Anchor(obs))
    requires Ordered(obs', Tour(Members(obs'), Succs(obs'), Anchor(obs')))
          == Ordered(obs, Tour(Members(obs), Succs(obs), Anchor(obs)))
    ensures Seal(H, c, obs', now) == Seal(H, c, obs, now)
  {
    hide Seal, Screened, SnapshotOf, Oldest, GoesRound, Tour, Ordered, ConfigValid, Members, Succs, Anchor, Age;
    AgeAgrees(obs, obs', now);
    SealIs(H, c, obs, now);
    SealIs(H, c, obs', now);
  }

  lemma OneClock(c: Config, obs: seq<Observation>, k: nat)
    requires Screened(c, obs) && k < |obs|
    ensures obs[k].clock == obs[0].clock
  {}

  lemma RefusalIgnoresArrival(H: Hash, c: Config, obs: seq<Observation>, obs': seq<Observation>, q: seq<nat>, now: U64)
    requires Arrives(obs, obs', q) && Seal(H, c, obs, now).Refused?
    ensures Seal(H, c, obs', now).Refused?
  {
    hide Seal;
    var b := ArrivesBack(obs, obs', q);
    if Seal(H, c, obs', now).Sealed? {
      SealIgnoresArrival(H, c, obs', obs, b, now);
    }
  }

  // ---- the program ----

  /** Screens every observation, finding the least member and the oldest observation on the way. */
  method ScreenAll(c: Config, obs: seq<Observation>) returns (status: Status, anchor: nat, oldest: U64)
    requires obs != []
    ensures status == Screen(c, obs, 0)
    ensures status == Fine ==> anchor == Anchor(obs) && oldest == Oldest(obs)
  {
    hide Anchor, Oldest, InWindow;
    var n := |obs|;
    oldest := obs[0].observedAt;
    anchor := 0;
    var i := 0;
    while i < n
      invariant 0 <= i <= n && anchor < n
      invariant Screen(c, obs, i) == Screen(c, obs, 0)
      invariant forall k :: 0 <= k < i ==> obs[anchor].member <= obs[k].member && oldest <= obs[k].observedAt
      invariant exists k :: 0 <= k < n && oldest == obs[k].observedAt
      invariant forall j, k :: 0 <= j < i && j < k < n ==> obs[j].member != obs[k].member
    {
      if !InWindow(c, obs[i]) {
        return BadWindow, anchor, oldest;
      }
      if obs[i].clock != obs[0].clock {
        return BadClock, anchor, oldest;
      }
      if obs[i].member < obs[anchor].member {
        anchor := i;
      }
      if obs[i].observedAt < oldest {
        oldest := obs[i].observedAt;
      }
      var j := i + 1;
      while j < n
        invariant i < j <= n
        invariant forall k :: i < k < j ==> obs[i].member != obs[k].member
      {
        if obs[i].member == obs[j].member {
          return Duplicate, anchor, oldest;
        }
        j := j + 1;
      }
      i := i + 1;
    }
    status := Fine;
    LeastIsUnique(Members(obs), anchor, Anchor(obs));
    OldestIs(obs, oldest);
  }

  lemma OldestIs(obs: seq<Observation>, t: U64)
    requires obs != [] && (forall k :: 0 <= k < |obs| ==> t <= obs[k].observedAt)
    requires exists k :: 0 <= k < |obs| && t == obs[k].observedAt
    ensures t == Oldest(obs)
  {}

  /** Walks the successors, filling `ordered` and marking `used`. */
  method WalkRing(obs: seq<Observation>, anchor: nat) returns (ok: bool, ordered: array<Observation>)
    requires anchor < |obs|
    ensures ok <==> GoesRound(Members(obs), Succs(obs), anchor)
    ensures ok ==> ordered[..] == Ordered(obs, Tour(Members(obs), Succs(obs), anchor))
  {
    hide GoesRound, Find, Walk, Wrapped, Distinct;
    var n := |obs|;
    ghost var m, s := Members(obs), Succs(obs);
    WalkStart(m, s, anchor);
    ordered := new Observation[n](k requires 0 <= k < n => obs[k]);
    var used := new bool[n](_ => false);
    ghost var visited: seq<nat> := [];
    var current := anchor;
    var i := 0;
    while i < n
      invariant 0 <= i <= n && current < n && current == Walk(m, s, anchor, i)
      invariant forall k :: 0 <= k <= i ==> Walk(m, s, anchor, k) < n
      invariant forall k :: 0 <= k < i ==> ordered[k] == Wrapped(obs[Walk(m, s, anchor, k)])
      invariant |visited| == i && Distinct(visited) && forall k :: 0 <= k < i ==> visited[k] == Walk(m, s, anchor, k)
      invariant forall x :: 0 <= x < n ==> (used[x] <==> x in visited)
    {
      if used[current] {
        Repeats(m, s, anchor, visited);
        return false, ordered;
      }
      used[current] := true;
      DistinctNext(visited, current);
      visited := visited + [current];
      ordered[i] := Wrapped(obs[current]);
      var next := FindMember(obs, obs[current].succ);
      WalkNext(m, s, anchor, i);
      if next == n {
        Stuck(m, s, anchor, i + 1);
        return false, ordered;
      }
      current := next;
      i := i + 1;
    }
    if current != anchor {
      NotBack(m, s, anchor);
      return false, ordered;
    }
    Returns(m, s, anchor, visited);
    ok := true;
  }

  lemma WalkStart(m: seq<nat>, s: seq<nat>, start: nat)
    requires |s| == |m| && start < |m|
    ensures Walk(m, s, start, 0) == start && Distinct([])
  {}

  lemma WalkNext(m: seq<nat>, s: seq<nat>, start: nat, k: nat)
    requires |s| == |m| && start < |m| && Walk(m, s, start, k) < |m|
    ensures Walk(m, s, start, k + 1) == Find(m, s[Walk(m, s, start, k)])
  {}

  lemma DistinctNext(ids: seq<nat>, id: nat)
    requires Distinct(ids) && id !in ids
    ensures Distinct(ids + [id])
  {}

  lemma Repeats(m: seq<nat>, s: seq<nat>, start: nat, visited: seq<nat>)
    requires |s| == |m| && start < |m| && |visited| < |m|
    requires forall k :: 0 <= k < |visited| ==> visited[k] == Walk(m, s, start, k)
    requires Walk(m, s, start, |visited|) in visited
    ensures !GoesRound(m, s, start)
  {}

  lemma Returns(m: seq<nat>, s: seq<nat>, start: nat, visited: seq<nat>)
    requires |s| == |m| && start < |m| && |visited| == |m| && Distinct(visited)
    requires forall k :: 0 <= k < |visited| ==> visited[k] == Walk(m, s, start, k) < |m|
    requires Walk(m, s, start, |m|) == start
    ensures GoesRound(m, s, start)
  {
    forall j, k | 0 <= j < k < |m| ensures Walk(m, s, start, j) != Walk(m, s, start, k) {
      assert visited[j] != visited[k];
    }
  }

  method FindMember(obs: seq<Observation>, id: U64) returns (k: nat)
    ensures k == Find(Members(obs), id)
  {
    k := 0;
    while k < |obs|
      invariant 0 <= k <= |obs|
      invariant forall j :: 0 <= j < k ==> obs[j].member != id
    {
      if obs[k].member == id {
        FindIs(Members(obs), id, k);
        return;
      }
      k := k + 1;
    }
  }

  lemma {:induction false} FindIs(ids: seq<nat>, id: nat, k: nat)
    requires k < |ids| && ids[k] == id && forall j :: 0 <= j < k ==> ids[j] != id
    ensures Find(ids, id) == k
  {
    if k > 0 {
      FindIs(ids[1..], id, k - 1);
    }
  }

  /** Screens, walks and digests: the whole of sealing. */
  method SealFrame(H: Hash, c: Config, obs: seq<Observation>, now: U64) returns (r: Sealed)
    ensures r == Seal(H, c, obs, now)
  {
    hide Screen, Anchor, Oldest, GoesRound, Tour, SnapshotOf, Members, Succs;
    if !ConfigValid(c) {
      return Refused(BadArgument);
    }
    if |obs| < c.minimum || |obs| > c.maximum {
      return Refused(BadCount);
    }
    if now < c.windowEnd {
      return Refused(BadWindow);
    }
    var status, anchor, oldest := ScreenAll(c, obs);
    if status != Fine {
      return Refused(status);
    }
    var age: U64 := (now - oldest) % TWO_64;
    if age > c.staleAfter {
      return Refused(HoldStale);
    }
    var ok, ordered := WalkRing(obs, anchor);
    if !ok {
      return Refused(NoRing);
    }
    var snapshot := DigestFrame(H, c, obs[0].clock, age, ordered);
    r := Sealed(snapshot);
  }

  /** Digests the frame field by field, in ring order. */
  method DigestFrame(H: Hash, c: Config, clock: U64, freshness: U64, ordered: array<Observation>) returns (s: Snapshot)
    ensures s == SnapshotOf(H, c, clock, freshness, ordered[..])
  {
    hide FrameHeader, ObservationBytes;
    var bytes := FrameHeader(c, clock, freshness, ordered.Length);
    var i := 0;
    while i < ordered.Length
      invariant 0 <= i <= ordered.Length
      invariant bytes == FrameHeader(c, clock, freshness, ordered.Length) + AllObservationBytes(ordered[..i])
    {
      assert ordered[..i + 1][..i] == ordered[..i];
      bytes := bytes + ObservationBytes(ordered[i]);
      i := i + 1;
    }
    assert ordered[..i] == ordered[..];
    s := Snapshot(c.frameId, c.frameVersion, c.reducerVersion, c.topologyVersion, c.windowStart, c.windowEnd,
                  clock, freshness, ordered[..], H(bytes));
  }
}
