/** Exactly which frames seal, how fresh a sealed frame is, and that its digest determines what it covers. */
module FrameLaws {
  import opened Bytes
  import opened Angle
  import opened Ring
  import opened Frame

  /** A named frame with all its versions, in a window that is over, for a fitting number of observations. */
  predicate Asked(c: Config, count: nat, now: U64) {
    && 1 <= |c.frameId| <= 63 && 0 !in {c.frameVersion, c.reducerVersion, c.topologyVersion}
    && 2 <= c.minimum <= count <= c.maximum
    && c.windowStart <= c.windowEnd <= now
  }

  /** It says who it is of and who comes next, at this clock, with a source, from within the window. */
  predicate Admissible(c: Config, o: Observation, clock: U64) {
    && 0 !in {o.member, o.succ, o.clock} && o.clock == clock && o.source != ZeroDigest()
    && c.windowStart <= o.observedAt && o.observedAt <= c.windowEnd
  }

  /**
   * Exactly these frames seal: asked for, admissible, of one clock, none too old, the links one ring of the
   * members.
   */
  lemma SealsIff(H: Hash, c: Config, obs: seq<Observation>, now: U64)
    ensures Seal(H, c, obs, now).Sealed?
       <==> && Asked(c, |obs|, now) && IsRing(Members(obs), Succs(obs))
            && forall k :: 0 <= k < |obs| ==>
                 Admissible(c, obs[k], obs[0].clock) && now - obs[k].observedAt <= c.staleAfter
  {
    hide IsRing, Screened, Seal;
    if Asked(c, |obs|, now) {
      RingIsDistinct(Members(obs), Succs(obs));
      ScreenedIsAdmissible(c, obs);
      var k :| 0 <= k < |obs| && Oldest(obs) == obs[k].observedAt;
      if Screened(c, obs) && FreshEnough(c, obs, now) {
        SealDecidesRing(H, c, obs, now);
      }
    }
    if Seal(H, c, obs, now).Sealed? {
      SealYieldsRing(H, c, obs, now);
      SealedAsked(H, c, obs, now);
    }
  }

  lemma RingIsDistinct(members: seq<nat>, succs: seq<nat>)
    ensures IsRing(members, succs) ==> Distinct(members)
  {}

  lemma SealedAsked(H: Hash, c: Config, obs: seq<Observation>, now: U64)
    requires Seal(H, c, obs, now).Sealed?
    ensures Asked(c, |obs|, now) && Screened(c, obs) && FreshEnough(c, obs, now)
  {
    hide Screened, Screen, GoesRound, Age;
    ScreenedIsFine(c, obs);
  }

  lemma ScreenedIsAdmissible(c: Config, obs: seq<Observation>)
    requires obs != []
    ensures Screened(c, obs)
       <==> Distinct(Members(obs)) && forall k :: 0 <= k < |obs| ==> Admissible(c, obs[k], obs[0].clock)
  {}

  /** A frame is held as stale exactly when all is in order, its links aside, but some observation is too old. */
  lemma StaleIff(H: Hash, c: Config, obs: seq<Observation>, now: U64)
    ensures Seal(H, c, obs, now) == Refused(HoldStale)
       <==> && Asked(c, |obs|, now) && Distinct(Members(obs))
            && (forall k :: 0 <= k < |obs| ==> Admissible(c, obs[k], obs[0].clock))
            && exists k :: 0 <= k < |obs| && now - obs[k].observedAt > c.staleAfter
  {
    hide Seal, Distinct, Screened, Members;
    StaleAsked(H, c, obs, now);
    if obs != [] {
      ScreenedIsAdmissible(c, obs);
      var k :| 0 <= k < |obs| && Oldest(obs) == obs[k].observedAt;
    }
  }

  lemma StaleAsked(H: Hash, c: Config, obs: seq<Observation>, now: U64)
    ensures Seal(H, c, obs, now) == Refused(HoldStale)
       <==> Asked(c, |obs|, now) && Screened(c, obs) && !FreshEnough(c, obs, now)
  {
    hide Screen, Screened, GoesRound, Age;
    ScreenNotStale(c, obs, 0);
    if obs != [] {
      ScreenedIsFine(c, obs);
    }
  }

  lemma {:induction false} ScreenNotStale(c: Config, obs: seq<Observation>, i: nat)
    requires i <= |obs|
    ensures Screen(c, obs, i) != HoldStale
    decreases |obs| - i
  {
    if i < |obs| {
      ScreenNotStale(c, obs, i + 1);
    }
  }

  /** A sealed frame's freshness is the age of its oldest observation. */
  lemma FreshnessIsAge(H: Hash, c: Config, obs: seq<Observation>, now: U64)
    requires Seal(H, c, obs, now).Sealed?
    ensures var s := Seal(H, c, obs, now).snapshot;
      && (forall k :: 0 <= k < |obs| ==> now - obs[k].observedAt <= s.freshness <= c.staleAfter)
      && exists k :: 0 <= k < |obs| && now - obs[k].observedAt == s.freshness
  {
    hide Screen, GoesRound, FrameHeader, AllObservationBytes;
    SealsIff(H, c, obs, now);
    var k :| 0 <= k < |obs| && Oldest(obs) == obs[k].observedAt;
  }
}
