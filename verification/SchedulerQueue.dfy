/**
 * What is in the queue. In every reachable scheduler each queued event is one its cell has a place for, of the cell's
 * own frame version and within its horizon, and all readings queued for one frame of a leaf agree on what frame it is.
 */
module SchedulerQueue {
  import opened Bytes
  import opened Options
  import Ring
  import opened Frame
  import opened Topology
  import opened Cell
  import opened Scheduler
  import opened SchedulerOrder
  import opened SchedulerLaws
  import opened SchedulerWorld
  import opened SchedulerRuns
  import opened SchedulerReport

  /** The witness may stand for a transition up to this clock, within one frame version. */
  predicate Witnesses(x: Witness, clock: U64) {
    && x.kind in {LocalDeformation, PhaseSlip} && 0 < x.clock && x.clock <= clock
    && 0 !in {x.from, x.to} && x.evidence != ZeroDigest()
  }

  /** A leaf of this name has this member, and the reading is one of its frames, taken in its window and in time. */
  predicate FitsLeaf(c: Spec, r: Reading) {
    && c.leaf && c.id == r.cell && r.member in c.members && r.frameVersion == c.frameVersion
    && 0 < r.clock && r.clock <= c.horizon && r.source != ZeroDigest()
    && r.windowStart <= r.observedAt && r.observedAt <= r.windowEnd && r.windowEnd <= r.sealTime
    && r.sealTime - r.observedAt <= c.staleAfter
    && (r.attached.Some? ==> Witnesses(r.attached.value, r.clock))
  }

  predicate FitsCell(c: Spec, v: Event) {
    match v
    case Observed(r, _) => FitsLeaf(c, r)
    case Attested(id, clock, x, _) => c.id == id && 0 < clock && clock <= c.horizon && Witnesses(x, clock)
  }

  predicate HasPlace(f: seq<Spec>, v: Event) {
    exists i :: 0 <= i < |f| && FitsCell(f[i], v)
  }

  predicate ForOneFrame(v: Event, u: Event) {
    v.Observed? && u.Observed? && v.reading.cell == u.reading.cell && v.reading.clock == u.reading.clock
  }

  /** Two readings for one frame of one leaf belong to one batch. */
  predicate Agree(v: Event, u: Event) {
    ForOneFrame(v, u) ==> ReadingBatch(v.reading) == ReadingBatch(u.reading)
  }

  /** And carry no two witnesses. */
  predicate SameWitness(v: Event, u: Event) {
    ForOneFrame(v, u) && v.reading.attached.Some? && u.reading.attached.Some? ==>
      v.reading.attached == u.reading.attached
  }

  /** No cell was imported, each queued event has a place, and any two agree. */
  predicate QueueInv(s: Sched) {
    && (forall i :: 0 <= i < |s.m.works| ==> !s.m.works[i].imported)
    && (forall k :: 0 <= k < |s.q| ==> HasPlace(s.f, s.q[k]))
    && (forall j, k :: 0 <= j < |s.q| && 0 <= k < |s.q| ==> Agree(s.q[j], s.q[k]))
  }

  predicate WitnessesAgree(q: seq<Event>) {
    forall j, k :: 0 <= j < |q| && 0 <= k < |q| ==> SameWitness(q[j], q[k])
  }

  // ---- publishing ----

  lemma {:induction false} AppendAgrees(q: seq<Event>, r: Reading, k: nat, sequence: nat)
    requires k <= |q| && QueueVerdict(q, r, k) == Append
    ensures forall j :: k <= j < |q| ==> Agree(q[j], Observed(r, sequence)) && SameWitness(q[j], Observed(r, sequence))
    decreases |q| - k
  {
    if k < |q| {
      AppendAgrees(q, r, k + 1, sequence);
    }
  }

  /** The queued reading that gets the witness is this one but for it; those before it do not disagree. */
  lemma {:induction false} AttachAgrees(q: seq<Event>, r: Reading, k: nat)
    requires k <= |q| && QueueVerdict(q, r, k).Attach?
    ensures var at := QueueVerdict(q, r, k).at;
      && SameCore(q[at].reading, r) && r.attached.Some? && q[at].reading.attached.None?
      && forall j :: k <= j < at ==> SameWitness(q[j], Observed(r, 0))
    decreases |q| - k
  {
    hide SameCore;
    if !SameFrame(q[k], r) || q[k].reading.member != r.member {
      AttachAgrees(q, r, k + 1);
    }
  }

  /** What the checks before the queue establish of a reading that passes them. */
  lemma PassedFits(s: Sched, r: Reading, now: U64)
    requires Shaped(s.f, s.m) && Publish(s, r, now).s != s
    requires forall i :: 0 <= i < |s.m.works| ==> !s.m.works[i].imported
    ensures HasPlace(s.f, Observed(r, 0)) && s.sealed
    ensures var a := QueueVerdict(s.q, r, 0);
      && !a.Refuse?
      && Publish(s, r, now).s
         == if a.Append? then s.(q := s.q + [Observed(r, s.next)], next := s.next + 1)
            else s.(q := s.q[a.at := s.q[a.at].(reading := s.q[a.at].reading.(attached := r.attached))])
  {
    hide QueueVerdict, Recommits, WitnessConflict, SameCore;
    var i := FindCell(s.f, r.cell);
    var k := Ring.Find(s.f[i].members, r.member);
    assert FitsCell(s.f[i], Observed(r, 0));
  }

  lemma PlaceIgnoresSequence(f: seq<Spec>, r: Reading, n: nat, m: nat)
    requires HasPlace(f, Observed(r, n))
    ensures HasPlace(f, Observed(r, m))
  {
    var i :| 0 <= i < |f| && FitsCell(f[i], Observed(r, n));
    assert FitsCell(f[i], Observed(r, m));
  }

  lemma PublishQueues(s: Sched, r: Reading, now: U64)
    requires Shaped(s.f, s.m) && QueueInv(s)
    ensures QueueInv(Publish(s, r, now).s)
  {
    hide Publish, QueueVerdict, FitsCell, SameWitness;
    var v := Publish(s, r, now).s;
    if v != s {
      PassedFits(s, r, now);
      var a := QueueVerdict(s.q, r, 0);
      if a.Append? {
        AppendAgrees(s.q, r, 0, s.next);
        PlaceIgnoresSequence(s.f, r, 0, s.next);
      } else {
        AttachAgrees(s.q, r, 0);
        var u := s.q[a.at].(reading := s.q[a.at].reading.(attached := r.attached));
        assert u.reading == r;
        PlaceIgnoresSequence(s.f, r, 0, u.sequence);
        forall j, k | 0 <= j < |v.q| && 0 <= k < |v.q| ensures Agree(v.q[j], v.q[k]) {
          assert Agree(s.q[j], s.q[k]);
        }
      }
    }
  }

  lemma AttestQueues(s: Sched, id: Name, clock: U64, x: Witness)
    requires Shaped(s.f, s.m) && QueueInv(s)
    ensures QueueInv(PublishWitness(s, id, clock, x).s)
  {
    hide QueueWitnessVerdict, SameWitness;
    var v := PublishWitness(s, id, clock, x).s;
    if v != s {
      var i := FindCell(s.f, id);
      assert FitsCell(s.f[i], Attested(id, clock, x, s.next));
    }
  }

  /**
   * Publishing keeps the witnesses of the queue in agreement unless it attaches one to a reading already queued, and a
   * reading behind that, for the same frame, carries another: attaching ends the search.
   */
  lemma {:induction false} PublishAgreesIff(s: Sched, r: Reading, now: U64)
    requires Shaped(s.f, s.m) && QueueInv(s) && WitnessesAgree(s.q)
    ensures WitnessesAgree(Publish(s, r, now).s.q)
       <==> !(&& Publish(s, r, now).s != s && QueueVerdict(s.q, r, 0).Attach?
              && exists k :: QueueVerdict(s.q, r, 0).at < k < |s.q| && !SameWitness(s.q[k], Observed(r, 0)))
  {
    hide Publish, QueueVerdict, HasPlace;
    var v := Publish(s, r, now).s;
    if v != s {
      PassedFits(s, r, now);
      var a := QueueVerdict(s.q, r, 0);
      if a.Append? {
        AppendAgrees(s.q, r, 0, s.next);
      } else {
        AttachAgrees(s.q, r, 0);
        AttachedAgree(s.q, r, a.at);
      }
    }
  }

  lemma AttachedAgree(q: seq<Event>, r: Reading, at: nat)
    requires at < |q| && q[at].Observed? && SameCore(q[at].reading, r) && r.attached.Some? && WitnessesAgree(q)
    requires forall j :: 0 <= j < at ==> SameWitness(q[j], Observed(r, 0))
    ensures WitnessesAgree(q[at := q[at].(reading := q[at].reading.(attached := r.attached))])
       <==> !exists k :: at < k < |q| && !SameWitness(q[k], Observed(r, 0))
  {
    var u := q[at := q[at].(reading := q[at].reading.(attached := r.attached))];
    assert u[at].reading == r;
    forall j, k | 0 <= j < |q| && 0 <= k < |q| && j != at && k != at ensures SameWitness(u[j], u[k]) {
      assert SameWitness(q[j], q[k]);
    }
    forall k | 0 <= k < |q| && k != at ensures SameWitness(u[k], u[at]) <==> SameWitness(q[k], Observed(r, 0))
                                       ensures SameWitness(u[at], u[k]) <==> SameWitness(q[k], Observed(r, 0)) {}
  }

  // ---- draining ----

  /** A drain leaves in the queue nothing that was not there. */
  lemma DrainLeaves(e: Env, s: Sched, maximum: nat)
    requires Forest(s.f) && Shaped(s.f, s.m)
    ensures var v := DrainWorld(e, s, maximum).s;
      v.f == s.f && NoneImported(s.m, v.m) && forall k :: 0 <= k < |v.q| ==> v.q[k] in s.q
  {
    hide Drain, DrainAnswers, Forest;
    if maximum > 0 && s.sealed {
      DrainReports(e, s.f, s.m, s.q, maximum);
      var d := Drain(e, s.f, s.m, s.q, maximum);
      forall k | 0 <= k < |d.q| ensures d.q[k] in s.q {
        assert d.q[k] in multiset(d.q);
        assert d.q[k] in multiset(s.q);
      }
    }
  }

  lemma DrainQueues(e: Env, s: Sched, maximum: nat)
    requires Forest(s.f) && Shaped(s.f, s.m) && QueueInv(s)
    ensures QueueInv(DrainWorld(e, s, maximum).s)
    ensures WitnessesAgree(s.q) ==> WitnessesAgree(DrainWorld(e, s, maximum).s.q)
  {
    hide DrainWorld, HasPlace, Agree, SameWitness;
    DrainLeaves(e, s, maximum);
    var v := DrainWorld(e, s, maximum).s;
    forall j, k | 0 <= j < |v.q| && 0 <= k < |v.q|
      ensures Agree(v.q[j], v.q[k])
      ensures WitnessesAgree(s.q) ==> SameWitness(v.q[j], v.q[k])
    {
      var a :| 0 <= a < |s.q| && s.q[a] == v.q[j];
      var b :| 0 <= b < |s.q| && s.q[b] == v.q[k];
      assert Agree(s.q[a], s.q[b]);
    }
  }

  lemma AddQueues(s: Sched, n: NewCell, ring: bool)
    requires WellFormed(n) && QueueInv(s) && s.q == []
    ensures QueueInv(AddCell(s, n, ring).s)
  {
    hide Resolve;
  }

  /** Every public operation keeps it. */
  lemma StepQueues(e: Env, s: Sched, op: Op)
    requires Good(e, s) && Forest(s.f) && Shaped(s.f, s.m) && QueueInv(s)
    ensures QueueInv(SchedulerRuns.After(e, s, op))
  {
    hide Sound, Inv, DistinctKeys, QueueInv, AddCell, Publish, PublishWitness, DrainWorld, Ring.IsRing;
    match op
    case OpAdd(n) =>
      if WellFormed(n) {
        if s.sealed {
          SealedAdds(s, n);
        } else {
          AddQueues(s, n, Ring.IsRing(n.members, n.succs));
        }
      }
    case OpSeal => SealQueues(s);
    case OpPublish(r, now) => PublishQueues(s, r, now);
    case OpWitness(id, clock, x) => AttestQueues(s, id, clock, x);
    case OpDrain(maximum) => DrainQueues(e, s, maximum);
  }

  lemma SealedAdds(s: Sched, n: NewCell)
    requires WellFormed(n) && s.sealed
    ensures AddCell(s, n, Ring.IsRing(n.members, n.succs)).s == s
  {}

  lemma SealQueues(s: Sched)
    requires QueueInv(s)
    ensures QueueInv(SealForest(s).s)
  {}

  lemma {:induction false} RunQueues(e: Env, s: Sched, ops: seq<Op>)
    requires Good(e, s) && QueueInv(s)
    ensures QueueInv(Run(e, s, ops))
    decreases ops
  {
    hide Good, SchedulerRuns.After, QueueInv;
    if ops != [] {
      StepGood(e, s, ops[0]);
      StepQueues(e, s, ops[0]);
      RunQueues(e, SchedulerRuns.After(e, s, ops[0]), ops[1..]);
    }
  }

  /** So it is in every reachable scheduler. */
  lemma ReachableQueue(e: Env, limits: Limits, ops: seq<Op>)
    ensures QueueInv(Reached(e, limits, ops))
  {
    hide Good, Run;
    FreshIsGood(e, limits);
    FreshQueue(limits);
    RunQueues(e, Fresh(limits), ops);
  }

  lemma FreshQueue(limits: Limits)
    ensures QueueInv(Fresh(limits))
  {}
}
