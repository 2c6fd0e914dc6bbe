/**
 * Over whole runs of the supervisor: whatever was consumed was granted, at its own moment, by a lease that had been
 * added before and not been revoked since.
 */
module Admissions {
  import opened Bytes
  import opened Options
  import Authority
  import Transport
  import opened Supervisor

  /** The world after the first n operations. */
  function WorldAt(w: World, ops: seq<Op>, screen: Transport.Screen, n: nat): World
    requires n <= |ops|
  {
    Run(w, ops[..n], screen)
  }

  lemma {:induction false} RunSnoc(w: World, ops: seq<Op>, op: Op, screen: Transport.Screen)
    ensures Run(w, ops + [op], screen) == Do(Run(w, ops, screen), op, screen)
    decreases ops
  {
    hide Do;
    if ops == [] {
      assert ops + [op] == [op] && [op][1..] == [];
    } else {
      RunSnoc(Do(w, ops[0], screen), ops[1..], op, screen);
      assert (ops + [op])[1..] == ops[1..] + [op];
    }
  }

  lemma NextWorld(w: World, ops: seq<Op>, screen: Transport.Screen, n: nat)
    requires n < |ops|
    ensures WorldAt(w, ops, screen, n + 1) == Do(WorldAt(w, ops, screen, n), ops[n], screen)
  {
    hide Run, Do;
    assert ops[..n + 1] == ops[..n] + [ops[n]];
    RunSnoc(w, ops[..n], ops[n], screen);
  }

  /** Operation j added this lease, and the guard took it. */
  predicate Adds(w: World, ops: seq<Op>, screen: Transport.Screen, j: nat, id: Id) {
    && j < |ops| && ops[j].OpAdd? && ops[j].lease.id == id
    && Authority.AddLease(WorldAt(w, ops, screen, j).s.guard, ops[j].lease, ops[j].memory).v == Authority.Accept
  }

  predicate RevokedBetween(ops: seq<Op>, j: nat, n: nat, id: Id) {
    exists k :: j < k < n && k < |ops| && ops[k] == OpRevoke(id)
  }

  /** A lease in the table is as it was added, and revoked if it came so or was revoked since. */
  predicate AddedBy(w: World, ops: seq<Op>, screen: Transport.Screen, j: nat, n: nat, l: Authority.Lease) {
    && j < n <= |ops| && Adds(w, ops, screen, j, l.id)
    && l == ops[j].lease.(revoked := ops[j].lease.revoked || RevokedBetween(ops, j, n, l.id))
  }

  /** What one operation does to the table of leases. */
  lemma LeasesStep(w: World, op: Op, screen: Transport.Screen)
    ensures var before, after := w.s.guard.leases, Do(w, op, screen).s.guard.leases;
      if op.OpAdd? && Authority.AddLease(w.s.guard, op.lease, op.memory).v == Authority.Accept then
        && after == before + [op.lease] && Authority.IdValid(op.lease.id)
        && Authority.FindLease(before, op.lease.id) == |before|
      else if op.OpRevoke? && Authority.IdValid(op.id) && Authority.FindLease(before, op.id) < |before| then
        var i := Authority.FindLease(before, op.id);
        after == before[i := before[i].(revoked := true)]
      else after == before
  {
    hide Admit, Authority.LeaseValid, Authority.FindLease, Authority.Grown;
    if op.OpAdmit? {
      AdmitIsTransactional(w.s, op.e, op.now, op.approvals, screen, op.apply, op.mem);
    } else if op.OpRevoke? {
      var before := w.s.guard.leases;
      var i := Authority.FindLease(before, op.id);
      if i < |before| && before[i].revoked {
        assert before[i := before[i].(revoked := true)] == before;
      }
    } else if op.OpAdd? && Authority.AddLease(w.s.guard, op.lease, op.memory).v == Authority.Accept {
      AddedIsValid(w.s.guard, op.lease, op.memory);
    }
  }

  lemma AddedIsValid(g: Authority.Guard, l: Authority.Lease, memory: bool)
    requires Authority.AddLease(g, l, memory).v == Authority.Accept
    ensures Authority.IdValid(l.id) && Authority.FindLease(g.leases, l.id) == |g.leases|
  {
    hide Authority.FindLease, Authority.Grown;
  }

  lemma RevokedNext(ops: seq<Op>, j: nat, n: nat, id: Id)
    requires j < n < |ops|
    ensures RevokedBetween(ops, j, n + 1, id) <==> RevokedBetween(ops, j, n, id) || ops[n] == OpRevoke(id)
  {
    if RevokedBetween(ops, j, n, id) {
      var k :| j < k < n && ops[k] == OpRevoke(id);
      assert j < k < n + 1;
    }
  }

  /** The lease as the next operation leaves it. */
  lemma StillAdded(w: World, ops: seq<Op>, screen: Transport.Screen, j: nat, n: nat, l: Authority.Lease)
    requires n < |ops| && AddedBy(w, ops, screen, j, n, l)
    ensures AddedBy(w, ops, screen, j, n + 1, if ops[n] == OpRevoke(l.id) then l.(revoked := true) else l)
  {
    hide Adds, WorldAt;
    RevokedNext(ops, j, n, l.id);
    SameAdds(w, ops, screen, j, l);
  }

  lemma SameAdds(w: World, ops: seq<Op>, screen: Transport.Screen, j: nat, l: Authority.Lease)
    requires Adds(w, ops, screen, j, l.id)
    ensures Adds(w, ops, screen, j, l.(revoked := true).id)
  {}

  lemma RunInv(w: World, ops: seq<Op>, screen: Transport.Screen, n: nat)
    requires Inv(w) && n <= |ops|
    ensures Inv(WorldAt(w, ops, screen, n)) && Authority.LeasesDistinct(WorldAt(w, ops, screen, n).s.guard)
  {
    hide Run, NoncesInv, Roomy, LaneInv, Authority.NoncesDistinct, Authority.LeasesDistinct;
    RunKeeps(w, ops[..n], screen);
  }

  ghost predicate AllAdded(w: World, ops: seq<Op>, screen: Transport.Screen, n: nat, leases: seq<Authority.Lease>) {
    forall x :: 0 <= x < |leases| ==> HasAdder(w, ops, screen, n, leases[x])
  }

  ghost predicate HasAdder(w: World, ops: seq<Op>, screen: Transport.Screen, n: nat, l: Authority.Lease) {
    exists j: nat :: AddedBy(w, ops, screen, j, n, l)
  }

  /** Every lease in the table was added by an operation of the run, and is revoked if it was revoked since. */
  lemma {:induction false} LeasesAreAdded(w: World, ops: seq<Op>, screen: Transport.Screen, n: nat)
    requires Inv(w) && w.s.guard.leases == [] && n <= |ops|
    ensures AllAdded(w, ops, screen, n, WorldAt(w, ops, screen, n).s.guard.leases)
    decreases n
  {
    hide Run, Do, Inv, AddedBy, Authority.AddLease, Authority.FindLease, Authority.IdValid, Authority.LeasesDistinct;
    if n == 0 {
      StartsEmpty(w, ops, screen);
    } else {
      LeasesAreAdded(w, ops, screen, n - 1);
      NextWorld(w, ops, screen, n - 1);
      RunInv(w, ops, screen, n - 1);
      AllStillAdded(w, ops, screen, n - 1);
    }
  }

  lemma StartsEmpty(w: World, ops: seq<Op>, screen: Transport.Screen)
    ensures WorldAt(w, ops, screen, 0) == w
  {}

  lemma AllStillAdded(w: World, ops: seq<Op>, screen: Transport.Screen, n: nat)
    requires n < |ops| && Authority.LeasesDistinct(WorldAt(w, ops, screen, n).s.guard)
    requires AllAdded(w, ops, screen, n, WorldAt(w, ops, screen, n).s.guard.leases)
    ensures AllAdded(w, ops, screen, n + 1, Do(WorldAt(w, ops, screen, n), ops[n], screen).s.guard.leases)
  {
    hide WorldAt, Do, AddedBy;
    var u := WorldAt(w, ops, screen, n);
    var before, after := u.s.guard.leases, Do(u, ops[n], screen).s.guard.leases;
    LeasesStep(u, ops[n], screen);
    forall x | 0 <= x < |after| ensures HasAdder(w, ops, screen, n + 1, after[x]) {
      if x == |before| {
        JustAdded(w, ops, screen, n);
        assert AddedBy(w, ops, screen, n, n + 1, after[x]);
      } else {
        assert HasAdder(w, ops, screen, n, before[x]);
        var j: nat :| AddedBy(w, ops, screen, j, n, before[x]);
        StillAdded(w, ops, screen, j, n, before[x]);
        ValidName(w, ops, screen, j, n, before[x]);
        FoundAt(before, x);
        assert AddedBy(w, ops, screen, j, n + 1, after[x]);
      }
    }
  }

  lemma JustAdded(w: World, ops: seq<Op>, screen: Transport.Screen, n: nat)
    requires n < |ops| && ops[n].OpAdd?
    requires Adds(w, ops, screen, n, ops[n].lease.id)
    ensures AddedBy(w, ops, screen, n, n + 1, ops[n].lease)
  {
    hide Adds;
  }

  lemma ValidName(w: World, ops: seq<Op>, screen: Transport.Screen, j: nat, n: nat, l: Authority.Lease)
    requires AddedBy(w, ops, screen, j, n, l)
    ensures Authority.IdValid(l.id)
  {
    hide WorldAt, Authority.AddLease;
    AddedIsValid(WorldAt(w, ops, screen, j).s.guard, ops[j].lease, ops[j].memory);
  }

  lemma FoundAt(leases: seq<Authority.Lease>, x: nat)
    requires x < |leases| && forall j, k :: 0 <= j < k < |leases| ==> leases[j].id != leases[k].id
    ensures Authority.FindLease(leases, leases[x].id) == x
  {
    var i := Authority.FindLease(leases, leases[x].id);
    assert leases[i].id == leases[x].id;
  }

  /**
   * Operation i admits an envelope under a lease that operation j added, that grants it, and is not revoked by
   * then.
   */
  predicate Granted(w: World, ops: seq<Op>, screen: Transport.Screen, i: nat, j: nat)
    requires i < |ops| && ops[i].OpAdmit?
  {
    var r := RequestFor(ops[i].e, ops[i].now, ops[i].approvals);
    && j < i && Adds(w, ops, screen, j, ops[i].e.lease) && !RevokedBetween(ops, j, i, ops[i].e.lease)
    && Authority.Grants(ops[j].lease, r) && Authority.WellPut(r)
  }

  /**
   * Over every run, whatever an operation consumes was granted at that moment: by a lease added before, in force, not
   * revoked since, for its subject, frame, horizon and action, with its quorum of approvals.
   */
  lemma ConsumedWasGranted(leaseLimit: nat, nonceLimit: nat, streamLimit: nat, ops: seq<Op>, screen: Transport.Screen,
      i: nat)
    requires i < |ops| && ops[i].OpAdmit?
    requires var w := WorldAt(Start(leaseLimit, nonceLimit, streamLimit), ops, screen, i);
      Consumes(Admit(w.s, ops[i].e, ops[i].now, ops[i].approvals, screen, ops[i].apply, ops[i].mem).v)
    ensures var start := Start(leaseLimit, nonceLimit, streamLimit);
      exists j: nat :: Granted(start, ops, screen, i, j)
  {
    hide Inv, Admit, WorldAt, Authority.CheckVerdict, Authority.WellPut, Adds, RevokedBetween;
    var start := Start(leaseLimit, nonceLimit, streamLimit);
    var w, op := WorldAt(start, ops, screen, i), ops[i];
    StartIsGood(leaseLimit, nonceLimit, streamLimit);
    RunInv(start, ops, screen, i);
    LeasesAreAdded(start, ops, screen, i);
    ConsumingMeansChecked(w.s, op.e, op.now, op.approvals, screen, op.apply, op.mem);
    var r := RequestFor(op.e, op.now, op.approvals);
    Authority.AcceptsIff(w.s.guard, r);
    var k :| 0 <= k < |w.s.guard.leases| && Authority.Grants(w.s.guard.leases[k], r);
    assert HasAdder(start, ops, screen, i, w.s.guard.leases[k]);
    var j: nat :| AddedBy(start, ops, screen, j, i, w.s.guard.leases[k]);
    assert Granted(start, ops, screen, i, j);
  }

  /** And whatever a run has consumed, some operation of it did. */
  lemma {:induction false} ConsumedBy(w: World, ops: seq<Op>, screen: Transport.Screen, n: nat, k: nat)
    requires n <= |ops| && w.consumed == [] && k < |WorldAt(w, ops, screen, n).consumed|
    ensures exists i :: 0 <= i < n && Consuming(w, ops, screen, i, WorldAt(w, ops, screen, n).consumed[k])
    decreases n
  {
    hide Run, Admit, Consuming;
    if n == 0 {
      StartsEmpty(w, ops, screen);
    } else {
      NextWorld(w, ops, screen, n - 1);
      var u := WorldAt(w, ops, screen, n - 1);
      if k < |u.consumed| {
        ConsumedBy(w, ops, screen, n - 1, k);
        var i :| 0 <= i < n - 1 && Consuming(w, ops, screen, i, u.consumed[k]);
        assert Consuming(w, ops, screen, i, WorldAt(w, ops, screen, n).consumed[k]);
      } else {
        LastConsumes(w, ops, screen, n - 1);
        assert WorldAt(w, ops, screen, n).consumed == u.consumed + [ops[n - 1].e];
        assert Consuming(w, ops, screen, n - 1, WorldAt(w, ops, screen, n).consumed[k]);
      }
    }
  }

  lemma LastConsumes(w: World, ops: seq<Op>, screen: Transport.Screen, n: nat)
    requires n < |ops|
    requires var u := WorldAt(w, ops, screen, n); Do(u, ops[n], screen).consumed != u.consumed
    ensures ops[n].OpAdmit? && Consuming(w, ops, screen, n, ops[n].e)
  {
    hide Run, Admit;
  }

  predicate Consuming(w: World, ops: seq<Op>, screen: Transport.Screen, i: nat, e: Envelope) {
    && i < |ops| && ops[i].OpAdmit? && ops[i].e == e
    && var u := WorldAt(w, ops, screen, i);
    Consumes(Admit(u.s, e, ops[i].now, ops[i].approvals, screen, ops[i].apply, ops[i].mem).v)
  }

  /** So every consumed envelope was granted when it was admitted. */
  lemma {:induction false} EveryConsumedWasGranted(leaseLimit: nat, nonceLimit: nat, streamLimit: nat, ops: seq<Op>,
      screen: Transport.Screen, k: nat)
    requires k < |Run(Start(leaseLimit, nonceLimit, streamLimit), ops, screen).consumed|
    ensures var start := Start(leaseLimit, nonceLimit, streamLimit);
      exists i: nat, j: nat :: i < |ops| && ops[i].OpAdmit? && ops[i].e == Run(start, ops, screen).consumed[k]
                     && Granted(start, ops, screen, i, j)
  {
    hide Run, Admit, Granted;
    var start := Start(leaseLimit, nonceLimit, streamLimit);
    assert ops[..|ops|] == ops;
    ConsumedBy(start, ops, screen, |ops|, k);
    var i :| 0 <= i < |ops| && Consuming(start, ops, screen, i, Run(start, ops, screen).consumed[k]);
    ConsumedWasGranted(leaseLimit, nonceLimit, streamLimit, ops, screen, i);
  }
}
