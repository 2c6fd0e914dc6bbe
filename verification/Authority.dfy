/**
 * The authority guard: leases that may be revoked but never restored, single-use nonces, and tickets
 * bound to the guard's revision. Names are byte strings; actions are bits.
 */
module Authority {
  import opened Bytes
  import opened Options

  const ID_MAX: nat := 63
  const ALL_ACTIONS: bv32 := 63
  const REVOKE_ACTION: bv32 := 32

  type Id = seq<Byte>
  type Nonce = s: seq<Byte> | |s| == 16 witness seq(16, _ => 0)

  datatype Lease = Lease(
    version: nat, id: Id, subject: Id, frame: Id, actions: bv32, horizonStart: U64, horizonEnd: U64,
    notBefore: U64, expiresAt: U64, quorumRequired: U32, quorumTotal: U32, revoked: bool)

  datatype Request = Request(
    lease: Id, subject: Id, frame: Id, action: bv32, horizon: U64, now: U64, approvals: U32,
    nonce: Nonce, proposal: Digest)

  datatype Ticket = Ticket(
    lease: Id, subject: Id, frame: Id, action: bv32, horizon: U64, nonce: Nonce, proposal: Digest,
    expiresAt: U64, revision: U64)

  /** A consumed nonce, under its lease. */
  datatype Spent = Spent(lease: Id, nonce: Nonce)

  datatype Guard = Guard(
    leases: seq<Lease>, leaseCapacity: nat, leaseLimit: nat,
    nonces: seq<Spent>, nonceCapacity: nat, nonceLimit: nat, revision: U64)

  datatype Verdict =
    | Accept | HoldLimit | Argument | Missing | NotYetValid | Expired | Revoked | WrongFrame | WrongSubject
    | WrongHorizon | WrongAction | NoQuorum | Replay | StaleTicket

  predicate IdValid(id: Id) {
    1 <= |id| <= ID_MAX
  }

  function ZeroNonce(): Nonce {
    seq(16, _ => 0)
  }

  function FindLease(leases: seq<Lease>, id: Id): (i: nat)
    ensures i <= |leases|
    ensures i < |leases| ==> leases[i].id == id
    ensures i == |leases| ==> forall k :: 0 <= k < |leases| ==> leases[k].id != id
  {
    if leases == [] then 0
    else if leases[0].id == id then 0
    else
      var i := FindLease(leases[1..], id);
      assert forall k :: 0 < k < |leases| ==> leases[k] == leases[1..][k - 1];
      1 + i
  }

  /** The capacity after growing by doubling within the limit, or the same if that is impossible or memory is short. */
  function Grown(count: nat, capacity: nat, first: nat, limit: nat, memory: bool): nat {
    if count < capacity then capacity
    else
      var doubled := if capacity > 0 then capacity * 2 else first;
      var next := if doubled > limit then limit else doubled;
      if next > capacity && memory then next else capacity
  }

  /** Some of the six actions and nothing else. */
  predicate KnownActions(actions: bv32) {
    actions != 0 && (actions & !ALL_ACTIONS) == 0
  }

  predicate LeaseValid(l: Lease) {
    && IdValid(l.id) && IdValid(l.subject) && IdValid(l.frame) && l.version == 1
    && KnownActions(l.actions)
    && l.horizonStart <= l.horizonEnd && l.notBefore < l.expiresAt
    && 0 < l.quorumRequired <= l.quorumTotal
  }

  datatype Guarded = Guarded(g: Guard, v: Verdict)

  function AddLease(g: Guard, l: Lease, memory: bool): Guarded {
    if !LeaseValid(l) || FindLease(g.leases, l.id) != |g.leases| then Guarded(g, Argument)
    else if |g.leases| >= g.leaseLimit then Guarded(g, HoldLimit)
    else
      var capacity := Grown(|g.leases|, g.leaseCapacity, 4, g.leaseLimit, memory);
      if |g.leases| >= capacity then Guarded(g, HoldLimit)
      else Guarded(g.(leases := g.leases + [l], leaseCapacity := capacity, revision := Add64(g.revision, 1)), Accept)
  }

  function Revoke(g: Guard, id: Id): Guarded {
    var i := FindLease(g.leases, id);
    if !IdValid(id) then Guarded(g, Argument)
    else if i == |g.leases| then Guarded(g, Missing)
    else if g.leases[i].revoked then Guarded(g, Accept)
    else Guarded(g.(leases := g.leases[i := g.leases[i].(revoked := true)], revision := Add64(g.revision, 1)), Accept)
  }

  /** One of the six actions. */
  predicate OneAction(a: bv32) {
    a != 0 && (a & (a - 1)) == 0 && a <= REVOKE_ACTION
  }

  predicate Allows(actions: bv32, action: bv32) {
    (actions & action) != 0
  }

  /** The lease permits this subject, frame, action and horizon. */
  function Permits(l: Lease, subject: Id, frame: Id, action: bv32, horizon: U64): Verdict {
    if frame != l.frame then WrongFrame
    else if subject != l.subject then WrongSubject
    else if horizon < l.horizonStart || horizon > l.horizonEnd then WrongHorizon
    else if !Allows(l.actions, action) then WrongAction
    else Accept
  }

  predicate RequestValid(r: Request) {
    && IdValid(r.lease) && IdValid(r.subject) && IdValid(r.frame) && OneAction(r.action)
    && r.nonce != ZeroNonce() && r.proposal != ZeroDigest()
  }

  function CheckVerdict(g: Guard, r: Request): Verdict {
    var i := FindLease(g.leases, r.lease);
    if !RequestValid(r) then Argument
    else if i == |g.leases| then Missing
    else
      var l := g.leases[i];
      if l.revoked then Revoked
      else if r.now < l.notBefore then NotYetValid
      else if r.now >= l.expiresAt then Expired
      else if Permits(l, r.subject, r.frame, r.action, r.horizon) != Accept then
        Permits(l, r.subject, r.frame, r.action, r.horizon)
      else if r.approvals < l.quorumRequired || r.approvals > l.quorumTotal then NoQuorum
      else if Spent(l.id, r.nonce) in g.nonces then Replay
      else Accept
  }

  function TicketFor(g: Guard, r: Request): Ticket
    requires CheckVerdict(g, r) == Accept
  {
    Ticket(r.lease, r.subject, r.frame, r.action, r.horizon, r.nonce, r.proposal,
           g.leases[FindLease(g.leases, r.lease)].expiresAt, g.revision)
  }

  predicate TicketValid(t: Ticket) {
    && IdValid(t.lease) && IdValid(t.subject) && IdValid(t.frame) && OneAction(t.action)
    && t.nonce != ZeroNonce() && t.proposal != ZeroDigest()
  }

  /** Everything that must hold of a ticket before its nonce may be consumed. */
  function TicketVerdict(g: Guard, t: Ticket, now: U64): Verdict {
    var i := FindLease(g.leases, t.lease);
    if !TicketValid(t) then Argument
    else if t.revision != g.revision then StaleTicket
    else if i == |g.leases| then Missing
    else
      var standing := Standing(g.leases[i], t, now);
      if standing != Accept then standing
      else if Spent(t.lease, t.nonce) in g.nonces then Replay
      else Accept
  }

  /** What the lease itself says about the ticket. */
  function Standing(l: Lease, t: Ticket, now: U64): Verdict {
    if l.revoked then Revoked
    else if t.subject != l.subject then WrongSubject
    else if t.frame != l.frame then WrongFrame
    else if !Allows(l.actions, t.action) then WrongAction
    else if t.horizon < l.horizonStart || t.horizon > l.horizonEnd then WrongHorizon
    else if t.expiresAt != l.expiresAt then StaleTicket
    else if now >= t.expiresAt then Expired
    else Accept
  }

  /** Reserves room for one nonce. */
  function PrepareConsume(g: Guard, t: Ticket, now: U64, memory: bool): Guarded {
    if TicketVerdict(g, t, now) != Accept then Guarded(g, TicketVerdict(g, t, now))
    else if |g.nonces| >= g.nonceLimit then Guarded(g, HoldLimit)
    else
      var capacity := Grown(|g.nonces|, g.nonceCapacity, 8, g.nonceLimit, memory);
      if |g.nonces| >= capacity then Guarded(g, HoldLimit) else Guarded(g.(nonceCapacity := capacity), Accept)
  }

  function Consume(g: Guard, t: Ticket, now: U64, memory: bool): Guarded {
    var p := PrepareConsume(g, t, now, memory);
    if p.v != Accept then p
    else Guarded(p.g.(nonces := p.g.nonces + [Spent(t.lease, t.nonce)]), Accept)
  }

  // ---- what an accepted check means ----

  /** The request names a lease, a subject and a frame, one of the six actions, a nonce and a proposal. */
  predicate WellPut(r: Request) {
    && 1 <= |r.lease| <= 63 && 1 <= |r.subject| <= 63 && 1 <= |r.frame| <= 63
    && r.action in {1, 2, 4, 8, 16, 32}
    && r.nonce != seq(16, _ => 0) && r.proposal != seq(32, _ => 0)
  }

  /** The lease is in force now and grants this request: its subject, its frame, its horizon, its action, its quorum. */
  predicate Grants(l: Lease, r: Request) {
    && l.id == r.lease && !l.revoked && l.notBefore <= r.now && r.now < l.expiresAt
    && l.subject == r.subject && l.frame == r.frame
    && l.horizonStart <= r.horizon && r.horizon <= l.horizonEnd
    && l.actions & r.action != 0
    && l.quorumRequired <= r.approvals && r.approvals <= l.quorumTotal
  }

  lemma OneOfSix(a: bv32)
    ensures OneAction(a) <==> a in {1, 2, 4, 8, 16, 32}
  {}

  /**
   * A check accepts exactly the well-put requests that the lease of that name grants, with a nonce that was not spent
   * under it.
   */
  lemma AcceptsIff(g: Guard, r: Request)
    requires LeasesDistinct(g)
    ensures CheckVerdict(g, r) == Accept
       <==> && WellPut(r) && Spent(r.lease, r.nonce) !in g.nonces
            && exists k :: 0 <= k < |g.leases| && Grants(g.leases[k], r)
  {
    hide OneAction;
    OneOfSix(r.action);
    var i := FindLease(g.leases, r.lease);
    if i < |g.leases| {
      forall k | 0 <= k < |g.leases| && k != i ensures g.leases[k].id != r.lease {}
    }
  }

  // ---- what reservation guarantees ----

  /** What matters about a guard, its reserved room aside. */
  predicate SameAuthority(a: Guard, b: Guard) {
    a.leases == b.leases && a.nonces == b.nonces && a.revision == b.revision
    && a.leaseLimit == b.leaseLimit && a.nonceLimit == b.nonceLimit
  }

  /** After a reservation consuming cannot fail, even with no memory left, and records exactly this nonce. */
  lemma ReservedConsumes(g: Guard, t: Ticket, now: U64, memory: bool, later: bool)
    requires PrepareConsume(g, t, now, memory).v == Accept
    ensures var r := PrepareConsume(g, t, now, memory).g;
      && SameAuthority(r, g)
      && Consume(r, t, now, later) == Guarded(r.(nonces := g.nonces + [Spent(t.lease, t.nonce)]), Accept)
      && Spent(t.lease, t.nonce) !in g.nonces
  {}

  /** A checked request's ticket passes everything but room, as long as nothing intervenes. */
  lemma CheckedTicketHolds(g: Guard, r: Request)
    requires CheckVerdict(g, r) == Accept
    ensures TicketVerdict(g, TicketFor(g, r), r.now) == Accept
  {}

  /**
   * So between an accepted check and the reservation behind it nothing but room can fail, and there is room exactly
   * if the limit leaves some and it is reserved already or can be had.
   */
  lemma CheckedReserves(g: Guard, r: Request, memory: bool)
    requires |g.nonces| <= g.nonceCapacity && CheckVerdict(g, r) == Accept
    ensures var p := PrepareConsume(g, TicketFor(g, r), r.now, memory);
      p.v == if |g.nonces| < g.nonceLimit && (memory || |g.nonces| < g.nonceCapacity) then Accept else HoldLimit
  {
    hide CheckVerdict, TicketVerdict;
    CheckedTicketHolds(g, r);
  }

  // ---- what every operation keeps ----

  predicate NoncesDistinct(g: Guard) {
    forall j, k :: 0 <= j < k < |g.nonces| ==> g.nonces[j] != g.nonces[k]
  }

  predicate LeasesDistinct(g: Guard) {
    forall j, k :: 0 <= j < k < |g.leases| ==> g.leases[j].id != g.leases[k].id
  }

  predicate GuardInv(g: Guard) {
    NoncesDistinct(g) && LeasesDistinct(g)
  }

  lemma AddKeeps(g: Guard, l: Lease, memory: bool)
    requires GuardInv(g)
    ensures GuardInv(AddLease(g, l, memory).g) && AddLease(g, l, memory).g.nonces == g.nonces
    ensures g.leases <= AddLease(g, l, memory).g.leases
    ensures AddLease(g, l, memory).g.nonceCapacity == g.nonceCapacity
  {
    hide LeaseValid, Grown;
  }

  lemma RevokeKeeps(g: Guard, id: Id)
    requires GuardInv(g)
    ensures GuardInv(Revoke(g, id).g) && Revoke(g, id).g.nonces == g.nonces
    ensures Revoke(g, id).g.nonceCapacity == g.nonceCapacity
  {}

  // ---- the program ----

  class AuthorityGuard {
    var leases: seq<Lease>
    var leaseCapacity: nat
    const leaseLimit: nat
    var nonces: seq<Spent>
    var nonceCapacity: nat
    const nonceLimit: nat
    var revision: U64

    function View(): Guard
      reads this
    {
      Guard(leases, leaseCapacity, leaseLimit, nonces, nonceCapacity, nonceLimit, revision)
    }

    constructor (leaseLimit: nat, nonceLimit: nat)
      ensures View() == Guard([], 0, leaseLimit, [], 0, nonceLimit, 1)
    {
      this.leaseLimit, this.nonceLimit := leaseLimit, nonceLimit;
      leases, nonces, leaseCapacity, nonceCapacity, revision := [], [], 0, 0, 1;
    }

    method Find(id: Id) returns (i: nat)
      ensures i == FindLease(leases, id)
    {
      i := 0;
      while i < |leases|
        invariant 0 <= i <= |leases| && forall k :: 0 <= k < i ==> leases[k].id != id
      {
        if leases[i].id == id {
          FindLeaseIs(leases, id, i);
          return;
        }
        i := i + 1;
      }
    }

    method NonceSeen(lease: Id, nonce: Nonce) returns (seen: bool)
      ensures seen == (Spent(lease, nonce) in nonces)
    {
      var i := 0;
      while i < |nonces|
        invariant 0 <= i <= |nonces| && forall k :: 0 <= k < i ==> nonces[k] != Spent(lease, nonce)
      {
        if nonces[i].lease == lease && nonces[i].nonce == nonce {
          return true;
        }
        i := i + 1;
      }
      seen := false;
    }

    method Add(l: Lease, memory: bool) returns (v: Verdict)
      modifies this
      ensures Guarded(View(), v) == AddLease(old(View()), l, memory)
    {
      hide LeaseValid, Grown, FindLease;
      if !LeaseValid(l) {
        return Argument;
      }
      var i := Find(l.id);
      if i != |leases| {
        return Argument;
      }
      if |leases| >= leaseLimit {
        return HoldLimit;
      }
      var capacity := Grown(|leases|, leaseCapacity, 4, leaseLimit, memory);
      if |leases| >= capacity {
        return HoldLimit;
      }
      leaseCapacity := capacity;
      leases := leases + [l];
      revision := Add64(revision, 1);
      v := Accept;
    }

    method RevokeLease(id: Id) returns (v: Verdict)
      modifies this
      ensures Guarded(View(), v) == Revoke(old(View()), id)
    {
      if !IdValid(id) {
        return Argument;
      }
      var i := Find(id);
      if i == |leases| {
        return Missing;
      }
      if !leases[i].revoked {
        leases := leases[i := leases[i].(revoked := true)];
        revision := Add64(revision, 1);
      }
      v := Accept;
    }

    /** Reads the guard and writes only a ticket. */
    method Check(r: Request) returns (v: Verdict, t: Option<Ticket>)
      ensures v == CheckVerdict(View(), r)
      ensures t == if v == Accept then Some(TicketFor(View(), r)) else None
    {
      hide RequestValid, FindLease, Permits;
      t := None;
      if !RequestValid(r) {
        return Argument, t;
      }
      var i := Find(r.lease);
      if i == |leases| {
        return Missing, t;
      }
      var l := leases[i];
      if l.revoked {
        return Revoked, t;
      }
      if r.now < l.notBefore {
        return NotYetValid, t;
      }
      if r.now >= l.expiresAt {
        return Expired, t;
      }
      v := Permits(l, r.subject, r.frame, r.action, r.horizon);
      if v != Accept {
        return;
      }
      if r.approvals < l.quorumRequired || r.approvals > l.quorumTotal {
        return NoQuorum, t;
      }
      var seen := NonceSeen(l.id, r.nonce);
      if seen {
        return Replay, t;
      }
      t := Some(Ticket(r.lease, r.subject, r.frame, r.action, r.horizon, r.nonce, r.proposal, l.expiresAt, revision));
    }

    method Prepare(t: Ticket, now: U64, memory: bool) returns (v: Verdict)
      modifies this`nonceCapacity
      ensures Guarded(View(), v) == PrepareConsume(old(View()), t, now, memory)
    {
      hide TicketValid, Grown, FindLease;
      v := TicketStanding(t, now);
      if v != Accept {
        return;
      }
      if |nonces| >= nonceLimit {
        return HoldLimit;
      }
      var capacity := Grown(|nonces|, nonceCapacity, 8, nonceLimit, memory);
      if |nonces| >= capacity {
        return HoldLimit;
      }
      nonceCapacity := capacity;
    }

    method TicketStanding(t: Ticket, now: U64) returns (v: Verdict)
      ensures v == TicketVerdict(View(), t, now)
    {
      hide TicketValid, FindLease, Standing;
      if !TicketValid(t) {
        return Argument;
      }
      if t.revision != revision {
        return StaleTicket;
      }
      var i := Find(t.lease);
      if i == |leases| {
        return Missing;
      }
      v := Standing(leases[i], t, now);
      if v != Accept {
        return;
      }
      var seen := NonceSeen(t.lease, t.nonce);
      v := if seen then Replay else Accept;
    }

    method ConsumeTicket(t: Ticket, now: U64, memory: bool) returns (v: Verdict)
      modifies this`nonceCapacity, this`nonces
      ensures Guarded(View(), v) == Consume(old(View()), t, now, memory)
    {
      hide PrepareConsume;
      v := Prepare(t, now, memory);
      if v == Accept {
        nonces := nonces + [Spent(t.lease, t.nonce)];
      }
    }
  }

  lemma {:induction false} FindLeaseIs(leases: seq<Lease>, id: Id, i: nat)
    requires i < |leases| && leases[i].id == id && forall k :: 0 <= k < i ==> leases[k].id != id
    ensures FindLease(leases, id) == i
    decreases i
  {
    if i > 0 {
      FindLeaseIs(leases[1..], id, i - 1);
    }
  }
}
