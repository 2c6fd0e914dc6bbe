/**
 * Which leases, tickets and envelopes are taken, told from their fields: what a guard adds and what makes its tickets
 * stale, what a peer lets through its screening, and what it says of an envelope that is not next in its stream.
 */
module Admittance {
  import opened Bytes
  import opened Options
  import opened Authority
  import Transport

  // ---- leases and tickets ----

  /** A lease for known actions, over a range of horizons, for some time, with a quorum that can be met. */
  predicate LeaseWellPut(l: Lease) {
    && 1 <= |l.id| <= 63 && 1 <= |l.subject| <= 63 && 1 <= |l.frame| <= 63 && l.version == 1
    && UpToSix(l.actions)
    && l.horizonStart <= l.horizonEnd && l.notBefore < l.expiresAt
    && 1 <= l.quorumRequired && l.quorumRequired <= l.quorumTotal
  }

  predicate UpToSix(actions: bv32) {
    0 < actions && actions < 64
  }

  lemma SixActions(a: bv32)
    ensures KnownActions(a) <==> UpToSix(a)
  {}

  /** A lease is added exactly when it is well put, of a new name, and there is room; then it is last, and nothing else
      but the revision changes. */
  lemma AddsIff(g: Guard, l: Lease, memory: bool)
    requires |g.leases| <= g.leaseCapacity
    ensures var r := AddLease(g, l, memory);
      && (r.v == Accept <==>
            && LeaseWellPut(l) && (forall k :: 0 <= k < |g.leases| ==> g.leases[k].id != l.id)
            && |g.leases| < g.leaseLimit && (memory || |g.leases| < g.leaseCapacity))
      && (r.v == Accept ==>
            r.g.(leaseCapacity := g.leaseCapacity)
            == g.(leases := g.leases + [l], revision := (g.revision + 1) % TWO_64))
      && (r.v != Accept ==> r.g == g)
  {
    hide FindLease, Grown, LeaseValid, LeaseWellPut;
    LeaseIsWellPut(l);
    if |g.leases| < g.leaseLimit {
      Room(|g.leases|, g.leaseCapacity, g.leaseLimit, memory);
    }
  }

  lemma LeaseIsWellPut(l: Lease)
    ensures LeaseValid(l) <==> LeaseWellPut(l)
  {
    hide KnownActions, UpToSix;
    SixActions(l.actions);
  }

  lemma Room(count: nat, capacity: nat, limit: nat, memory: bool)
    requires count <= capacity && count < limit
    ensures count < Grown(count, capacity, 4, limit, memory) <==> memory || count < capacity
  {}

  /** Revoking: the lease of that name is revoked and the revision moves on, once. */
  lemma {:induction false} RevokesIff(g: Guard, id: Id)
    ensures var r, i := Revoke(g, id), FindLease(g.leases, id);
      && (r.v == Accept <==> 1 <= |id| <= 63 && exists k :: 0 <= k < |g.leases| && g.leases[k].id == id)
      && (r.v == Accept ==>
            && i < |g.leases| && |r.g.leases| == |g.leases| && r.g.leases[i].revoked
            && r.g == (if g.leases[i].revoked then g
                       else g.(leases := r.g.leases, revision := (g.revision + 1) % TWO_64))
            && forall k :: 0 <= k < |g.leases| ==>
                 && r.g.leases[k].(revoked := g.leases[k].revoked) == g.leases[k]
                 && (k != i ==> r.g.leases[k] == g.leases[k]))
      && (r.v != Accept ==> r.g == g)
  {
    hide FindLease;
  }

  predicate TicketWellPut(t: Ticket) {
    && 1 <= |t.lease| <= 63 && 1 <= |t.subject| <= 63 && 1 <= |t.frame| <= 63 && t.action in {1, 2, 4, 8, 16, 32}
    && t.nonce != seq(16, _ => 0) && t.proposal != seq(32, _ => 0)
  }

  /** The lease still says what the ticket says, and is in force. */
  predicate Backs(l: Lease, t: Ticket, now: U64) {
    && l.id == t.lease && !l.revoked && l.subject == t.subject && l.frame == t.frame && l.actions & t.action != 0
    && l.horizonStart <= t.horizon && t.horizon <= l.horizonEnd && l.expiresAt == t.expiresAt && now < t.expiresAt
  }

  /**
   * A ticket stands exactly as long as no lease was added or revoked since, its lease backs it, and its nonce
   * is new.
   */
  lemma StandsIff(g: Guard, t: Ticket, now: U64)
    requires LeasesDistinct(g)
    ensures TicketVerdict(g, t, now) == Accept
       <==> && TicketWellPut(t) && t.revision == g.revision && Spent(t.lease, t.nonce) !in g.nonces
            && exists k :: 0 <= k < |g.leases| && Backs(g.leases[k], t, now)
  {
    hide OneAction;
    OneOfSix(t.action);
    var i := FindLease(g.leases, t.lease);
    if i < |g.leases| {
      forall k | 0 <= k < |g.leases| && k != i ensures g.leases[k].id != t.lease {}
    }
  }

  /** So every change of the table makes all tickets of before stale. */
  lemma ChangesMakeStale(g: Guard, h: Guard, t: Ticket, now: U64)
    requires h.revision == (g.revision + 1) % TWO_64 && t.revision == g.revision && TicketWellPut(t)
    ensures TicketVerdict(h, t, now) == StaleTicket
  {
    hide OneAction;
    OneOfSix(t.action);
  }

  // ---- envelopes ----

  /** Of a known message, with the action that goes with it, all names and numbers in place. */
  predicate EnvelopeWellPut(e: Transport.Envelope) {
    && 1 <= e.schema && 1 <= e.sequence && e.nonce != seq(16, _ => 0) && |e.content| < TWO_64
    && 1 <= |e.sender| <= 63 && 1 <= |e.recipient| <= 63 && 1 <= |e.frame| <= 63
    && 1 <= |e.keyId| <= 63 && 1 <= |e.lease| <= 63
    && (e.message, e.action) in {(1, 1), (2, 2), (3, 4), (3, 8), (3, 16), (3, 32), (4, 1)}
  }

  /** An envelope passes the screening exactly when it is well put, for this peer, and all three tags are right. */
  lemma ScreensIff(l: Transport.Local, g: Transport.Tags, e: Transport.Envelope)
    ensures Transport.ScreenEnvelope(l, g, e) == Transport.Accept
       <==> && EnvelopeWellPut(e)
            && e.schema == l.schema && e.keyId == l.keyId && e.recipient == l.id && |e.content| <= l.payloadLimit
            && e.payload == g.plain(e.content) && e.mac == g.keyed(Transport.MacBytes(e))
            && e.identity == g.plain(Transport.IdentityBytes(e))
  {
    hide Transport.MacBytes, Transport.IdentityBytes;
  }

  /** It follows: first in its stream and without parent, or the very next, later, and naming the one before. */
  predicate IsNext(prior: Option<Transport.Stream>, e: Transport.Envelope) {
    match prior
    case None => e.sequence == 1 && e.parent == ZeroDigest()
    case Some(s) => e.sequence == (s.sequence + 1) % TWO_64 && e.sequence > s.sequence && s.clock < e.clock
                    && e.parent == s.digest
  }

  /** What a peer says of an envelope that passed the screening. */
  lemma InspectsIff(p: Transport.Peer, e: Transport.Envelope, screen: Transport.Screen)
    requires screen(e) == Transport.Accept
    ensures var v, prior := Transport.Inspect(p, e, screen), Transport.PriorOf(p, e.sender, e.frame);
      && (v == Transport.HoldPartition <==> p.partitioned)
      && (v == Transport.Accept <==>
            !p.partitioned && IsNext(prior, e)
            && !(prior.Some? && e.sequence == prior.value.sequence && e.identity == prior.value.digest))
      && (v == Transport.HoldDuplicate <==>
            !p.partitioned && prior.Some? && e.sequence == prior.value.sequence && e.identity == prior.value.digest)
      && (v == Transport.Replay <==>
            !p.partitioned && prior.Some? && e.sequence <= prior.value.sequence
            && !(e.sequence == prior.value.sequence && e.identity == prior.value.digest))
  {
    hide Transport.PriorOf;
  }

  /** A ticket is good once: when its stream has moved, whoever moved it, it is stale. */
  lemma TicketsGoOnce(p: Transport.Peer, t: Transport.Ticket, u: Transport.Ticket, memory: bool, later: bool)
    requires Transport.AcceptTicket(p, t, memory).v == Transport.Accept
    requires u.sender == t.sender && u.frame == t.frame && u.prior != Some(Transport.StreamOf(t))
    ensures Transport.AcceptTicket(Transport.AcceptTicket(p, t, memory).p, u, later).v
            in {Transport.StaleTicket, Transport.Argument}
  {
    hide Transport.TicketValid, Transport.Advanced, Transport.FindStream;
    var r := Transport.PrepareAccept(p, t, memory).p;
    Transport.AdvancedStreams(r.streams, t, t.sender, t.frame);
  }
}
