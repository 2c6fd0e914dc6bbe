/**
 * Admission: inspect, check, reserve both sides, apply, consume both sides. One critical section, one
 * of three verdicts from the application, and nothing half-done whichever way it ends.
 */
module Supervisor {
  import opened Bytes
  import opened Options
  import Authority
  import Transport

  type Id = Authority.Id
  type Envelope = Transport.Envelope

  datatype Application = NotRun | Applied | Held | Refused

  datatype Verdict =
    | Accept | HoldTransport | HoldAuthority | HoldCommit
    | RejectTransport | RejectAuthority | RejectInternal | RejectApplication

  datatype Receipt = Receipt(
    transport: Transport.Verdict, authority: Authority.Verdict, application: Application,
    approvals: U32, expiresAt: U64, revision: U64)

  /** The application: it sees the envelope and the receipt so far, and answers. */
  type Apply = (Envelope, Receipt) -> Application

  /** Whether memory is there for each of the four calls that may need some. */
  datatype Memory = Memory(reserveNonce: bool, reserveStream: bool, nonce: bool, stream: bool)

  datatype Sup = Sup(guard: Authority.Guard, peer: Transport.Peer)

  datatype Admission = Admission(s: Sup, v: Verdict, receipt: Receipt)

  function RequestFor(e: Envelope, now: U64, approvals: U32): Authority.Request {
    Authority.Request(e.lease, e.sender, e.frame, e.action, e.horizon, now, approvals, e.nonce, e.payload)
  }

  function TransportStop(v: Transport.Verdict): Verdict {
    if Transport.IsHold(v) then HoldTransport else RejectTransport
  }

  function AuthorityStop(v: Authority.Verdict): Verdict {
    if v == Authority.HoldLimit then HoldAuthority else RejectAuthority
  }

  function Blank(): Receipt {
    Receipt(Transport.Accept, Authority.Accept, NotRun, 0, 0, 0)
  }

  function Admit(s: Sup, e: Envelope, now: U64, approvals: U32, screen: Transport.Screen, apply: Apply,
      mem: Memory): Admission {
    var seen := Transport.Inspect(s.peer, e, screen);
    var request := RequestFor(e, now, approvals);
    var checked := Authority.CheckVerdict(s.guard, request);
    if seen != Transport.Accept then Admission(s, TransportStop(seen), Blank().(transport := seen))
    else if checked != Authority.Accept then Admission(s, AuthorityStop(checked), Blank().(authority := checked))
    else
      var ticket := Authority.TicketFor(s.guard, request);
      var receipt := Blank().(approvals := approvals, expiresAt := ticket.expiresAt, revision := ticket.revision);
      Reserve(s, e, ticket, now, Transport.TicketFor(s.peer, e), receipt, apply, mem)
  }

  /** Room on both sides before the application runs. */
  function Reserve(s: Sup, e: Envelope, t: Authority.Ticket, now: U64, u: Transport.Ticket, receipt: Receipt,
                   apply: Apply, mem: Memory): Admission {
    var g := Authority.PrepareConsume(s.guard, t, now, mem.reserveNonce);
    var p := Transport.PrepareAccept(s.peer, u, mem.reserveStream);
    if g.v != Authority.Accept then Admission(s.(guard := g.g), AuthorityStop(g.v), receipt.(authority := g.v))
    else if p.v != Transport.Accept then
      Admission(Sup(g.g, p.p), TransportStop(p.v), receipt.(transport := p.v))
    else Finish(Sup(g.g, p.p), t, now, u, receipt.(application := apply(e, receipt)), mem)
  }

  /** The application has answered: consume on both sides, unless it holds or answers out of contract. */
  function Finish(s: Sup, t: Authority.Ticket, now: U64, u: Transport.Ticket, receipt: Receipt,
      mem: Memory): Admission {
    var a := receipt.application;
    if a == Held then Admission(s, HoldCommit, receipt)
    else if a == NotRun then Admission(s, RejectInternal, receipt)
    else
      var g := Authority.Consume(s.guard, t, now, mem.nonce);
      var p := Transport.AcceptTicket(s.peer, u, mem.stream);
      var done := receipt.(authority := g.v, transport := p.v);
      if g.v != Authority.Accept || p.v != Transport.Accept then Admission(Sup(g.g, p.p), RejectInternal, done)
      else Admission(Sup(g.g, p.p), if a == Applied then Accept else RejectApplication, done)
  }

  // ---- one admission ----

  predicate Consumes(v: Verdict) {
    v == Accept || v == RejectApplication
  }

  /** Leases, nonces, revision and streams as before; only reserved room may have grown. */
  predicate Untouched(a: Sup, b: Sup) {
    Authority.SameAuthority(a.guard, b.guard) && Transport.SameStreams(a.peer, b.peer)
  }

  /** Exactly this envelope's nonce and causal position are consumed. */
  predicate Consumed(before: Sup, after: Sup, e: Envelope) {
    && after.guard.leases == before.guard.leases && after.guard.revision == before.guard.revision
    && after.guard.nonces == before.guard.nonces + [Authority.Spent(e.lease, e.nonce)]
    && after.peer.partitioned == before.peer.partitioned
    && after.peer.streams == Transport.Advanced(before.peer.streams, Transport.TicketFor(before.peer, e))
  }

  /**
   * Admission is transactional. Accept and application-reject consume exactly one nonce and one causal position;
   * every other verdict leaves leases, nonces, revision and streams alone; and the internal error is only for an
   * application that answers out of contract: once both sides are reserved, consuming cannot fail.
   */
  lemma AdmitIsTransactional(s: Sup, e: Envelope, now: U64, approvals: U32, screen: Transport.Screen, apply: Apply,
      mem: Memory)
    ensures var a := Admit(s, e, now, approvals, screen, apply, mem);
      && (Consumes(a.v) ==> Consumed(s, a.s, e) && Authority.Spent(e.lease, e.nonce) !in s.guard.nonces)
      && (!Consumes(a.v) ==> Untouched(a.s, s))
      && (a.v == RejectInternal ==> a.receipt.application == NotRun)
      && (a.v == Accept ==> a.receipt.application == Applied)
      && (a.v == RejectApplication ==> a.receipt.application == Refused)
  {
    hide Transport.Inspect, Transport.PrepareAccept, Transport.AcceptTicket, Transport.Advanced,
      Authority.PrepareConsume, Authority.Consume, Authority.CheckVerdict;
    var request := RequestFor(e, now, approvals);
    if Transport.Inspect(s.peer, e, screen) == Transport.Accept
       && Authority.CheckVerdict(s.guard, request) == Authority.Accept
    {
      var t, u := Authority.TicketFor(s.guard, request), Transport.TicketFor(s.peer, e);
      ReserveUntouched(s, t, now, u, mem);
      if Authority.PrepareConsume(s.guard, t, now, mem.reserveNonce).v == Authority.Accept {
        Authority.ReservedConsumes(s.guard, t, now, mem.reserveNonce, mem.nonce);
        if Transport.PrepareAccept(s.peer, u, mem.reserveStream).v == Transport.Accept {
          Transport.ReservedAccepts(s.peer, u, mem.reserveStream, mem.stream);
        }
      }
    }
  }

  lemma ReserveUntouched(s: Sup, t: Authority.Ticket, now: U64, u: Transport.Ticket, mem: Memory)
    ensures Authority.SameAuthority(Authority.PrepareConsume(s.guard, t, now, mem.reserveNonce).g, s.guard)
    ensures Transport.SameStreams(Transport.PrepareAccept(s.peer, u, mem.reserveStream).p, s.peer)
  {
    hide Authority.TicketVerdict, Transport.PriorOf;
  }

  /** A verdict that consumes means both sides accepted: the lease stood, and the envelope was next in its stream. */
  lemma ConsumingMeansChecked(s: Sup, e: Envelope, now: U64, approvals: U32, screen: Transport.Screen, apply: Apply,
      mem: Memory)
    requires Consumes(Admit(s, e, now, approvals, screen, apply, mem).v)
    ensures Authority.CheckVerdict(s.guard, RequestFor(e, now, approvals)) == Authority.Accept
    ensures Transport.Causal(Transport.PriorOf(s.peer, e.sender, e.frame), e) == Transport.Accept
  {
    hide Transport.PrepareAccept, Transport.AcceptTicket, Authority.PrepareConsume, Authority.Consume,
      Authority.CheckVerdict,
      Transport.Causal;
  }

  /** No more is stored than there is reserved room for. */
  predicate Roomy(s: Sup) {
    |s.guard.nonces| <= s.guard.nonceCapacity && |s.peer.streams| <= s.peer.capacity
  }

  lemma AdmitKeepsRoom(s: Sup, e: Envelope, now: U64, approvals: U32, screen: Transport.Screen, apply: Apply,
      mem: Memory)
    requires Roomy(s)
    ensures Roomy(Admit(s, e, now, approvals, screen, apply, mem).s)
  {
    hide Transport.Inspect, Transport.PrepareAccept, Transport.AcceptTicket, Authority.PrepareConsume,
      Authority.Consume, Authority.CheckVerdict;
    var request := RequestFor(e, now, approvals);
    if Authority.CheckVerdict(s.guard, request) == Authority.Accept {
      var t, u := Authority.TicketFor(s.guard, request), Transport.TicketFor(s.peer, e);
      NonceRoom(s.guard, t, now, mem.reserveNonce);
      NonceRoom(Authority.PrepareConsume(s.guard, t, now, mem.reserveNonce).g, t, now, mem.nonce);
      StreamRoom(s.peer, u, mem.reserveStream);
      StreamRoom(Transport.PrepareAccept(s.peer, u, mem.reserveStream).p, u, mem.stream);
    }
  }

  lemma NonceRoom(g: Authority.Guard, t: Authority.Ticket, now: U64, memory: bool)
    requires |g.nonces| <= g.nonceCapacity
    ensures var r := Authority.PrepareConsume(g, t, now, memory).g; |r.nonces| <= r.nonceCapacity
    ensures var r := Authority.Consume(g, t, now, memory).g; |r.nonces| <= r.nonceCapacity
  {
    hide Authority.TicketVerdict;
  }

  lemma StreamRoom(p: Transport.Peer, t: Transport.Ticket, memory: bool)
    requires |p.streams| <= p.capacity
    ensures var r := Transport.PrepareAccept(p, t, memory).p; |r.streams| <= r.capacity
    ensures var r := Transport.AcceptTicket(p, t, memory).p; |r.streams| <= r.capacity
  {
    hide Transport.TicketValid;
  }

  /** What the application is shown. */
  function ReceiptFor(s: Sup, e: Envelope, now: U64, approvals: U32): Receipt
    requires Authority.CheckVerdict(s.guard, RequestFor(e, now, approvals)) == Authority.Accept
  {
    var t := Authority.TicketFor(s.guard, RequestFor(e, now, approvals));
    Blank().(approvals := approvals, expiresAt := t.expiresAt, revision := t.revision)
  }

  /**
   * And conversely: an envelope is consumed if and only if transport and authority accept it, both sides have room
   * for it, and the application applies or refuses it. Nothing else stands between the checks and the verdict.
   */
  lemma ConsumesIff(s: Sup, e: Envelope, now: U64, approvals: U32, screen: Transport.Screen, apply: Apply,
      mem: Memory)
    requires Roomy(s)
    ensures Consumes(Admit(s, e, now, approvals, screen, apply, mem).v)
       <==> && Transport.Inspect(s.peer, e, screen) == Transport.Accept
            && Authority.CheckVerdict(s.guard, RequestFor(e, now, approvals)) == Authority.Accept
            && |s.guard.nonces| < s.guard.nonceLimit
            && (mem.reserveNonce || |s.guard.nonces| < s.guard.nonceCapacity)
            && Transport.TicketValid(Transport.TicketFor(s.peer, e)) && Transport.HasRoom(s.peer, e, mem.reserveStream)
            && apply(e, ReceiptFor(s, e, now, approvals)) in {Applied, Refused}
  {
    hide Transport.Inspect, Transport.PrepareAccept, Transport.AcceptTicket, Transport.Advanced, Transport.HasRoom,
      Authority.PrepareConsume, Authority.Consume, Authority.CheckVerdict, Transport.TicketValid;
    var request := RequestFor(e, now, approvals);
    if Transport.Inspect(s.peer, e, screen) == Transport.Accept
       && Authority.CheckVerdict(s.guard, request) == Authority.Accept
    {
      var t, u := Authority.TicketFor(s.guard, request), Transport.TicketFor(s.peer, e);
      Authority.CheckedReserves(s.guard, request, mem.reserveNonce);
      Transport.InspectedReserves(s.peer, e, mem.reserveStream);
      if Authority.PrepareConsume(s.guard, t, now, mem.reserveNonce).v == Authority.Accept {
        Authority.ReservedConsumes(s.guard, t, now, mem.reserveNonce, mem.nonce);
        if Transport.PrepareAccept(s.peer, u, mem.reserveStream).v == Transport.Accept {
          Transport.ReservedAccepts(s.peer, u, mem.reserveStream, mem.stream);
        }
      }
    }
  }

  // ---- runs ----

  datatype Op =
    | OpAdd(lease: Authority.Lease, memory: bool)
    | OpRevoke(id: Id)
    | OpPartition(partitioned: bool)
    | OpAdmit(e: Envelope, now: U64, approvals: U32, apply: Apply, mem: Memory)

  /** A supervisor and, as a history variable, the envelopes it consumed. */
  datatype World = World(s: Sup, consumed: seq<Envelope>)

  function Do(w: World, op: Op, screen: Transport.Screen): World {
    match op
    case OpAdd(l, memory) => w.(s := w.s.(guard := Authority.AddLease(w.s.guard, l, memory).g))
    case OpRevoke(id) => w.(s := w.s.(guard := Authority.Revoke(w.s.guard, id).g))
    case OpPartition(b) => w.(s := w.s.(peer := w.s.peer.(partitioned := b)))
    case OpAdmit(e, now, approvals, apply, mem) =>
      var a := Admit(w.s, e, now, approvals, screen, apply, mem);
      World(a.s, if Consumes(a.v) then w.consumed + [e] else w.consumed)
  }

  function Run(w: World, ops: seq<Op>, screen: Transport.Screen): World
    decreases ops
  {
    if ops == [] then w else Run(Do(w, ops[0], screen), ops[1..], screen)
  }

  function Start(leaseLimit: nat, nonceLimit: nat, streamLimit: nat): World {
    World(Sup(Authority.Guard([], 0, leaseLimit, [], 0, nonceLimit, 1), Transport.Peer([], 0, streamLimit, false)), [])
  }

  /** The nonces are those of the consumed envelopes, in order. */
  predicate NoncesInv(w: World) {
    && |w.s.guard.nonces| == |w.consumed|
    && forall k :: 0 <= k < |w.consumed| ==>
         w.s.guard.nonces[k] == Authority.Spent(w.consumed[k].lease, w.consumed[k].nonce)
  }

  /** The consumed envelopes of one sender and frame, in order. */
  function Lane(consumed: seq<Envelope>, sender: Id, frame: Id): seq<Envelope> {
    if consumed == [] then []
    else
      var before, last := Lane(consumed[..|consumed| - 1], sender, frame), consumed[|consumed| - 1];
      if last.sender == sender && last.frame == frame then before + [last] else before
  }

  function LastStream(lane: seq<Envelope>): Option<Transport.Stream> {
    if lane == [] then None
    else
      var e := lane[|lane| - 1];
      Some(Transport.Stream(e.sender, e.frame, e.sequence, e.clock, e.identity))
  }

  /** Envelope k of a lane follows the ones before it. */
  predicate LaneStep(lane: seq<Envelope>, k: nat)
    requires k < |lane|
  {
    Transport.Causal(LastStream(lane[..k]), lane[k]) == Transport.Accept
  }

  predicate LaneInv(w: World, sender: Id, frame: Id) {
    var lane := Lane(w.consumed, sender, frame);
    && Transport.PriorOf(w.s.peer, sender, frame) == LastStream(lane)
    && (forall k :: 0 <= k < |lane| ==> LaneStep(lane, k))
  }

  ghost predicate Inv(w: World) {
    && NoncesInv(w) && Authority.GuardInv(w.s.guard) && Roomy(w.s)
    && forall sender: Id, frame: Id :: LaneInv(w, sender, frame)
  }

  lemma LaneGrows(consumed: seq<Envelope>, e: Envelope, sender: Id, frame: Id)
    ensures Lane(consumed + [e], sender, frame)
         == Lane(consumed, sender, frame) + if e.sender == sender && e.frame == frame then [e] else []
  {
    assert (consumed + [e])[..|consumed|] == consumed;
  }

  lemma LaneStepAppended(lane: seq<Envelope>, e: Envelope)
    requires forall k :: 0 <= k < |lane| ==> LaneStep(lane, k)
    requires Transport.Causal(LastStream(lane), e) == Transport.Accept
    ensures forall k :: 0 <= k < |lane + [e]| ==> LaneStep(lane + [e], k)
  {
    hide Transport.Causal;
    var l := lane + [e];
    forall k | 0 <= k < |l| ensures LaneStep(l, k) {
      if k < |lane| {
        assert LaneStep(lane, k) && l[..k] == lane[..k];
      } else {
        assert l[..k] == lane;
      }
    }
  }

  lemma ConsumedLane(w: World, v: World, e: Envelope, sender: Id, frame: Id)
    requires LaneInv(w, sender, frame) && v.consumed == w.consumed + [e]
    requires v.s.peer.streams == Transport.Advanced(w.s.peer.streams, Transport.TicketFor(w.s.peer, e))
    requires Transport.Causal(Transport.PriorOf(w.s.peer, e.sender, e.frame), e) == Transport.Accept
    ensures LaneInv(v, sender, frame)
  {
    hide Transport.Causal, Transport.Advanced, Transport.FindStream, LaneStep, Lane;
    var t := Transport.TicketFor(w.s.peer, e);
    var lane := Lane(w.consumed, sender, frame);
    Transport.AdvancedStreams(w.s.peer.streams, t, sender, frame);
    LaneGrows(w.consumed, e, sender, frame);
    if e.sender == sender && e.frame == frame {
      LaneStepAppended(lane, e);
    } else {
      assert lane + [] == lane;
    }
  }

  lemma AdmitKeeps(w: World, op: Op, screen: Transport.Screen)
    requires Inv(w) && op.OpAdmit?
    ensures Inv(Do(w, op, screen))
  {
    hide Admit, LaneInv, Transport.Causal, Roomy;
    var v := Do(w, op, screen);
    AdmitKeepsRoom(w.s, op.e, op.now, op.approvals, screen, op.apply, op.mem);
    AdmitIsTransactional(w.s, op.e, op.now, op.approvals, screen, op.apply, op.mem);
    if Consumes(Admit(w.s, op.e, op.now, op.approvals, screen, op.apply, op.mem).v) {
      ConsumingMeansChecked(w.s, op.e, op.now, op.approvals, screen, op.apply, op.mem);
      forall sender: Id, frame: Id ensures LaneInv(v, sender, frame) {
        ConsumedLane(w, v, op.e, sender, frame);
      }
    } else {
      forall sender: Id, frame: Id ensures LaneInv(v, sender, frame) {
        SameLane(w, v, sender, frame);
      }
    }
  }

  lemma SameLane(w: World, v: World, sender: Id, frame: Id)
    requires LaneInv(w, sender, frame) && v.consumed == w.consumed && v.s.peer.streams == w.s.peer.streams
    ensures LaneInv(v, sender, frame)
  {
    hide LaneStep, Lane, Transport.FindStream;
  }

  lemma StepKeeps(w: World, op: Op, screen: Transport.Screen)
    requires Inv(w)
    ensures Inv(Do(w, op, screen))
  {
    hide Admit, LaneInv, Authority.AddLease, Authority.Revoke, Authority.NoncesDistinct, Authority.LeasesDistinct;
    if op.OpAdmit? {
      AdmitKeeps(w, op, screen);
    } else {
      var v := Do(w, op, screen);
      if op.OpAdd? {
        Authority.AddKeeps(w.s.guard, op.lease, op.memory);
      } else if op.OpRevoke? {
        Authority.RevokeKeeps(w.s.guard, op.id);
      }
      forall sender: Id, frame: Id ensures LaneInv(v, sender, frame) {
        SameLane(w, v, sender, frame);
      }
    }
  }

  lemma {:induction false} RunKeeps(w: World, ops: seq<Op>, screen: Transport.Screen)
    requires Inv(w)
    ensures Inv(Run(w, ops, screen))
    decreases ops
  {
    hide Inv, Do;
    if ops != [] {
      StepKeeps(w, ops[0], screen);
      RunKeeps(Do(w, ops[0], screen), ops[1..], screen);
    }
  }

  lemma StartIsGood(leaseLimit: nat, nonceLimit: nat, streamLimit: nat)
    ensures Inv(Start(leaseLimit, nonceLimit, streamLimit))
  {}

  /** Over any run no lease's nonce is consumed twice. */
  lemma {:induction false} NoNonceTwice(leaseLimit: nat, nonceLimit: nat, streamLimit: nat, ops: seq<Op>,
      screen: Transport.Screen,
      j: nat, k: nat)
    requires j < k < |Run(Start(leaseLimit, nonceLimit, streamLimit), ops, screen).consumed|
    ensures var c := Run(Start(leaseLimit, nonceLimit, streamLimit), ops, screen).consumed;
      c[j].lease != c[k].lease || c[j].nonce != c[k].nonce
  {
    hide Run, LaneInv;
    StartIsGood(leaseLimit, nonceLimit, streamLimit);
    RunKeeps(Start(leaseLimit, nonceLimit, streamLimit), ops, screen);
    var w := Run(Start(leaseLimit, nonceLimit, streamLimit), ops, screen);
    assert w.s.guard.nonces[j] != w.s.guard.nonces[k];
  }

  lemma {:induction false} LaneCounts(lane: seq<Envelope>, j: nat, k: nat)
    requires forall i :: 0 <= i < |lane| ==> LaneStep(lane, i)
    requires j < k < |lane| < TWO_64
    ensures lane[j].sequence == j + 1 && lane[k].sequence == k + 1
    ensures lane[j].clock < lane[k].clock
    ensures lane[0].parent == ZeroDigest() && lane[k].parent == lane[k - 1].identity
    decreases k
  {
    assert LaneStep(lane, k) && LaneStep(lane, 0);
    assert lane[..k][|lane[..k]| - 1] == lane[k - 1];
    if j < k - 1 {
      LaneCounts(lane, j, k - 1);
    } else if j > 0 {
      LaneCounts(lane, j - 1, j);
    }
  }

  /**
   * Over any run the envelopes consumed from one sender and frame are sequence 1, 2, 3 and so on, with rising
   * clocks and linked digests.
   */
  lemma {:induction false} LanesAreChains(leaseLimit: nat, nonceLimit: nat, streamLimit: nat, ops: seq<Op>,
      screen: Transport.Screen,
      sender: Id, frame: Id, j: nat, k: nat)
    requires var w := Run(Start(leaseLimit, nonceLimit, streamLimit), ops, screen);
      j < k < |Lane(w.consumed, sender, frame)| < TWO_64
    ensures var lane := Lane(Run(Start(leaseLimit, nonceLimit, streamLimit), ops, screen).consumed, sender, frame);
      && lane[j].sequence == j + 1 && lane[k].sequence == k + 1
      && lane[j].clock < lane[k].clock
      && lane[0].parent == ZeroDigest() && lane[k].parent == lane[k - 1].identity
  {
    hide Run, Lane, LaneStep;
    StartIsGood(leaseLimit, nonceLimit, streamLimit);
    RunKeeps(Start(leaseLimit, nonceLimit, streamLimit), ops, screen);
    var w := Run(Start(leaseLimit, nonceLimit, streamLimit), ops, screen);
    assert LaneInv(w, sender, frame);
    LaneCounts(Lane(w.consumed, sender, frame), j, k);
  }

  // ---- revocation ----

  predicate IsRevoked(w: World, id: Id) {
    var i := Authority.FindLease(w.s.guard.leases, id);
    i < |w.s.guard.leases| && w.s.guard.leases[i].revoked
  }

  lemma {:induction false} FindLeaseInPrefix(a: seq<Authority.Lease>, b: seq<Authority.Lease>, id: Id)
    requires a <= b && Authority.FindLease(a, id) < |a|
    ensures Authority.FindLease(b, id) == Authority.FindLease(a, id)
    decreases a
  {
    if a[0].id != id {
      FindLeaseInPrefix(a[1..], b[1..], id);
    }
  }

  lemma {:induction false} FindLeaseUpdated(a: seq<Authority.Lease>, i: nat, l: Authority.Lease, id: Id)
    requires i < |a| && l.id == a[i].id
    ensures Authority.FindLease(a[i := l], id) == Authority.FindLease(a, id)
    decreases a
  {
    var b := a[i := l];
    if i > 0 && a[0].id != id {
      assert b[1..] == a[1..][i - 1 := l];
      FindLeaseUpdated(a[1..], i - 1, l, id);
    } else if i == 0 {
      assert b[1..] == a[1..];
    }
  }

  /** A revoked lease stays revoked, and nothing is admitted under it. */
  lemma RevokedStep(w: World, op: Op, screen: Transport.Screen, id: Id)
    requires IsRevoked(w, id)
    ensures var v := Do(w, op, screen);
      && IsRevoked(v, id) && w.consumed <= v.consumed
      && (forall k :: |w.consumed| <= k < |v.consumed| ==> v.consumed[k].lease != id)
  {
    hide Admit, Authority.FindLease, Authority.LeaseValid, Authority.Grown;
    match op
    case OpAdd(l, memory) =>
      FindLeaseInPrefix(w.s.guard.leases, Authority.AddLease(w.s.guard, l, memory).g.leases, id);
    case OpRevoke(other) =>
      var i := Authority.FindLease(w.s.guard.leases, other);
      if i < |w.s.guard.leases| {
        FindLeaseUpdated(w.s.guard.leases, i, w.s.guard.leases[i].(revoked := true), id);
      }
    case OpPartition(b) =>
    case OpAdmit(e, now, approvals, apply, mem) =>
      AdmitIsTransactional(w.s, e, now, approvals, screen, apply, mem);
      if Consumes(Admit(w.s, e, now, approvals, screen, apply, mem).v) {
        ConsumingMeansChecked(w.s, e, now, approvals, screen, apply, mem);
      }
  }

  lemma {:induction false} RevokedForever(w: World, ops: seq<Op>, screen: Transport.Screen, id: Id)
    requires IsRevoked(w, id)
    ensures var v := Run(w, ops, screen);
      && w.consumed <= v.consumed
      && (forall k :: |w.consumed| <= k < |v.consumed| ==> v.consumed[k].lease != id)
    decreases ops
  {
    hide Do, IsRevoked;
    if ops != [] {
      RevokedStep(w, ops[0], screen, id);
      RevokedForever(Do(w, ops[0], screen), ops[1..], screen, id);
    }
  }

  // ---- the program ----

  class AdmissionSupervisor {
    const guard: Authority.AuthorityGuard
    const peer: Transport.TransportPeer
    const tags: Transport.Tags

    function View(): Sup
      reads this, guard, peer
    {
      Sup(guard.View(), peer.View())
    }

    constructor (leaseLimit: nat, nonceLimit: nat, streamLimit: nat, local: Transport.Local, tags: Transport.Tags)
      ensures peer.local == local && this.tags == tags
      ensures View() == Start(leaseLimit, nonceLimit, streamLimit).s && fresh(guard) && fresh(peer)
    {
      var g := new Authority.AuthorityGuard(leaseLimit, nonceLimit);
      var p := new Transport.TransportPeer(local, streamLimit);
      guard := g;
      peer := p;
      this.tags := tags;
    }

    /** The whole admission, inside one critical section. */
    method AdmitEnvelope(e: Envelope, now: U64, approvals: U32, apply: Apply, mem: Memory)
      returns (v: Verdict, receipt: Receipt)
      modifies guard, peer
      ensures Admission(View(), v, receipt)
           == Admit(old(View()), e, now, approvals, Transport.Screening(peer.local, tags), apply, mem)
    {
      hide Transport.Inspect, Transport.PrepareAccept, Transport.AcceptTicket,
        Authority.PrepareConsume, Authority.Consume, Authority.CheckVerdict, Authority.TicketFor, Transport.TicketFor;
      receipt := Blank();
      var seen, u := peer.InspectEnvelope(e, tags);
      if seen != Transport.Accept {
        return TransportStop(seen), receipt.(transport := seen);
      }
      var checked, t := guard.Check(RequestFor(e, now, approvals));
      if checked != Authority.Accept {
        return AuthorityStop(checked), receipt.(authority := checked);
      }
      var ticket := t.value;
      receipt := receipt.(approvals := approvals, expiresAt := ticket.expiresAt, revision := ticket.revision);
      v, receipt := ReserveAndApply(e, ticket, now, u, receipt, apply, mem);
    }

    method ReserveAndApply(e: Envelope, t: Authority.Ticket, now: U64, u: Transport.Ticket, r: Receipt, apply: Apply,
        mem: Memory)
      returns (v: Verdict, receipt: Receipt)
      modifies guard, peer
      ensures Admission(View(), v, receipt) == Reserve(old(View()), e, t, now, u, r, apply, mem)
    {
      hide Transport.PrepareAccept, Transport.AcceptTicket, Authority.PrepareConsume, Authority.Consume;
      receipt := r;
      var reserved := guard.Prepare(t, now, mem.reserveNonce);
      if reserved != Authority.Accept {
        return AuthorityStop(reserved), receipt.(authority := reserved);
      }
      var ready := peer.Prepare(u, mem.reserveStream);
      if ready != Transport.Accept {
        return TransportStop(ready), receipt.(transport := ready);
      }
      receipt := receipt.(application := apply(e, receipt));
      if receipt.application == Held {
        return HoldCommit, receipt;
      }
      if receipt.application != Applied && receipt.application != Refused {
        return RejectInternal, receipt;
      }
      var consumed := guard.ConsumeTicket(t, now, mem.nonce);
      var accepted := peer.Advance(u, mem.stream);
      receipt := receipt.(authority := consumed, transport := accepted);
      if consumed != Authority.Accept || accepted != Transport.Accept {
        return RejectInternal, receipt;
      }
      v := if receipt.application == Applied then Accept else RejectApplication;
    }
  }
}
