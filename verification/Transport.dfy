/**
 * Causal admission of authenticated envelopes: per sender and frame one stream, whose sequence numbers
 * count up by one, whose clocks move on, and whose parents are the digests before. Before that an envelope is
 * screened: structure, schema, key, recipient, size and three tags. The digest, and the digest under the shared
 * key, are parameters; the laws about streams hold for every screening.
 */
module Transport {
  import opened Bytes
  import opened Options
  import Authority

  type Id = Authority.Id

  /** `payload` is the digest the envelope states for its content, `mac` and `identity` its other two tags. */
  datatype Envelope = Envelope(
    schema: U32, message: U32, sender: Id, recipient: Id, frame: Id, keyId: Id, lease: Id, action: bv32,
    horizon: U64, sequence: U64, clock: U64, nonce: Authority.Nonce, parent: Digest,
    payload: Digest, content: seq<Byte>, mac: Digest, identity: Digest)

  datatype Stream = Stream(sender: Id, frame: Id, sequence: U64, clock: U64, digest: Digest)

  datatype Peer = Peer(streams: seq<Stream>, capacity: nat, limit: nat, partitioned: bool)

  datatype Verdict =
    | Accept | HoldPartition | HoldDuplicate | HoldGap | HoldParent | HoldClock | HoldLimit
    | Argument | Schema | Key | Recipient | Payload | Auth | Identity | Replay | StaleTicket

  predicate IsHold(v: Verdict) {
    v.HoldPartition? || v.HoldDuplicate? || v.HoldGap? || v.HoldParent? || v.HoldClock? || v.HoldLimit?
  }

  /** The stream a ticket continues, as inspection saw it. */
  datatype Ticket = Ticket(
    sender: Id, frame: Id, sequence: U64, clock: U64, digest: Digest, prior: Option<Stream>)

  /** The verdict on everything that does not depend on the streams. */
  type Screen = Envelope -> Verdict

  // ---- screening ----

  const OBSERVATION: U32 := 1
  const PROPOSAL: U32 := 2
  const DECISION: U32 := 3
  const RECEIPT: U32 := 4

  /** What the receiving peer is: its schema, its name, the name of its key, and the most it takes. */
  datatype Local = Local(schema: U32, id: Id, keyId: Id, payloadLimit: nat)

  /** The digest, and the digest under the shared key. */
  datatype Tags = Tags(plain: seq<Byte> -> Digest, keyed: seq<Byte> -> Digest)

  /** One action bit, the one that goes with the message. */
  predicate ActionFits(message: U32, action: bv32) {
    if message == OBSERVATION || message == RECEIPT then action == 1
    else if message == PROPOSAL then action == 2
    else message == DECISION && action in {4, 8, 16, 32}
  }

  predicate WellFormed(e: Envelope) {
    && e.schema > 0 && OBSERVATION <= e.message <= RECEIPT
    && Authority.IdValid(e.sender) && Authority.IdValid(e.recipient) && Authority.IdValid(e.frame)
    && Authority.IdValid(e.keyId) && Authority.IdValid(e.lease)
    && ActionFits(e.message, e.action) && e.sequence > 0 && e.nonce != Authority.ZeroNonce()
    && |e.content| < TWO_64
  }

  function Text(id: Id): seq<Byte> {
    BE(|id|, 2) + id
  }

  /** Every field but the two tags that are computed from it. */
  function MessageBytes(e: Envelope): seq<Byte> {
    BE(e.schema, 4) + (BE(e.message, 4) + NameBytes(e))
  }

  function NameBytes(e: Envelope): seq<Byte> {
    Text(e.sender) + (Text(e.recipient) + (Text(e.frame) + (Text(e.keyId) + (Text(e.lease) + NumberBytes(e)))))
  }

  function NumberBytes(e: Envelope): seq<Byte> {
    BE(ActionNumber(e.action), 4) + (BE(e.horizon, 8) + (BE(e.sequence, 8) + (BE(e.clock, 8) + BodyBytes(e))))
  }

  function BodyBytes(e: Envelope): seq<Byte> {
    e.nonce + (e.parent + (BE(|e.content|, 8) + (e.payload + e.content)))
  }

  function MacBytes(e: Envelope): seq<Byte> {
    Ascii("CDC-RFTC-WIRE-MAC-V1") + [0] + MessageBytes(e)
  }

  function IdentityBytes(e: Envelope): seq<Byte> {
    Ascii("CDC-RFTC-WIRE-ID-V1") + [0] + MessageBytes(e) + e.mac
  }

  /** The first complaint about an envelope, before any stream is looked at. */
  function ScreenEnvelope(l: Local, g: Tags, e: Envelope): Verdict {
    if !WellFormed(e) then Argument
    else if e.schema != l.schema then Schema
    else if e.keyId != l.keyId then Key
    else if e.recipient != l.id then Recipient
    else if |e.content| > l.payloadLimit then HoldLimit
    else if g.plain(e.content) != e.payload then Payload
    else if g.keyed(MacBytes(e)) != e.mac then Auth
    else if g.plain(IdentityBytes(e)) != e.identity then Identity
    else Accept
  }

  function Screening(l: Local, g: Tags): Screen {
    e => ScreenEnvelope(l, g, e)
  }

  /** The sender's side: the three tags, each over the ones before. */
  function Signed(g: Tags, e: Envelope): Envelope {
    var stated := e.(payload := g.plain(e.content));
    var sealed := stated.(mac := g.keyed(MacBytes(stated)));
    sealed.(identity := g.plain(IdentityBytes(sealed)))
  }

  /** What was signed for this peer passes its screening. */
  lemma SignedPasses(l: Local, g: Tags, e: Envelope)
    requires WellFormed(e) && e.schema == l.schema && e.keyId == l.keyId && e.recipient == l.id
    requires |e.content| <= l.payloadLimit
    ensures ScreenEnvelope(l, g, Signed(g, e)) == Accept
  {
    hide BE;
  }

  /** Equal in everything that is signed. */
  predicate SameMessage(a: Envelope, b: Envelope) {
    a.(mac := b.mac, identity := b.identity) == b
  }

  lemma Peel(a: seq<Byte>, b: seq<Byte>, x: seq<Byte>, y: seq<Byte>)
    requires |a| == |b| && a + x == b + y
    ensures a == b && x == y
  {
    assert (a + x)[..|a|] == a && (b + y)[..|b|] == b;
    assert (a + x)[|a|..] == x && (b + y)[|b|..] == y;
  }

  lemma PeelNumber(m: nat, n: nat, w: nat, x: seq<Byte>, y: seq<Byte>)
    requires m < Radix(w) && n < Radix(w) && BE(m, w) + x == BE(n, w) + y
    ensures m == n && x == y
  {
    hide BE, Radix;
    Peel(BE(m, w), BE(n, w), x, y);
    BERoundTrip(m, w);
    BERoundTrip(n, w);
  }

  lemma PeelText(a: Id, b: Id, x: seq<Byte>, y: seq<Byte>)
    requires |a| < 0x1_0000 && |b| < 0x1_0000 && Text(a) + x == Text(b) + y
    ensures a == b && x == y
  {
    hide BE;
    Widths();
    assert BE(|a|, 2) + (a + x) == Text(a) + x && BE(|b|, 2) + (b + y) == Text(b) + y;
    PeelNumber(|a|, |b|, 2, a + x, b + y);
    Peel(a, b, x, y);
  }

  lemma SameBody(a: Envelope, b: Envelope)
    requires |a.content| < TWO_64 && |b.content| < TWO_64 && BodyBytes(a) == BodyBytes(b)
    ensures a.nonce == b.nonce && a.parent == b.parent && a.payload == b.payload && a.content == b.content
  {
    hide BE, Radix;
    Widths();
    var x, y := BE(|a.content|, 8) + (a.payload + a.content), BE(|b.content|, 8) + (b.payload + b.content);
    Peel(a.nonce, b.nonce, a.parent + x, b.parent + y);
    Peel(a.parent, b.parent, x, y);
    PeelNumber(|a.content|, |b.content|, 8, a.payload + a.content, b.payload + b.content);
    Peel(a.payload, b.payload, a.content, b.content);
  }

  /** The number of an action; of six bits only one is ever set. */
  function ActionNumber(action: bv32): U32 {
    if action == 1 then 1 else if action == 2 then 2 else if action == 4 then 4
    else if action == 8 then 8 else if action == 16 then 16 else if action == 32 then 32 else 0
  }

  lemma SameAction(a: bv32, b: bv32)
    requires ActionNumber(a) == ActionNumber(b) != 0
    ensures a == b
  {}

  lemma SameNumbers(a: Envelope, b: Envelope)
    requires NumberBytes(a) == NumberBytes(b) && ActionNumber(a.action) != 0
    ensures a.action == b.action && a.horizon == b.horizon && a.sequence == b.sequence && a.clock == b.clock
    ensures BodyBytes(a) == BodyBytes(b)
  {
    hide BE, Radix, BodyBytes, ActionNumber;
    Widths();
    var clockA, clockB := BE(a.clock, 8) + BodyBytes(a), BE(b.clock, 8) + BodyBytes(b);
    var sequenceA, sequenceB := BE(a.sequence, 8) + clockA, BE(b.sequence, 8) + clockB;
    var horizonA, horizonB := BE(a.horizon, 8) + sequenceA, BE(b.horizon, 8) + sequenceB;
    PeelNumber(ActionNumber(a.action), ActionNumber(b.action), 4, horizonA, horizonB);
    PeelNumber(a.horizon, b.horizon, 8, sequenceA, sequenceB);
    PeelNumber(a.sequence, b.sequence, 8, clockA, clockB);
    PeelNumber(a.clock, b.clock, 8, BodyBytes(a), BodyBytes(b));
    SameAction(a.action, b.action);
  }

  lemma SameNames(a: Envelope, b: Envelope)
    requires WellFormed(a) && WellFormed(b) && NameBytes(a) == NameBytes(b)
    ensures a.sender == b.sender && a.recipient == b.recipient && a.frame == b.frame && a.keyId == b.keyId
    ensures a.lease == b.lease && NumberBytes(a) == NumberBytes(b)
  {
    hide Text, NumberBytes, ActionFits;
    var leaseA, leaseB := Text(a.lease) + NumberBytes(a), Text(b.lease) + NumberBytes(b);
    var keyA, keyB := Text(a.keyId) + leaseA, Text(b.keyId) + leaseB;
    var frameA, frameB := Text(a.frame) + keyA, Text(b.frame) + keyB;
    PeelText(a.sender, b.sender, Text(a.recipient) + frameA, Text(b.recipient) + frameB);
    PeelText(a.recipient, b.recipient, frameA, frameB);
    PeelText(a.frame, b.frame, keyA, keyB);
    PeelText(a.keyId, b.keyId, leaseA, leaseB);
    PeelText(a.lease, b.lease, NumberBytes(a), NumberBytes(b));
  }

  lemma OneAction(e: Envelope)
    requires WellFormed(e)
    ensures ActionNumber(e.action) != 0
  {}

  /** The signed bytes determine every signed field: nothing can be moved from one field into the next. */
  lemma MessageIsDetermined(a: Envelope, b: Envelope)
    requires WellFormed(a) && WellFormed(b) && MessageBytes(a) == MessageBytes(b)
    ensures SameMessage(a, b)
  {
    hide BE, Radix, NameBytes, NumberBytes, BodyBytes, ActionFits;
    Widths();
    PeelNumber(a.schema, b.schema, 4, BE(a.message, 4) + NameBytes(a), BE(b.message, 4) + NameBytes(b));
    PeelNumber(a.message, b.message, 4, NameBytes(a), NameBytes(b));
    SameNames(a, b);
    OneAction(a);
    SameNumbers(a, b);
    SameBody(a, b);
  }

  /**
   * Two envelopes that pass the screening of one peer with one tag are one message, unless the keyed digest
   * collides on the two: whoever alters a signed field must find a collision or know the key.
   */
  lemma OneTagOneMessage(l: Local, g: Tags, a: Envelope, b: Envelope)
    requires ScreenEnvelope(l, g, a) == Accept && ScreenEnvelope(l, g, b) == Accept && a.mac == b.mac
    requires g.keyed(MacBytes(a)) == g.keyed(MacBytes(b)) ==> MacBytes(a) == MacBytes(b)
    ensures SameMessage(a, b) && a.identity == b.identity
  {
    hide MessageBytes, ActionFits, Ascii;
    Peel(Ascii("CDC-RFTC-WIRE-MAC-V1") + [0], Ascii("CDC-RFTC-WIRE-MAC-V1") + [0], MessageBytes(a), MessageBytes(b));
    MessageIsDetermined(a, b);
  }

  predicate Carries(s: Stream, sender: Id, frame: Id) {
    s.sender == sender && s.frame == frame
  }

  function FindStream(streams: seq<Stream>, sender: Id, frame: Id): (i: nat)
    ensures i <= |streams|
    ensures i < |streams| ==> Carries(streams[i], sender, frame)
    ensures forall k :: 0 <= k < i ==> !Carries(streams[k], sender, frame)
  {
    if streams == [] || Carries(streams[0], sender, frame) then 0
    else
      var i := FindStream(streams[1..], sender, frame);
      assert forall k :: 0 < k < 1 + i ==> streams[k] == streams[1..][k - 1];
      1 + i
  }

  /** What the stream so far says about the envelope. */
  function Causal(prior: Option<Stream>, e: Envelope): Verdict {
    if prior.None? then
      if e.sequence != 1 then HoldGap else if e.parent != ZeroDigest() then HoldParent else Accept
    else
      var s := prior.value;
      if e.sequence == s.sequence && e.identity == s.digest then HoldDuplicate
      else if e.sequence <= s.sequence then Replay
      else if e.sequence != Add64(s.sequence, 1) then HoldGap
      else if e.clock <= s.clock then HoldClock
      else if e.parent != s.digest then HoldParent
      else Accept
  }

  function PriorOf(p: Peer, sender: Id, frame: Id): Option<Stream> {
    var i := FindStream(p.streams, sender, frame);
    if i == |p.streams| then None else Some(p.streams[i])
  }

  function Inspect(p: Peer, e: Envelope, screen: Screen): Verdict {
    if screen(e) != Accept then screen(e)
    else if p.partitioned then HoldPartition
    else Causal(PriorOf(p, e.sender, e.frame), e)
  }

  function TicketFor(p: Peer, e: Envelope): Ticket {
    Ticket(e.sender, e.frame, e.sequence, e.clock, e.identity, PriorOf(p, e.sender, e.frame))
  }

  predicate TicketValid(t: Ticket) {
    Authority.IdValid(t.sender) && Authority.IdValid(t.frame) && t.sequence != 0 && t.digest != ZeroDigest()
  }

  datatype Peered = Peered(p: Peer, v: Verdict)

  /** Reserves room for one more stream, if the ticket starts one. */
  function PrepareAccept(p: Peer, t: Ticket, memory: bool): Peered {
    if !TicketValid(t) then Peered(p, Argument)
    else if PriorOf(p, t.sender, t.frame) != t.prior then Peered(p, StaleTicket)
    else if t.prior.Some? then Peered(p, Accept)
    else if |p.streams| >= p.limit then Peered(p, HoldLimit)
    else
      var capacity := Authority.Grown(|p.streams|, p.capacity, 4, p.limit, memory);
      if |p.streams| >= capacity then Peered(p, HoldLimit) else Peered(p.(capacity := capacity), Accept)
  }

  function StreamOf(t: Ticket): Stream {
    Stream(t.sender, t.frame, t.sequence, t.clock, t.digest)
  }

  function Advanced(streams: seq<Stream>, t: Ticket): seq<Stream> {
    var i := FindStream(streams, t.sender, t.frame);
    if i == |streams| then streams + [StreamOf(t)] else streams[i := StreamOf(t)]
  }

  function AcceptTicket(p: Peer, t: Ticket, memory: bool): Peered {
    var r := PrepareAccept(p, t, memory);
    if r.v != Accept then r else Peered(r.p.(streams := Advanced(r.p.streams, t)), Accept)
  }

  predicate SameStreams(a: Peer, b: Peer) {
    a.streams == b.streams && a.limit == b.limit && a.partitioned == b.partitioned
  }

  /** After a reservation accepting cannot fail, even with no memory left, and advances exactly this stream. */
  lemma ReservedAccepts(p: Peer, t: Ticket, memory: bool, later: bool)
    requires PrepareAccept(p, t, memory).v == Accept
    ensures var r := PrepareAccept(p, t, memory).p;
      && SameStreams(r, p)
      && AcceptTicket(r, t, later) == Peered(r.(streams := Advanced(p.streams, t)), Accept)
  {
    hide FindStream, TicketValid;
  }

  /** The room a reservation needs: none for a stream there is, and one more within the limit for a new one. */
  predicate HasRoom(p: Peer, e: Envelope, memory: bool) {
    PriorOf(p, e.sender, e.frame).Some? || (|p.streams| < p.limit && (memory || |p.streams| < p.capacity))
  }

  /** The ticket of an inspected envelope, if well formed, fails for want of room alone. */
  lemma InspectedReserves(p: Peer, e: Envelope, memory: bool)
    requires |p.streams| <= p.capacity
    ensures PrepareAccept(p, TicketFor(p, e), memory).v
         == if !TicketValid(TicketFor(p, e)) then Argument else if HasRoom(p, e, memory) then Accept else HoldLimit
  {
    hide FindStream, TicketValid, PriorOf;
  }

  /** Of all streams, advancing changes the ticket's own and no other. */
  lemma {:induction false} AdvancedStreams(streams: seq<Stream>, t: Ticket, sender: Id, frame: Id)
    ensures var before, after := FindStream(streams, sender, frame), FindStream(Advanced(streams, t), sender, frame);
      var s := Advanced(streams, t);
      && (Carries(StreamOf(t), sender, frame) ==> after < |s| && s[after] == StreamOf(t))
      && (!Carries(StreamOf(t), sender, frame) ==>
            (after < |s| <==> before < |streams|) && (before < |streams| ==> s[after] == streams[before]))
    decreases streams
  {
    if streams != [] && !Carries(streams[0], t.sender, t.frame) {
      AdvancedStreams(streams[1..], t, sender, frame);
      assert Advanced(streams, t) == [streams[0]] + Advanced(streams[1..], t);
      assert Advanced(streams, t)[1..] == Advanced(streams[1..], t);
    } else if streams != [] {
      assert Advanced(streams, t) == [StreamOf(t)] + streams[1..];
      assert Advanced(streams, t)[1..] == streams[1..];
    } else {
      assert Advanced(streams, t) == [StreamOf(t)];
    }
  }

  // ---- the program ----

  class TransportPeer {
    var streams: seq<Stream>
    var capacity: nat
    const limit: nat
    var partitioned: bool
    const local: Local

    function View(): Peer
      reads this
    {
      Peer(streams, capacity, limit, partitioned)
    }

    constructor (local: Local, limit: nat)
      ensures View() == Peer([], 0, limit, false) && this.local == local
    {
      this.local, this.limit := local, limit;
      streams, capacity, partitioned := [], 0, false;
    }

    method Find(sender: Id, frame: Id) returns (i: nat)
      ensures i == FindStream(streams, sender, frame)
    {
      i := 0;
      while i < |streams|
        invariant 0 <= i <= |streams| && forall k :: 0 <= k < i ==> !Carries(streams[k], sender, frame)
      {
        if Carries(streams[i], sender, frame) {
          break;
        }
        i := i + 1;
      }
      FindStreamIs(streams, sender, frame, i);
    }

    /** Authenticates and checks causal admission; changes nothing. */
    method InspectEnvelope(e: Envelope, g: Tags) returns (v: Verdict, t: Ticket)
      ensures v == Inspect(View(), e, Screening(local, g))
      ensures v == Accept ==> t == TicketFor(View(), e)
    {
      hide FindStream, MacBytes, IdentityBytes, WellFormed;
      t := Ticket(e.sender, e.frame, e.sequence, e.clock, e.identity, None);
      if !WellFormed(e) {
        return Argument, t;
      }
      if e.schema != local.schema {
        return Schema, t;
      }
      if e.keyId != local.keyId {
        return Key, t;
      }
      if e.recipient != local.id {
        return Recipient, t;
      }
      if |e.content| > local.payloadLimit {
        return HoldLimit, t;
      }
      if g.plain(e.content) != e.payload {
        return Payload, t;
      }
      if g.keyed(MacBytes(e)) != e.mac {
        return Auth, t;
      }
      if g.plain(IdentityBytes(e)) != e.identity {
        return Identity, t;
      }
      if partitioned {
        return HoldPartition, t;
      }
      var i := Find(e.sender, e.frame);
      if i < |streams| {
        t := t.(prior := Some(streams[i]));
      }
      v := Causal(t.prior, e);
    }

    method Prepare(t: Ticket, memory: bool) returns (v: Verdict)
      modifies this`capacity
      ensures Peered(View(), v) == PrepareAccept(old(View()), t, memory)
    {
      hide FindStream, TicketValid, Authority.Grown;
      if !TicketValid(t) {
        return Argument;
      }
      var i := Find(t.sender, t.frame);
      if t.prior.Some? {
        if i == |streams| || streams[i] != t.prior.value {
          return StaleTicket;
        }
        return Accept;
      }
      if i != |streams| {
        return StaleTicket;
      }
      if |streams| >= limit {
        return HoldLimit;
      }
      var room := Authority.Grown(|streams|, capacity, 4, limit, memory);
      if |streams| >= room {
        return HoldLimit;
      }
      capacity := room;
      v := Accept;
    }

    method Advance(t: Ticket, memory: bool) returns (v: Verdict)
      modifies this`capacity, this`streams
      ensures Peered(View(), v) == AcceptTicket(old(View()), t, memory)
    {
      hide FindStream, PrepareAccept;
      v := Prepare(t, memory);
      if v != Accept {
        return;
      }
      var i := Find(t.sender, t.frame);
      if i == |streams| {
        streams := streams + [StreamOf(t)];
      } else {
        streams := streams[i := StreamOf(t)];
      }
    }
  }

  lemma {:induction false} FindStreamIs(streams: seq<Stream>, sender: Id, frame: Id, i: nat)
    requires i <= |streams| && (i < |streams| ==> Carries(streams[i], sender, frame))
    requires forall k :: 0 <= k < i ==> !Carries(streams[k], sender, frame)
    ensures FindStream(streams, sender, frame) == i
    decreases i
  {
    if i > 0 {
      FindStreamIs(streams[1..], sender, frame, i - 1);
    }
  }
}
