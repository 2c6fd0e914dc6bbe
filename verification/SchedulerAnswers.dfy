/**
 * What the scheduler takes and what it answers: which readings, witnesses and cells it accepts, in which order it gets
 * to its events, what it makes of those that come late or early, and what a composite's state is made of.
 */
module SchedulerAnswers {
  import opened Bytes
  import opened Options
  import Ring
  import opened Frame
  import opened Topology
  import opened Cell
  import CellLaws
  import opened Scheduler
  import opened SchedulerOrder
  import opened SchedulerLaws
  import opened SchedulerWorld
  import opened SchedulerTrail
  import opened SchedulerReport

  // ---- the order of events ----

  /** As strcmp has it: one name starts the other, or they differ first where the lesser has the lesser byte. */
  ghost predicate Precedes(a: Name, b: Name) {
    || (|a| < |b| && a == b[..|a|])
    || exists k :: 0 <= k < |a| && k < |b| && a[..k] == b[..k] && a[k] < b[k]
  }

  lemma {:induction false} NameOrder(a: Name, b: Name)
    ensures NameBefore(a, b) <==> Precedes(a, b)
    decreases a
  {
    if a != [] && b != [] && a[0] == b[0] {
      NameOrder(a[1..], b[1..]);
      if Precedes(a[1..], b[1..]) {
        if |a| < |b| && a[1..] == b[1..][..|a| - 1] {
          assert a == [a[0]] + a[1..] && b[..|a|] == [b[0]] + b[1..][..|a| - 1];
        } else {
          var k :| 0 <= k < |a[1..]| && k < |b[1..]| && a[1..][..k] == b[1..][..k] && a[1..][k] < b[1..][k];
          assert a[..k + 1] == [a[0]] + a[1..][..k] && b[..k + 1] == [b[0]] + b[1..][..k];
        }
      }
      if Precedes(a, b) {
        if |a| < |b| && a == b[..|a|] {
          assert a[1..] == b[1..][..|a| - 1];
        } else {
          var k :| 0 <= k < |a| && k < |b| && a[..k] == b[..k] && a[k] < b[k];
          assert k > 0 && a[1..][..k - 1] == a[..k][1..] && b[1..][..k - 1] == b[..k][1..];
        }
      }
    } else if a != [] && b != [] {
      assert a[..0] == b[..0];
    } else if a == [] && b != [] {
      assert a == b[..0];
    }
  }

  /** Lower clocks first; at one clock readings before witnesses; then by cell, by member, and by age. */
  lemma EventOrder(a: Event, b: Event)
    ensures EventBefore(a, b)
       <==> || EventClock(a) < EventClock(b)
            || (EventClock(a) == EventClock(b) && a.Observed? && b.Attested?)
            || (EventClock(a) == EventClock(b) && a.Observed? == b.Observed? && Precedes(EventCell(a), EventCell(b)))
            || (SameKey(a.(sequence := 0), b.(sequence := 0)) && a.sequence < b.sequence)
            || (a.Observed? && b.Observed? && a.reading.clock == b.reading.clock && a.reading.cell == b.reading.cell
                && a.reading.member < b.reading.member)
  {
    NameOrder(EventCell(a), EventCell(b));
    NamesIrreflexive(EventCell(a));
  }

  /** The answers of a drain come in that order. */
  predicate Ascending(a: seq<Answered>) {
    forall j, k :: 0 <= j < k < |a| ==> EventBefore(a[j].event, a[k].event)
  }

  lemma {:induction false} AnswersAscend(e: Env, f: seq<Spec>, m: Machine, q: seq<Event>, maximum: nat)
    requires Forest(f) && Shaped(f, m) && DistinctKeys(q)
    ensures Ascending(Answers(e, f, m, q, maximum))
    ensures forall k :: 0 <= k < |Answers(e, f, m, q, maximum)| ==> Answers(e, f, m, q, maximum)[k].event in q
    decreases |q|
  {
    hide ApplyEvent, Forest, MinimumEvent, Takes, Counted, EventBefore, DistinctKeys, Least;
    if q != [] && m.report.processed < maximum {
      var i := MinimumEvent(q);
      var a := ApplyEvent(e, f, m, q[i]);
      if a.consumed && (a.o == Ok || a.o == HoldDuplicate) {
        var u := a.m.(report := Counted(a.m.report, a.o));
        WithoutKeys(q, i);
        AnswersAscend(e, f, u, Without(q, i), maximum);
        var rest := Answers(e, f, u, Without(q, i), maximum);
        forall k | 0 <= k < |rest| ensures EventBefore(q[i], rest[k].event) && rest[k].event in q {
          LeastComesFirst(q, i, rest[k].event);
        }
      }
    }
  }

  lemma LeastComesFirst(q: seq<Event>, i: nat, v: Event)
    requires q != [] && i == MinimumEvent(q) && DistinctKeys(q) && v in Without(q, i)
    ensures EventBefore(q[i], v) && v in q
  {
    hide EventBefore, SameKey, MinimumEvent;
    MinimumIsLeast(q);
    var k :| 0 <= k < |q| - 1 && Without(q, i)[k] == v;
    var j := if k < i then k else k + 1;
    assert q[j] == v && j != i;
    EventsTotal(q[i], q[j]);
    SymmetricKey(q[i], q[j]);
  }

  // ---- events that come late or early ----

  /** Said again, the witness that comes with it aside. */
  predicate Retells(slot: Option<Reading>, r: Reading) {
    && slot.Some? && slot.value.cell == r.cell && slot.value.member == r.member && slot.value.phase == r.phase
    && slot.value.observedAt == r.observedAt && slot.value.clock == r.clock && slot.value.source == r.source
    && slot.value.frameVersion == r.frameVersion && slot.value.windowStart == r.windowStart
    && slot.value.windowEnd == r.windowEnd && slot.value.sealTime == r.sealTime
  }

  lemma RetellsIsCore(slot: Option<Reading>, r: Reading)
    ensures slot.Some? ==> (SameCore(slot.value, r) <==> Retells(slot, r))
  {}

  /**
   * A reading for a clock its leaf has committed changes nothing and leaves the queue: as a duplicate if it retells one
   * of the frame committed at that very clock, and as an error if not.
   */
  lemma {:induction false} LateReading(e: Env, f: seq<Spec>, m: Machine, i: nat, k: nat, r: Reading)
    requires Forest(f) && Shaped(f, m) && i == FindCell(f, r.cell) < |f| && f[i].leaf
    requires k == Ring.Find(f[i].members, r.member) < |f[i].members|
    requires m.works[i].state.Some? && r.clock <= m.works[i].state.value.clock
    ensures var again := r.clock == m.works[i].state.value.clock && Retells(m.works[i].committed[k], r);
      ApplyReading(e, f, m, r) == Applied(m, if again then HoldDuplicate else ErrFrame, true)
  {
    RetellsIsCore(m.works[i].committed[k], r);
  }

  /** So does a witness; it is a duplicate if it is the one that was used up at that clock. */
  lemma {:induction false} LateWitness(e: Env, f: seq<Spec>, m: Machine, id: Name, clock: U64, x: Witness)
    requires Forest(f) && Shaped(f, m) && FindCell(f, id) < |f|
    requires m.works[FindCell(f, id)].state.Some? && clock <= m.works[FindCell(f, id)].state.value.clock
    ensures var w := m.works[FindCell(f, id)];
      var again := clock == w.state.value.clock && w.spent == Some(Held(clock, x));
      ApplyWitness(e, f, m, id, clock, x) == Applied(m, if again then HoldDuplicate else ErrConflict, true)
  {}

  /**
   * While a leaf gathers the batch of one clock, a reading or witness for a later one is held and stays queued, and one
   * of another batch up to that clock, or for an earlier one, is an error; none of them changes anything.
   */
  lemma {:induction false} OtherBatch(e: Env, f: seq<Spec>, m: Machine, i: nat, r: Reading)
    requires Forest(f) && Shaped(f, m) && i == FindCell(f, r.cell) < |f| && f[i].leaf && r.member in f[i].members
    requires m.works[i].batch.Some? && m.works[i].batch.value != ReadingBatch(r)
    requires m.works[i].state.Some? ==> m.works[i].state.value.clock < r.clock
    ensures var open := m.works[i].batch.value.clock;
      ApplyReading(e, f, m, r)
      == if r.clock > open then Applied(m, HoldIncomplete, false) else Applied(m, ErrFrame, true)
  {
  }

  lemma {:induction false} OtherClock(e: Env, f: seq<Spec>, m: Machine, i: nat, clock: U64, x: Witness)
    requires Forest(f) && Shaped(f, m) && i < |f| && i == FindCell(f, f[i].id) && f[i].leaf
    requires m.works[i].batch.Some? ==> m.works[i].batch.value.clock != clock
    requires m.works[i].state.Some? ==> m.works[i].state.value.clock < clock
    ensures var early := m.works[i].batch.None? || m.works[i].batch.value.clock < clock;
      ApplyWitness(e, f, m, f[i].id, clock, x)
      == if early then Applied(m, HoldIncomplete, false) else Applied(m, ErrFrame, true)
  {}

  /** A cell that holds a witness takes no other: the same again is a duplicate, any other a conflict. */
  lemma {:induction false} SecondWitness(e: Env, f: seq<Spec>, m: Machine, i: nat, clock: U64, x: Witness)
    requires Forest(f) && Shaped(f, m) && i < |f| && i == FindCell(f, f[i].id) && m.works[i].held.Some?
    requires m.works[i].state.Some? ==> m.works[i].state.value.clock < clock
    requires f[i].leaf ==> m.works[i].batch.Some? && m.works[i].batch.value.clock == clock
    ensures var same := m.works[i].held == Some(Held(clock, x));
      ApplyWitness(e, f, m, f[i].id, clock, x) == Applied(m, if same then HoldDuplicate else ErrConflict, true)
  {}

  /** It tells a member otherwise than before, or brings another witness than the one that is held. */
  predicate Contradicts(w: Work, k: nat, r: Reading)
    requires k < |w.pending|
  {
    || (w.pending[k].Some? && !Retells(w.pending[k], r))
    || (r.attached.Some? && w.held.Some? && w.held != Some(Held(r.clock, r.attached.value)))
  }

  predicate BringsWitness(w: Work, r: Reading) {
    r.attached.Some? && w.held.None?
  }

  function Opened(w: Work, r: Reading): Work {
    w.(batch := Some(Batch(r.clock, r.windowStart, r.windowEnd, r.sealTime)))
  }

  /** The leaf with the reading in its slot, if that was empty, and its witness held, if none was. */
  function Joined(w: Work, k: nat, r: Reading): Work
    requires k < |w.pending|
  {
    var told := w.pending[k].Some?;
    Opened(w, r).(pending := if told then w.pending else w.pending[k := Some(r)],
                  count := if told then w.count else w.count + 1,
                  held := if BringsWitness(w, r) then Some(Held(r.clock, r.attached.value)) else w.held)
  }

  /**
   * A reading of the open batch, or the first of a new one, fills its slot, and its witness is held if the cell holds
   * none. It is a duplicate if it brings neither; if it contradicts the slot or the witness it is a conflict and does
   * nothing but open the batch. A full batch is reduced, and a hold for want of a frame does not count against it.
   */
  lemma {:induction false} JoinsBatch(e: Env, f: seq<Spec>, m: Machine, i: nat, k: nat, r: Reading)
    requires Forest(f) && Shaped(f, m) && i == FindCell(f, r.cell) < |f| && f[i].leaf
    requires k == Ring.Find(f[i].members, r.member) < |f[i].members|
    requires m.works[i].batch.Some? ==> m.works[i].batch.value == ReadingBatch(r)
    requires m.works[i].state.Some? ==> m.works[i].state.value.clock < r.clock
    ensures var w := m.works[i];
      var v := With(m, i, Joined(w, k, r));
      var done := if w.pending[k].Some? && !BringsWitness(w, r) then HoldDuplicate else Ok;
      ApplyReading(e, f, m, r) ==
        if Contradicts(w, k, r) then Applied(With(m, i, Opened(w, r)), ErrConflict, true)
        else if Joined(w, k, r).count != |f[i].members| then Applied(v, done, true)
        else
          var s := ReduceLeaf(e, f, v, i);
          Applied(s.m, if s.o in {Ok, HoldIncomplete} then done else s.o, true)
  {
    hide ReduceLeaf, FindCell, Ring.Find, SameCore, Retells;
    RetellsIsCore(m.works[i].pending[k], r);
    assert forall x: Work :: With(With(m, i, Opened(m.works[i], r)), i, x) == With(m, i, x);
  }

  /**
   * A witness that a cell can take is held and counted. A leaf whose batch is not full leaves it at that; otherwise the
   * cell is reduced, and that no frame comes of it does not count against the witness.
   */
  lemma {:induction false} HoldsWitness(e: Env, f: seq<Spec>, m: Machine, i: nat, clock: U64, x: Witness)
    requires Forest(f) && Shaped(f, m) && i < |f| && i == FindCell(f, f[i].id)
    requires Takes(f, m, Attested(f[i].id, clock, x, 0))
    ensures var v := Holding(m, i, Held(clock, x));
      var s := if f[i].leaf then ReduceLeaf(e, f, v, i) else ReduceComposite(e, f, v, i);
      ApplyWitness(e, f, m, f[i].id, clock, x) ==
        if f[i].leaf && m.works[i].count != |f[i].members| then Applied(v, Ok, true)
        else Applied(s.m, if s.o in {HoldIncomplete, HoldDuplicate} then Ok else s.o, true)
  {
    hide ReduceLeaf, ReduceComposite, FindCell;
  }

  // ---- what is accepted ----

  /** It is of this member of this leaf, of its frame, complete, over, and neither told nor taken too late. */
  predicate Tellable(c: Spec, r: Reading, now: U64) {
    && c.leaf && c.id == r.cell && r.member in c.members && r.frameVersion == c.frameVersion
    && 1 <= |r.cell| <= 63 && 0 !in {r.member, r.clock} && r.clock <= c.horizon && r.source != ZeroDigest()
    && r.windowStart <= r.observedAt && r.observedAt <= r.windowEnd && r.windowEnd <= r.sealTime && r.sealTime <= now
    && now - r.sealTime <= c.staleAfter && r.sealTime - r.observedAt <= c.staleAfter
  }

  predicate Tells(x: Witness, clock: U64) {
    && x.kind != NoEvent && 0 !in {x.clock, x.from, x.to} && x.clock <= clock && x.evidence != ZeroDigest()
  }

  /**
   * The leaf can still use it: it is ahead of its state; if of the clock of its open batch it is of that batch, agrees
   * with the slot and says something new; and it brings no second witness.
   */
  predicate Useful(w: Work, slot: Option<Reading>, r: Reading) {
    && (w.state.Some? ==> w.state.value.clock < r.clock)
    && (w.batch.Some? && w.batch.value.clock == r.clock ==>
          && w.batch.value == Batch(r.clock, r.windowStart, r.windowEnd, r.sealTime)
          && (slot.Some? ==> Retells(slot, r) && r.attached.Some?))
    && (r.attached.Some? && w.held.Some? ==> w.held == Some(Held(r.clock, r.attached.value)))
  }

  lemma CellAccepts(c: Spec, w: Work, k: nat, r: Reading, now: U64)
    requires k < |w.pending| == |w.committed| && ReadingOk(r, now)
    ensures CellVerdict(c, w, k, r, now) == Ok
       <==> && r.frameVersion == c.frameVersion && r.clock <= c.horizon
            && (r.attached.Some? && r.attached.value.kind == FrameChange ==> FrameChangeExpected(c, w))
            && now - r.sealTime <= c.staleAfter && r.sealTime - r.observedAt <= c.staleAfter
            && Useful(w, w.pending[k], r)
  {
    hide FrameChangeExpected;
    RetellsIsCore(w.pending[k], r);
  }

  lemma {:induction false} RefusalIsNotOk(q: seq<Event>, r: Reading, k: nat)
    requires k <= |q| && QueueVerdict(q, r, k).Refuse?
    ensures QueueVerdict(q, r, k).o != Ok
    decreases |q| - k
  {
    var verdict := QueueVerdict(q, r, k);
    if !SchedulerWorld.SameFrame(q[k], r) || verdict == QueueVerdict(q, r, k + 1) {
      RefusalIsNotOk(q, r, k + 1);
    }
  }

  /**
   * Publishing a reading reports OK exactly when it can be told and used, the queue does not refuse it, and has
   * room.
   */
  lemma {:induction false} PublishAccepts(s: Sched, r: Reading, now: U64)
    requires Shaped(s.f, s.m)
    ensures Publish(s, r, now).o == Ok
       <==> && s.sealed && FindCell(s.f, r.cell) < |s.f|
            && var i := FindCell(s.f, r.cell);
            && var c, w, a := s.f[i], s.m.works[i], QueueVerdict(s.q, r, 0);
            && Tellable(c, r, now)
            && (r.attached.Some? ==>
                  Tells(r.attached.value, r.clock)
                  && (r.attached.value.kind == FrameChange ==> FrameChangeExpected(c, w)))
            && Useful(w, w.pending[Ring.Find(c.members, r.member)], r)
            && !a.Refuse? && (a.Append? ==> |s.q| < s.limits.events && s.next < TWO_64 - 1)
  {
    hide QueueVerdict, FrameChangeExpected, CellVerdict, Useful, FindCell, Ring.Find;
    if QueueVerdict(s.q, r, 0).Refuse? {
      RefusalIsNotOk(s.q, r, 0);
    }
    var i := FindCell(s.f, r.cell);
    if i < |s.f| && s.f[i].leaf && Ring.Find(s.f[i].members, r.member) < |s.f[i].members| && ReadingOk(r, now) {
      CellAccepts(s.f[i], s.m.works[i], Ring.Find(s.f[i].members, r.member), r, now);
    }
  }

  /** A reading for a clock its leaf has committed is refused: as a duplicate if it retells one of that frame, with no
      witness or the one that was used up, and as an error if not. */
  lemma PublishesLate(s: Sched, r: Reading, now: U64)
    requires Shaped(s.f, s.m) && s.sealed && FindCell(s.f, r.cell) < |s.f|
    requires var i := FindCell(s.f, r.cell);
      && Tellable(s.f[i], r, now) && s.m.works[i].state.Some? && r.clock <= s.m.works[i].state.value.clock
    requires r.attached.Some? ==> Tells(r.attached.value, r.clock) && r.attached.value.kind != FrameChange
    ensures var i := FindCell(s.f, r.cell);
      var w, k := s.m.works[i], Ring.Find(s.f[i].members, r.member);
      var again := r.clock == w.state.value.clock && Retells(w.committed[k], r)
                   && (r.attached.Some? ==> w.spent == Some(Held(r.clock, r.attached.value)));
      Publish(s, r, now) == Answer(s, if again then HoldDuplicate else ErrFrame)
  {
    hide QueueVerdict, FindCell, Ring.Find;
    var i := FindCell(s.f, r.cell);
    RetellsIsCore(s.m.works[i].committed[Ring.Find(s.f[i].members, r.member)], r);
  }

  /** And a witness, exactly when it tells something of a later clock and neither cell nor queue has one for it. */
  lemma {:induction false} WitnessAccepts(s: Sched, id: Name, clock: U64, x: Witness)
    requires Shaped(s.f, s.m)
    ensures PublishWitness(s, id, clock, x).o == Ok
       <==> && s.sealed && 1 <= |id| <= 63 && clock != 0 && Tells(x, clock) && FindCell(s.f, id) < |s.f|
            && var c, w := s.f[FindCell(s.f, id)], s.m.works[FindCell(s.f, id)];
            && clock <= c.horizon && (x.kind == FrameChange ==> FrameChangeExpected(c, w))
            && (w.state.Some? ==> w.state.value.clock < clock) && w.held.None?
            && (forall k :: 0 <= k < |s.q| ==> QueuedWitness(s.q[k], id, clock).None?)
            && |s.q| < s.limits.events && s.next < TWO_64 - 1
  {
    hide FrameChangeExpected, QueuedWitness;
    NoneQueued(s.q, id, clock, x, 0);
  }

  lemma {:induction false} NoneQueued(q: seq<Event>, id: Name, clock: U64, x: Witness, k: nat)
    requires k <= |q|
    ensures QueueWitnessVerdict(q, id, clock, x, k) == Ok
       <==> forall j :: k <= j < |q| ==> QueuedWitness(q[j], id, clock).None?
    ensures QueueWitnessVerdict(q, id, clock, x, k) == HoldDuplicate ==>
      exists j :: k <= j < |q| && QueuedWitness(q[j], id, clock) == Some(x)
    decreases |q| - k
  {
    hide QueuedWitness;
    if k < |q| {
      NoneQueued(q, id, clock, x, k + 1);
    }
  }

  // ---- what a state is made of ----

  /** The span of some children: from the earliest start to the latest end, up to the nearest horizon. */
  lemma {:induction false} SpanCovers(c: Spec, m: Machine, n: nat)
    requires 1 <= n <= |c.children| && forall k :: 0 <= k < |c.children| ==> c.children[k] < |m.works|
    requires AllReady(c, m, n)
    ensures var span := ChildSpan(c, m, n);
      && (forall k :: 0 <= k < n ==>
            var st := ChildState(c, m, k).value;
            span.windowStart <= st.windowStart && st.windowEnd <= span.windowEnd && span.horizon <= st.horizon)
      && (exists k :: 0 <= k < n && ChildState(c, m, k).value.windowStart == span.windowStart)
      && (exists k :: 0 <= k < n && ChildState(c, m, k).value.windowEnd == span.windowEnd)
      && (exists k :: 0 <= k < n && ChildState(c, m, k).value.horizon == span.horizon)
    decreases n
  {
    var st := ChildState(c, m, n - 1).value;
    if n > 1 {
      SpanCovers(c, m, n - 1);
    }
  }

  /** What a composite is shown of each child: its mean phase, at the end of its window, with its digest as source. */
  predicate ShowsChildren(c: Spec, m: Machine, obs: seq<Observation>)
    requires forall k :: 0 <= k < |c.children| ==> c.children[k] < |m.works| && ChildState(c, m, k).Some?
  {
    && |obs| == |c.children| == |c.members| == |c.succs|
    && forall k :: 0 <= k < |obs| ==>
         var st := ChildState(c, m, k).value;
         && obs[k].member == c.members[k] && obs[k].succ == c.succs[k] && obs[k].phase == st.macro.meanPhase
         && obs[k].observedAt == st.windowEnd && obs[k].clock == st.clock && obs[k].source == st.digest
  }

  /**
   * A composite's new state: at the clock all its children stand at, over the span of their windows, up to the nearest
   * of their horizons and its own, and of their mean phases, in the order of its ring.
   */
  lemma {:induction false} CompositeSays(e: Env, f: seq<Spec>, m: Machine, i: nat)
    requires Forest(f) && Shaped(f, m) && i < |f| && CompositeTries(e, f, m, i)
    requires var c, w := f[i], m.works[i];
      var evidence := EvidenceFor(w.held, ChildState(c, m, 0).value.clock);
      Reduce(e.H, e.R, c.id, CompositeFrame(e, c, m).snapshot, NearerHorizon(c, m), w.state, evidence).Reduced?
    ensures var c, w := f[i], m.works[i];
      var evidence := EvidenceFor(w.held, ChildState(c, m, 0).value.clock);
      var s, span := CompositeFrame(e, c, m).snapshot, ChildSpan(c, m, |c.children|);
      var q := Reduce(e.H, e.R, c.id, s, NearerHorizon(c, m), w.state, evidence).state;
      && (forall k :: 0 <= k < |c.children| ==> ChildState(c, m, k).value.clock == q.clock)
      && q.windowStart == span.windowStart && q.windowEnd == span.windowEnd && q.count == |c.children|
      && q.horizon <= span.horizon && q.horizon <= c.horizon && q.horizon in {span.horizon, c.horizon}
      && q.snapshotDigest == s.digest && ShowsChildren(c, m, ChildObservations(c, m))
      && ListsAll(s, ChildObservations(c, m)) && q.macro == e.R(Phases(s.observations), Members(s.observations))
  {
    hide Reduce, Seal, ChildSpan, ListsAll, SnapshotValid, Ring.IsRing;
    var c, w := f[i], m.works[i];
    var evidence := EvidenceFor(w.held, ChildState(c, m, 0).value.clock);
    var s, span := CompositeFrame(e, c, m).snapshot, ChildSpan(c, m, |c.children|);
    CompositeFrameClock(e, c, m);
    SealYieldsRing(e.H, FrameConfig(c, span.windowStart, span.windowEnd), ChildObservations(c, m), span.windowEnd);
    CellLaws.ReducedSays(e.H, e.R, c.id, s, NearerHorizon(c, m), w.state, evidence);
    ListedCount(s, ChildObservations(c, m));
  }

  lemma ListedCount(s: Snapshot, obs: seq<Observation>)
    requires ListsAll(s, obs)
    ensures |s.observations| == |obs|
  {}

  /** What a leaf is shown of each member: its reading. */
  predicate ShowsReadings(c: Spec, w: Work, obs: seq<Observation>) {
    && |obs| == |c.members| == |c.succs| == |w.pending|
    && forall k :: 0 <= k < |obs| ==>
         && w.pending[k].Some?
         && var r := w.pending[k].value;
         obs[k] == Observation(c.members[k], c.succs[k], r.phase, r.observedAt, r.clock, r.source)
  }

  /** A leaf's new state: of its batch and its readings, up to its own horizon. */
  lemma LeafSays(e: Env, c: Spec, w: Work)
    requires LeafInv(c, w) && w.count == |c.members| == |c.succs| && |c.members| >= 2
    requires LeafFrame(e, c, w).Sealed?
    requires var evidence := EvidenceFor(w.held, BatchOf(w).clock);
      Reduce(e.H, e.R, c.id, LeafFrame(e, c, w).snapshot, c.horizon, w.state, evidence).Reduced?
    ensures var s, evidence := LeafFrame(e, c, w).snapshot, EvidenceFor(w.held, BatchOf(w).clock);
      var q := Reduce(e.H, e.R, c.id, s, c.horizon, w.state, evidence).state;
      && w.batch.Some? && q.clock == w.batch.value.clock && q.windowStart == w.batch.value.windowStart
      && q.windowEnd == w.batch.value.windowEnd && q.horizon == c.horizon && q.count == |c.members|
      && q.snapshotDigest == s.digest && ShowsReadings(c, w, LeafObservations(c, w))
      && ListsAll(s, LeafObservations(c, w)) && q.macro == e.R(Phases(s.observations), Members(s.observations))
  {
    hide Reduce, Seal, ListsAll, SnapshotValid, Ring.IsRing, Present;
    var s, b := LeafFrame(e, c, w).snapshot, BatchOf(w);
    LeafFrameClock(e, c, w);
    PresentBound(w.pending);
    SealYieldsRing(e.H, FrameConfig(c, b.windowStart, b.windowEnd), LeafObservations(c, w), b.sealTime);
    CellLaws.ReducedSays(e.H, e.R, c.id, s, c.horizon, w.state, EvidenceFor(w.held, b.clock));
    ListedCount(s, LeafObservations(c, w));
  }

  // ---- adding cells ----

  /** The cells it names as children exist, have no parent yet, and are named once each. */
  predicate FreeChildren(f: seq<Spec>, ids: seq<Name>) {
    && (forall k :: 0 <= k < |ids| ==>
          1 <= |ids[k]| <= 63 && FindCell(f, ids[k]) < |f| && f[FindCell(f, ids[k])].parent.None?)
    && (forall j, k :: 0 <= j < k < |ids| ==> ids[j] != ids[k])
  }

  lemma {:induction false} ResolvesIff(f: seq<Spec>, ids: seq<Name>, n: nat)
    requires n <= |ids|
    ensures var r := Resolve(f, ids, n);
      && (r.Resolved? <==> FreeChildren(f, ids[..n]))
      && (r.Resolved? ==> |r.children| == n && forall k :: 0 <= k < n ==> r.children[k] == FindCell(f, ids[k]))
    decreases n
  {
    hide FindCell;
    if n > 0 {
      ResolvesIff(f, ids, n - 1);
      var r := Resolve(f, ids, n - 1);
      assert ids[..n] == ids[..n - 1] + [ids[n - 1]];
      if FreeChildren(f, ids[..n]) {
        assert forall k :: 0 <= k < n ==> ids[..n][k] == ids[k];
        assert FreeChildren(f, ids[..n - 1]);
      }
    }
  }

  /** And they are one level below the depth that is found, at least one of them exactly. */
  lemma {:induction false} ResolvedDepth(f: seq<Spec>, ids: seq<Name>, n: nat)
    requires n <= |ids| && Resolve(f, ids, n).Resolved?
    ensures var r := Resolve(f, ids, n);
      && |r.children| == n
      && (forall k :: 0 <= k < n ==> r.children[k] < |f| && f[r.children[k]].depth < r.depth)
      && if n == 0 then r.depth == 0 else exists k :: 0 <= k < n && r.depth == f[r.children[k]].depth + 1
    decreases n
  {
    hide FindCell;
    if n > 0 {
      ResolvedDepth(f, ids, n - 1);
      var before, r := Resolve(f, ids, n - 1), Resolve(f, ids, n);
      if r.depth == f[r.children[n - 1]].depth + 1 {
        assert r.depth == f[r.children[n - 1]].depth + 1;
      } else {
        var k :| 0 <= k < n - 1 && before.depth == f[before.children[k]].depth + 1;
        assert r.children[k] == before.children[k];
      }
    }
  }

  /**
   * Adding a cell reports OK exactly when the forest is open and has room, the name is new, the cell is well put, its
   * links are a ring, and a composite's children are free and not too deep.
   */
  lemma AddAccepts(s: Sched, n: NewCell, ring: bool)
    requires WellFormed(n)
    ensures AddCell(s, n, ring).o == Ok
       <==> && !s.sealed && |s.f| < s.limits.cells && FindCell(s.f, n.id) == |s.f|
            && 1 <= |n.id| <= 63 && |n.members| <= s.limits.events && ring
            && 0 !in {n.frameVersion, n.reducerVersion, n.topologyVersion, n.horizon}
            && (!n.leaf ==>
                  && FreeChildren(s.f, n.childIds)
                  && forall k :: 0 <= k < |n.childIds| ==> s.f[FindCell(s.f, n.childIds[k])].depth < s.limits.depth)
  {
    hide FindCell, Added, FreeChildren;
    assert n.childIds[..|n.childIds|] == n.childIds;
    ResolvesIff(s.f, n.childIds, |n.childIds|);
    if Resolve(s.f, n.childIds, |n.childIds|).Resolved? {
      ResolvedDepth(s.f, n.childIds, |n.childIds|);
    }
    ResolutionFails(s.f, n.childIds, |n.childIds|);
  }

  lemma {:induction false} ResolutionFails(f: seq<Spec>, ids: seq<Name>, n: nat)
    requires n <= |ids|
    ensures Resolve(f, ids, n).Unresolved? ==> Resolve(f, ids, n).o != Ok
    decreases n
  {
    if n > 0 {
      ResolutionFails(f, ids, n - 1);
    }
  }
}
