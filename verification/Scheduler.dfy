/**
 * The recursive scheduler, as functions: a forest of leaf and composite cells, pending readings per
 * leaf, and an event queue drained by least key, with commits climbing from child to parent.
 */
module Scheduler {
  import opened Bytes
  import opened Options
  import opened Ring
  import opened Frame
  import opened Topology
  import opened Cell

  /** A published observation of one member of one leaf. */
  datatype Reading = Reading(
    cell: Name, member: U64, phase: real, observedAt: U64, clock: U64, frameVersion: U64,
    windowStart: U64, windowEnd: U64, sealTime: U64, source: Digest, attached: Option<Witness>)

  /** The fixed part of a cell. */
  datatype Spec = Spec(
    id: Name, leaf: bool, members: seq<U64>, succs: seq<U64>, children: seq<nat>, parent: Option<nat>, depth: nat,
    frameVersion: U64, reducerVersion: U64, topologyVersion: U64, staleAfter: U64, horizon: U64)

  datatype Batch = Batch(clock: U64, windowStart: U64, windowEnd: U64, sealTime: U64)

  /** A transition witness waiting for, or spent on, the frame of one clock. */
  datatype Held = Held(target: U64, w: Witness)

  /** The changing part of a cell. */
  datatype Work = Work(
    pending: seq<Option<Reading>>, committed: seq<Option<Reading>>, count: nat,
    batch: Option<Batch>, held: Option<Held>, spent: Option<Held>, state: Option<State>, imported: bool)

  datatype Report = Report(
    processed: nat, duplicates: nat, rejected: nat, witnesses: nat,
    leafUpdates: nat, recursiveUpdates: nat, framesHeld: nat)

  /** `commits` is a history variable: every state committed so far, with its cell, in order. */
  datatype Machine = Machine(works: seq<Work>, trace: Digest, report: Report, commits: seq<(nat, State)>)

  datatype Outcome = Ok | HoldIncomplete | HoldOld | HoldLimit | HoldDuplicate
                   | ErrArgument | ErrNotFound | ErrConflict | ErrCycle | ErrFrame | ErrTransition

  predicate IsError(o: Outcome) {
    o.ErrArgument? || o.ErrNotFound? || o.ErrConflict? || o.ErrCycle? || o.ErrFrame? || o.ErrTransition?
  }

  datatype Step = Step(m: Machine, o: Outcome)

  /** The functions left open: the digest and the phase reduction. */
  datatype Env = Env(H: Hash, R: Reducer)

  // ---- the forest ----

  /** Parents come after their children, and parent and child lists agree. */
  predicate Forest(f: seq<Spec>) {
    && (forall i :: 0 <= i < |f| && f[i].parent.Some? ==> i < f[i].parent.value < |f|)
    && (forall i, k :: 0 <= i < |f| && 0 <= k < |f[i].children| ==> f[i].children[k] < i)
    && (forall i :: 0 <= i < |f| && !f[i].leaf ==> |f[i].children| == |f[i].members| >= 2)
  }

  predicate Fits(f: seq<Spec>, m: Machine) {
    |m.works| == |f|
  }

  function FindCell(f: seq<Spec>, id: Name): (i: nat)
    ensures i <= |f|
    ensures i < |f| ==> f[i].id == id
  {
    if f == [] then 0 else if f[0].id == id then 0 else 1 + FindCell(f[1..], id)
  }

  function With(m: Machine, i: nat, w: Work): Machine
    requires i < |m.works|
  {
    m.(works := m.works[i := w])
  }

  // ---- committing ----

  function TraceBytes(trace: Digest, digest: Digest): seq<Byte> {
    Ascii("CDC-RFTC-SCHEDULER-TRACE-V1") + [0] + trace + digest
  }

  /** The execution digest folds in the new state. */
  function Traced(e: Env, m: Machine, i: nat, s: State): Machine {
    m.(trace := e.H(TraceBytes(m.trace, s.digest)), commits := m.commits + [(i, s)])
  }

  function BatchOf(w: Work): Batch {
    if w.batch.Some? then w.batch.value else Batch(0, 0, 0, 0)
  }

  function SlotObservation(member: U64, succ: U64, slot: Option<Reading>): Observation {
    if slot.None? then Observation(member, succ, 0.0, 0, 0, ZeroDigest())
    else Observation(member, succ, slot.value.phase, slot.value.observedAt, slot.value.clock, slot.value.source)
  }

  function LeafObservations(c: Spec, w: Work): (obs: seq<Observation>)
    requires |c.succs| == |c.members| == |w.pending|
    ensures |obs| == |c.members|
    ensures forall k :: 0 <= k < |obs| ==> obs[k] == SlotObservation(c.members[k], c.succs[k], w.pending[k])
  {
    seq(|c.members|, k requires 0 <= k < |c.members| => SlotObservation(c.members[k], c.succs[k], w.pending[k]))
  }

  function FrameConfig(c: Spec, windowStart: U64, windowEnd: U64): Config {
    Config(c.id, c.frameVersion, c.reducerVersion, c.topologyVersion, windowStart, windowEnd, c.staleAfter,
           |c.members|, |c.members|)
  }

  function EvidenceFor(held: Option<Held>, clock: U64): Evidence {
    if held.Some? && held.value.target == clock then Given(held.value.w) else NoWitness
  }

  /** A frame that may not follow: counted as held; a witness that did not help is dropped. */
  function Rejected(m: Machine, i: nat, evidence: Evidence): Step
    requires i < |m.works|
  {
    var counted := m.(report := m.report.(framesHeld := m.report.framesHeld + 1));
    if evidence.Given? then Step(With(counted, i, m.works[i].(held := None)), ErrTransition)
    else Step(counted, HoldIncomplete)
  }

  function SpentOn(evidence: Evidence, clock: U64): Option<Held> {
    if evidence.Given? then Some(Held(clock, evidence.w)) else None
  }

  /** A leaf commits: its batch becomes the committed one, a used witness is spent. */
  function LeafCommitted(w: Work, s: State, evidence: Evidence, clock: U64): Work {
    w.(state := Some(s), imported := false, committed := w.pending, spent := SpentOn(evidence, clock),
       pending := seq(|w.pending|, _ => None), count := 0, batch := None,
       held := if evidence.Given? then None else w.held)
  }

  function CompositeCommitted(w: Work, s: State, evidence: Evidence, clock: U64): Work {
    w.(state := Some(s), imported := false, spent := SpentOn(evidence, clock),
       held := if evidence.Given? then None else w.held)
  }

  /** The slots of every leaf fit its members. */
  predicate Shaped(f: seq<Spec>, m: Machine) {
    && Fits(f, m)
    && (forall i :: 0 <= i < |f| ==> |f[i].succs| == |f[i].members|)
    && (forall i :: 0 <= i < |f| && f[i].leaf ==>
          |m.works[i].pending| == |f[i].members| && |m.works[i].committed| == |f[i].members|)
  }

  function ReduceLeaf(e: Env, f: seq<Spec>, m: Machine, i: nat): (r: Step)
    requires Forest(f) && Shaped(f, m) && i < |f| && f[i].leaf
    ensures Shaped(f, r.m)
    decreases |f| - i, 2
  {
    var c, w := f[i], m.works[i];
    var b := BatchOf(w);
    if w.count != |c.members| then Step(m, HoldIncomplete)
    else
      var sealed := Seal(e.H, FrameConfig(c, b.windowStart, b.windowEnd), LeafObservations(c, w), b.sealTime);
      if sealed.Refused? then
        Step(m, if sealed.status == BadCount then HoldLimit
                else if sealed.status == HoldStale then HoldOld
                else ErrFrame)
      else
        var evidence := EvidenceFor(w.held, b.clock);
        Settle(e, f, m, i, Reduce(e.H, e.R, c.id, sealed.snapshot, c.horizon, w.state, evidence), evidence, b.clock)
  }

  /** What a reduction of cell i leads to: a commit, traced and passed on to the parent, or nothing but counts. */
  function Settle(e: Env, f: seq<Spec>, m: Machine, i: nat, next: Reduced, evidence: Evidence, clock: U64): (r: Step)
    requires Forest(f) && Shaped(f, m) && i < |f|
    ensures Shaped(f, r.m)
    decreases |f| - i, 1
  {
    if next.Reduced? then Propagate(e, f, Commit(e, f, m, i, next.state, evidence, clock), i)
    else if next.why == Transition || next.why == FrameMismatch then Rejected(m, i, evidence)
    else Step(m, ErrTransition)
  }

  function Commit(e: Env, f: seq<Spec>, m: Machine, i: nat, s: State, evidence: Evidence, clock: U64): (r: Machine)
    requires Forest(f) && Shaped(f, m) && i < |f|
    ensures Shaped(f, r)
  {
    var w, p := m.works[i], m.report;
    var work := if f[i].leaf then LeafCommitted(w, s, evidence, clock) else CompositeCommitted(w, s, evidence, clock);
    var report :=
      if f[i].leaf then p.(leafUpdates := p.leafUpdates + 1) else p.(recursiveUpdates := p.recursiveUpdates + 1);
    Traced(e, With(m, i, work).(report := report), i, s)
  }

  /** After a commit the parent is tried; only a limit or an error of its own counts against the child's event. */
  function Propagate(e: Env, f: seq<Spec>, m: Machine, child: nat): (r: Step)
    requires Forest(f) && Shaped(f, m) && child < |f|
    ensures Shaped(f, r.m)
    decreases |f| - child, 0
  {
    if f[child].parent.None? then Step(m, Ok)
    else
      var s := ReduceComposite(e, f, m, f[child].parent.value);
      if s.o == HoldLimit || IsError(s.o) then s else Step(s.m, Ok)
  }

  function ChildState(c: Spec, m: Machine, k: nat): Option<State>
    requires k < |c.children| && c.children[k] < |m.works|
  {
    m.works[c.children[k]].state
  }

  predicate AllReady(c: Spec, m: Machine, n: nat)
    requires n <= |c.children| && forall k :: 0 <= k < |c.children| ==> c.children[k] < |m.works|
  {
    forall k :: 0 <= k < n ==> ChildState(c, m, k).Some?
  }

  /** What a composite frame spans: the widest window, the nearest horizon. */
  datatype Span = Span(windowStart: U64, windowEnd: U64, horizon: U64)

  function Widen(s: Span, st: State): Span {
    Span(if st.windowStart < s.windowStart then st.windowStart else s.windowStart,
         if st.windowEnd > s.windowEnd then st.windowEnd else s.windowEnd,
         if st.horizon < s.horizon then st.horizon else s.horizon)
  }

  function ChildSpan(c: Spec, m: Machine, n: nat): Span
    requires 1 <= n <= |c.children| && (forall k :: 0 <= k < |c.children| ==> c.children[k] < |m.works|)
    requires AllReady(c, m, n)
  {
    var st := ChildState(c, m, n - 1).value;
    if n == 1 then Span(st.windowStart, st.windowEnd, st.horizon) else Widen(ChildSpan(c, m, n - 1), st)
  }

  function ChildObservation(c: Spec, m: Machine, k: nat): Observation
    requires k < |c.children| == |c.members| == |c.succs| && c.children[k] < |m.works| && ChildState(c, m, k).Some?
  {
    var st := ChildState(c, m, k).value;
    Observation(c.members[k], c.succs[k], st.macro.meanPhase, st.windowEnd, st.clock, st.digest)
  }

  function ChildObservations(c: Spec, m: Machine): (obs: seq<Observation>)
    requires |c.children| == |c.members| == |c.succs|
    requires (forall k :: 0 <= k < |c.children| ==> c.children[k] < |m.works|) && AllReady(c, m, |c.children|)
    ensures |obs| == |c.members|
  {
    seq(|c.children|, k requires 0 <= k < |c.children| => ChildObservation(c, m, k))
  }

  predicate OneChildClock(c: Spec, m: Machine)
    requires |c.children| >= 1
    requires (forall k :: 0 <= k < |c.children| ==> c.children[k] < |m.works|) && AllReady(c, m, |c.children|)
  {
    forall k :: 0 <= k < |c.children| ==> ChildState(c, m, k).value.clock == ChildState(c, m, 0).value.clock
  }

  function ReduceComposite(e: Env, f: seq<Spec>, m: Machine, i: nat): (r: Step)
    requires Forest(f) && Shaped(f, m) && i < |f|
    ensures Shaped(f, r.m)
    decreases |f| - i, 2
  {
    var c, w := f[i], m.works[i];
    if c.leaf || |c.members| < 2 then Step(m, ErrArgument)
    else if !AllReady(c, m, |c.children|) || !OneChildClock(c, m) then Step(m, HoldIncomplete)
    else
      var clock := ChildState(c, m, 0).value.clock;
      if w.state.Some? && clock <= w.state.value.clock then Step(m, HoldDuplicate)
      else
        var sealed := CompositeFrame(e, c, m);
        if sealed.Refused? then
          Step(m.(report := m.report.(framesHeld := m.report.framesHeld + 1)),
               if sealed.status == BadCount then HoldLimit else HoldIncomplete)
        else
          var evidence := EvidenceFor(w.held, clock);
          var next := Reduce(e.H, e.R, c.id, sealed.snapshot, NearerHorizon(c, m), w.state, evidence);
          Settle(e, f, m, i, next, evidence, clock)
  }

  /** The children's states sealed as one frame, at the end of the widest window. */
  function CompositeFrame(e: Env, c: Spec, m: Machine): Sealed
    requires 1 <= |c.children| == |c.members| == |c.succs|
    requires (forall k :: 0 <= k < |c.children| ==> c.children[k] < |m.works|) && AllReady(c, m, |c.children|)
  {
    var span := ChildSpan(c, m, |c.children|);
    Seal(e.H, FrameConfig(c, span.windowStart, span.windowEnd), ChildObservations(c, m), span.windowEnd)
  }

  function NearerHorizon(c: Spec, m: Machine): U64
    requires 1 <= |c.children|
    requires (forall k :: 0 <= k < |c.children| ==> c.children[k] < |m.works|) && AllReady(c, m, |c.children|)
  {
    var horizon := ChildSpan(c, m, |c.children|).horizon;
    if horizon < c.horizon then horizon else c.horizon
  }

  // ---- events ----

  datatype Event =
    | Observed(reading: Reading, sequence: nat)
    | Attested(cell: Name, clock: U64, w: Witness, sequence: nat)

  datatype Applied = Applied(m: Machine, o: Outcome, consumed: bool)

  /** Equal but for the witness attached. */
  predicate SameCore(a: Reading, b: Reading) {
    a.(attached := None) == b.(attached := None)
  }

  function ApplyReading(e: Env, f: seq<Spec>, m: Machine, r: Reading): (a: Applied)
    requires Forest(f) && Shaped(f, m)
    ensures Shaped(f, a.m) && (a.consumed || a.o != Ok)
  {
    var i := FindCell(f, r.cell);
    if i == |f| then Applied(m, ErrNotFound, false)
    else if !f[i].leaf then Applied(m, ErrArgument, false)
    else
      var c, w, k := f[i], m.works[i], Find(f[i].members, r.member);
      if k == |c.members| then Applied(m, ErrNotFound, false)
      else if w.state.Some? && r.clock <= w.state.value.clock then
        Applied(m, if Recommits(w, k, r) then HoldDuplicate else ErrFrame, true)
      else if w.batch.Some? && w.batch.value != ReadingBatch(r) then
        if r.clock > w.batch.value.clock then Applied(m, HoldIncomplete, false) else Applied(m, ErrFrame, true)
      else
        // the batch is open from here on, even if the reading itself is then refused
        var started := w.(batch := Some(ReadingBatch(r)));
        if (w.pending[k].Some? && !SameCore(w.pending[k].value, r)) || WitnessConflict(w, r) then
          Applied(With(m, i, started), ErrConflict, true)
        else TakeReading(e, f, With(m, i, started), i, k, r)
  }

  function ReadingBatch(r: Reading): Batch {
    Batch(r.clock, r.windowStart, r.windowEnd, r.sealTime)
  }

  /** The reading repeats one of the frame already committed at its clock. */
  predicate Recommits(w: Work, k: nat, r: Reading)
    requires w.state.Some? && k < |w.committed|
  {
    r.clock == w.state.value.clock && w.committed[k].Some? && SameCore(w.committed[k].value, r)
  }

  predicate WitnessConflict(w: Work, r: Reading) {
    r.attached.Some? && w.held.Some? && w.held.value != Held(r.clock, r.attached.value)
  }

  /** The reading fills its slot, its witness is held, and a full batch is reduced. */
  function TakeReading(e: Env, f: seq<Spec>, m: Machine, i: nat, k: nat, r: Reading): (a: Applied)
    requires Forest(f) && Shaped(f, m) && i < |f| && f[i].leaf && k < |f[i].members|
    ensures Shaped(f, a.m) && a.consumed
  {
    var w := m.works[i];
    var present := w.pending[k].Some?;
    var filled := if present then w else w.(pending := w.pending[k := Some(r)], count := w.count + 1);
    var taken :=
      if r.attached.Some? && w.held.None? then filled.(held := Some(Held(r.clock, r.attached.value))) else filled;
    var duplicate := present && !(r.attached.Some? && w.held.None?);
    var done := if duplicate then HoldDuplicate else Ok;
    var m' := With(m, i, taken);
    if taken.count != |f[i].members| then Applied(m', done, true)
    else
      var s := ReduceLeaf(e, f, m', i);
      Applied(s.m, if s.o == Ok || s.o == HoldIncomplete then done else s.o, true)
  }

  function ApplyWitness(e: Env, f: seq<Spec>, m: Machine, id: Name, clock: U64, x: Witness): (a: Applied)
    requires Forest(f) && Shaped(f, m)
    ensures Shaped(f, a.m) && (a.consumed || a.o != Ok)
  {
    var i := FindCell(f, id);
    if i == |f| then Applied(m, ErrNotFound, false)
    else
      var c, w := f[i], m.works[i];
      if w.state.Some? && clock <= w.state.value.clock then
        var spent := clock == w.state.value.clock && w.spent == Some(Held(clock, x));
        Applied(m, if spent then HoldDuplicate else ErrConflict, true)
      else if c.leaf && (w.batch.None? || w.batch.value.clock < clock) then Applied(m, HoldIncomplete, false)
      else if c.leaf && w.batch.value.clock > clock then Applied(m, ErrFrame, true)
      else if w.held.Some? then
        Applied(m, if w.held.value == Held(clock, x) then HoldDuplicate else ErrConflict, true)
      else
        var held := With(m, i, w.(held := Some(Held(clock, x))));
        var counted := held.(report := m.report.(witnesses := m.report.witnesses + 1));
        if c.leaf && w.count != |c.members| then Applied(counted, Ok, true)
        else
          var s := if c.leaf then ReduceLeaf(e, f, counted, i) else ReduceComposite(e, f, counted, i);
          Applied(s.m, if s.o == HoldIncomplete || s.o == HoldDuplicate then Ok else s.o, true)
  }

  function ApplyEvent(e: Env, f: seq<Spec>, m: Machine, v: Event): (a: Applied)
    requires Forest(f) && Shaped(f, m)
    ensures Shaped(f, a.m) && (a.consumed || a.o != Ok)
  {
    match v
    case Observed(r, _) => ApplyReading(e, f, m, r)
    case Attested(id, clock, x, _) => ApplyWitness(e, f, m, id, clock, x)
  }

  // ---- the queue ----

  function EventCell(v: Event): Name {
    if v.Observed? then v.reading.cell else v.cell
  }

  function EventClock(v: Event): U64 {
    if v.Observed? then v.reading.clock else v.clock
  }

  function EventMember(v: Event): U64 {
    if v.Observed? then v.reading.member else 0
  }

  /** strcmp order: the first differing byte decides, and a prefix comes first. */
  predicate NameBefore(a: Name, b: Name) {
    if b == [] then false
    else if a == [] then true
    else if a[0] != b[0] then a[0] < b[0]
    else NameBefore(a[1..], b[1..])
  }

  predicate EventBefore(a: Event, b: Event) {
    if EventClock(a) != EventClock(b) then EventClock(a) < EventClock(b)
    else if a.Observed? != b.Observed? then a.Observed?
    else if EventCell(a) != EventCell(b) then NameBefore(EventCell(a), EventCell(b))
    else if EventMember(a) != EventMember(b) then EventMember(a) < EventMember(b)
    else a.sequence < b.sequence
  }

  /** The index of the first least event. */
  function MinimumEvent(q: seq<Event>): (i: nat)
    requires q != []
    ensures i < |q|
  {
    if |q| == 1 then 0
    else
      var i := MinimumEvent(q[..|q| - 1]);
      if EventBefore(q[|q| - 1], q[i]) then |q| - 1 else i
  }

  function Without(q: seq<Event>, i: nat): (r: seq<Event>)
    requires i < |q|
    ensures |r| == |q| - 1
  {
    q[..i] + q[i + 1..]
  }

  // ---- draining ----

  /** The cell with the least identifier after the given one. */
  function NextCell(f: seq<Spec>, after: Option<Name>, n: nat): (i: nat)
    requires n <= |f|
    ensures i <= |f|
  {
    if n == 0 then |f|
    else
      var i := NextCell(f, after, n - 1);
      var id := f[n - 1].id;
      if (after.Some? && !NameBefore(after.value, id)) || (i != |f| && !NameBefore(id, f[i].id)) then i else n - 1
  }

  /** Retries, in identifier order, every leaf with a full batch and every composite; `visited` were tried before. */
  function Retry(e: Env, f: seq<Spec>, m: Machine, visited: nat, after: Option<Name>): (r: Step)
    requires Forest(f) && Shaped(f, m) && visited <= |f|
    ensures Shaped(f, r.m)
    decreases |f| - visited
  {
    if visited == |f| then Step(m, Ok)
    else
      var i := NextCell(f, after, |f|);
      if i == |f| then Step(m, ErrConflict)
      else if f[i].leaf && m.works[i].count != |f[i].members| then Retry(e, f, m, visited + 1, Some(f[i].id))
      else
        var s := if f[i].leaf then ReduceLeaf(e, f, m, i) else ReduceComposite(e, f, m, i);
        if s.o == HoldLimit || IsError(s.o) then s else Retry(e, f, s.m, visited + 1, Some(f[i].id))
  }

  datatype Drained = Drained(m: Machine, q: seq<Event>, o: Outcome)

  function Counted(r: Report, o: Outcome): Report {
    var p := r.(processed := r.processed + 1);
    if o == HoldDuplicate then p.(duplicates := p.duplicates + 1)
    else if IsError(o) then p.(rejected := p.rejected + 1)
    else p
  }

  /** Applies least events until the queue is empty, the budget is spent, or an event holds or fails. */
  function DrainQueue(e: Env, f: seq<Spec>, m: Machine, q: seq<Event>, maximum: nat): (d: Drained)
    requires Forest(f) && Shaped(f, m)
    ensures Shaped(f, d.m)
    decreases |q|
  {
    if q == [] || m.report.processed >= maximum then Drained(m, q, Ok)
    else
      var i := MinimumEvent(q);
      var a := ApplyEvent(e, f, m, q[i]);
      if !a.consumed then Drained(a.m, q, a.o)
      else
        var m' := a.m.(report := Counted(a.m.report, a.o));
        if a.o == Ok || a.o == HoldDuplicate then DrainQueue(e, f, m', Without(q, i), maximum)
        else Drained(m', Without(q, i), a.o)
  }

  const NO_REPORT: Report := Report(0, 0, 0, 0, 0, 0, 0)

  function Drain(e: Env, f: seq<Spec>, m: Machine, q: seq<Event>, maximum: nat): (d: Drained)
    requires Forest(f) && Shaped(f, m)
    ensures Shaped(f, d.m)
  {
    var first := Retry(e, f, m.(report := NO_REPORT), 0, None);
    if first.o != Ok then Drained(first.m, q, first.o)
    else
      var d := DrainQueue(e, f, first.m, q, maximum);
      if d.o != Ok then d
      else
        var last := Retry(e, f, d.m, 0, None);
        Drained(last.m, d.q, last.o)
  }
}
