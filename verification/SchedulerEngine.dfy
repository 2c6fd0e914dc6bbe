/** The scheduler as the program has it: an object whose methods update cells, queue, digest and report in place. */
module SchedulerEngine {
  import opened Bytes
  import opened Options
  import opened Ring
  import opened Frame
  import opened Topology
  import opened Cell
  import opened Scheduler
  import opened SchedulerLaws
  import opened SchedulerWorld
  import opened SchedulerDigest

  class Engine {
    var cells: seq<Spec>
    var works: seq<Work>
    var events: seq<Event>
    var nextSequence: U64
    var sealed: bool
    const limits: Limits
    var configuration: Digest
    var trace: Digest
    var report: Report
    ghost var commits: seq<(nat, State)>

    ghost function Current(): Machine
      reads this
    {
      Machine(works, trace, report, commits)
    }

    ghost function View(): Sched
      reads this
    {
      Sched(cells, Current(), events, nextSequence, sealed, limits)
    }

    ghost predicate Valid()
      reads this
    {
      Forest(cells) && Shaped(cells, Current())
    }

    /** The cells are a sound forest. */
    ghost predicate WellBuilt()
      reads this
    {
      Sound(cells, limits)
    }

    constructor (limits: Limits)
      ensures View() == Fresh(limits) && Valid() && WellBuilt()
    {
      this.limits := limits;
      cells, works, events, commits := [], [], [], [];
      nextSequence, sealed, configuration, trace, report := 1, false, ZeroDigest(), ZeroDigest(), NO_REPORT;
    }

    // ---- reductions ----

    method Trace(e: Env, i: nat, s: State)
      modifies this`trace, this`commits
      ensures Current() == Traced(e, old(Current()), i, s)
    {
      trace := e.H(TraceBytes(trace, s.digest));
      commits := commits + [(i, s)];
    }

    method LeafFrame(c: Spec, w: Work) returns (obs: array<Observation>)
      requires |c.succs| == |c.members| == |w.pending|
      ensures obs[..] == LeafObservations(c, w)
    {
      var n := |c.members|;
      obs := new Observation[n](_ => Observation(0, 0, 0.0, 0, 0, ZeroDigest()));
      var k := 0;
      while k < n
        invariant 0 <= k <= n
        invariant forall j :: 0 <= j < k ==> obs[j] == SlotObservation(c.members[j], c.succs[j], w.pending[j])
      {
        obs[k] := SlotObservation(c.members[k], c.succs[k], w.pending[k]);
        k := k + 1;
      }
    }

    method ReduceLeafCell(e: Env, i: nat) returns (o: Outcome)
      requires Valid() && i < |cells| && cells[i].leaf
      modifies this`works, this`trace, this`report, this`commits
      ensures Valid() && Step(Current(), o) == ReduceLeaf(e, cells, old(Current()), i)
      decreases |cells| - i, 2
    {
      hide Seal, Reduce, Forest, LeafObservations, Settle;
      var c, w := cells[i], works[i];
      var b := BatchOf(w);
      if w.count != |c.members| {
        return HoldIncomplete;
      }
      var obs := LeafFrame(c, w);
      var frame := SealFrame(e.H, FrameConfig(c, b.windowStart, b.windowEnd), obs[..], b.sealTime);
      if frame.Refused? {
        return if frame.status == BadCount then HoldLimit else if frame.status == HoldStale then HoldOld else ErrFrame;
      }
      var evidence := EvidenceFor(w.held, b.clock);
      var next := ReduceCell(e.H, e.R, c.id, frame.snapshot, c.horizon, w.state, evidence);
      o := SettleCell(e, i, next, evidence, b.clock);
    }

    method SettleCell(e: Env, i: nat, next: Reduced, evidence: Evidence, clock: U64) returns (o: Outcome)
      requires Valid() && i < |cells|
      modifies this`works, this`trace, this`report, this`commits
      ensures Valid() && Step(Current(), o) == Settle(e, cells, old(Current()), i, next, evidence, clock)
      decreases |cells| - i, 1
    {
      hide Forest, Propagate, TraceBytes;
      var w := works[i];
      if next.Failed? {
        if next.why != Transition && next.why != FrameMismatch {
          return ErrTransition;
        }
        report := report.(framesHeld := report.framesHeld + 1);
        if evidence.Given? {
          works := works[i := w.(held := None)];
          return ErrTransition;
        }
        return HoldIncomplete;
      }
      if cells[i].leaf {
        works := works[i := LeafCommitted(w, next.state, evidence, clock)];
        report := report.(leafUpdates := report.leafUpdates + 1);
      } else {
        works := works[i := CompositeCommitted(w, next.state, evidence, clock)];
        report := report.(recursiveUpdates := report.recursiveUpdates + 1);
      }
      Trace(e, i, next.state);
      assert Current() == Commit(e, cells, old(Current()), i, next.state, evidence, clock);
      o := PropagateParent(e, i);
    }

    method PropagateParent(e: Env, child: nat) returns (o: Outcome)
      requires Valid() && child < |cells|
      modifies this`works, this`trace, this`report, this`commits
      ensures Valid() && Step(Current(), o) == Propagate(e, cells, old(Current()), child)
      decreases |cells| - child, 0
    {
      hide ReduceComposite;
      if cells[child].parent.None? {
        return Ok;
      }
      o := ReduceCompositeCell(e, cells[child].parent.value);
      if o != HoldLimit && !IsError(o) {
        o := Ok;
      }
    }

    /** Whether all children have a state at one clock, and the span of their windows and horizons. */
    method ScanChildren(c: Spec) returns (ready: bool, span: Span)
      requires |c.children| >= 1 && forall k :: 0 <= k < |c.children| ==> c.children[k] < |works|
      ensures ready <==> AllReady(c, Current(), |c.children|) && OneChildClock(c, Current())
      ensures ready ==> span == ChildSpan(c, Current(), |c.children|)
    {
      span := Span(0, 0, 0);
      var k := 0;
      while k < |c.children|
        invariant 0 <= k <= |c.children| && AllReady(c, Current(), k)
      {
        if works[c.children[k]].state.None? {
          assert ChildState(c, Current(), k).None?;
          return false, span;
        }
        k := k + 1;
      }
      assert ChildState(c, Current(), 0).Some?;
      var first := works[c.children[0]].state.value;
      span := Span(first.windowStart, first.windowEnd, first.horizon);
      k := 1;
      while k < |c.children|
        invariant 1 <= k <= |c.children|
        invariant forall j :: 0 <= j < k ==> ChildState(c, Current(), j).value.clock == first.clock
        invariant span == ChildSpan(c, Current(), k)
      {
        assert ChildState(c, Current(), k).Some?;
        var child := works[c.children[k]].state.value;
        if child.clock != first.clock {
          assert ChildState(c, Current(), k).value.clock != ChildState(c, Current(), 0).value.clock;
          return false, span;
        }
        span := Widen(span, child);
        k := k + 1;
      }
      ready := true;
    }

    method CompositeObservations(c: Spec) returns (obs: array<Observation>)
      requires |c.children| == |c.members| == |c.succs|
      requires (forall k :: 0 <= k < |c.children| ==> c.children[k] < |works|) && AllReady(c, Current(), |c.children|)
      ensures obs[..] == ChildObservations(c, Current())
    {
      var n := |c.children|;
      obs := new Observation[n](_ => Observation(0, 0, 0.0, 0, 0, ZeroDigest()));
      var k := 0;
      while k < n
        invariant 0 <= k <= n
        invariant forall j :: 0 <= j < k ==> obs[j] == ChildObservation(c, Current(), j)
      {
        assert ChildState(c, Current(), k).Some?;
        var child := works[c.children[k]].state.value;
        obs[k] := Observation(c.members[k], c.succs[k], child.macro.meanPhase,
                              child.windowEnd, child.clock, child.digest);
        k := k + 1;
      }
    }

    method ReduceCompositeCell(e: Env, i: nat) returns (o: Outcome)
      requires Valid() && i < |cells|
      modifies this`works, this`trace, this`report, this`commits
      ensures Valid() && Step(Current(), o) == ReduceComposite(e, cells, old(Current()), i)
      decreases |cells| - i, 2
    {
      hide Seal, Reduce, Settle, ChildObservations, ChildSpan;
      var c, w := cells[i], works[i];
      if c.leaf || |c.members| < 2 {
        return ErrArgument;
      }
      var ready, span := ScanChildren(c);
      if !ready {
        return HoldIncomplete;
      }
      assert ChildState(c, Current(), 0).Some?;
      var clock := works[c.children[0]].state.value.clock;
      if w.state.Some? && clock <= w.state.value.clock {
        return HoldDuplicate;
      }
      var obs := CompositeObservations(c);
      var frame := SealFrame(e.H, FrameConfig(c, span.windowStart, span.windowEnd), obs[..], span.windowEnd);
      assert frame == CompositeFrame(e, c, Current());
      if frame.Refused? {
        report := report.(framesHeld := report.framesHeld + 1);
        return if frame.status == BadCount then HoldLimit else HoldIncomplete;
      }
      var evidence := EvidenceFor(w.held, clock);
      var horizon := if span.horizon < c.horizon then span.horizon else c.horizon;
      var next := ReduceCell(e.H, e.R, c.id, frame.snapshot, horizon, w.state, evidence);
      o := SettleCell(e, i, next, evidence, clock);
    }

    // ---- events ----

    method FindCellIndex(id: Name) returns (i: nat)
      ensures i == FindCell(cells, id)
    {
      i := 0;
      while i < |cells|
        invariant 0 <= i <= |cells|
        invariant forall j :: 0 <= j < i ==> cells[j].id != id
      {
        if cells[i].id == id {
          FindCellIs(cells, id, i);
          return;
        }
        i := i + 1;
      }
      FindCellAbsent(cells, id);
    }

    method ApplyObservation(e: Env, r: Reading) returns (o: Outcome, consumed: bool)
      requires Valid()
      modifies this`works, this`trace, this`report, this`commits
      ensures Valid() && Applied(Current(), o, consumed) == ApplyReading(e, cells, old(Current()), r)
    {
      hide Forest, SameCore, ReduceLeaf;
      var i := FindCellIndex(r.cell);
      if i == |cells| {
        return ErrNotFound, false;
      }
      if !cells[i].leaf {
        return ErrArgument, false;
      }
      var c, w, k := cells[i], works[i], Find(cells[i].members, r.member);
      if k == |c.members| {
        return ErrNotFound, false;
      }
      if w.state.Some? && r.clock <= w.state.value.clock {
        if Recommits(w, k, r) {
          return HoldDuplicate, true;
        }
        return ErrFrame, true;
      }
      if w.batch.None? {
        w := w.(batch := Some(ReadingBatch(r)));
        works := works[i := w];
      } else if w.batch.value != ReadingBatch(r) {
        if r.clock > w.batch.value.clock {
          return HoldIncomplete, false;
        }
        return ErrFrame, true;
      }
      assert Current() == With(old(Current()), i, works[i]) && w == works[i];
      if w.pending[k].Some? && !SameCore(w.pending[k].value, r) {
        return ErrConflict, true;
      }
      if WitnessConflict(w, r) {
        return ErrConflict, true;
      }
      o := FillSlot(e, i, k, r);
      consumed := true;
    }

    method FillSlot(e: Env, i: nat, k: nat, r: Reading) returns (o: Outcome)
      requires Valid() && i < |cells| && cells[i].leaf && k < |cells[i].members|
      modifies this`works, this`trace, this`report, this`commits
      ensures Valid() && Applied(Current(), o, true) == TakeReading(e, cells, old(Current()), i, k, r)
    {
      hide Forest, ReduceLeaf;
      var w := works[i];
      var duplicate := w.pending[k].Some?;
      if w.pending[k].None? {
        w := w.(pending := w.pending[k := Some(r)], count := w.count + 1);
      }
      if r.attached.Some? && w.held.None? {
        w := w.(held := Some(Held(r.clock, r.attached.value)));
        duplicate := false;
      }
      works := works[i := w];
      if w.count == |cells[i].members| {
        o := ReduceLeafCell(e, i);
        if o != Ok && o != HoldIncomplete {
          return;
        }
      }
      o := if duplicate then HoldDuplicate else Ok;
    }

    method ApplyAttestation(e: Env, id: Name, clock: U64, x: Witness) returns (o: Outcome, consumed: bool)
      requires Valid()
      modifies this`works, this`trace, this`report, this`commits
      ensures Valid() && Applied(Current(), o, consumed) == ApplyWitness(e, cells, old(Current()), id, clock, x)
    {
      hide Forest, ReduceLeaf, ReduceComposite;
      var i := FindCellIndex(id);
      if i == |cells| {
        return ErrNotFound, false;
      }
      var c, w := cells[i], works[i];
      if w.state.Some? && clock <= w.state.value.clock {
        if clock == w.state.value.clock && w.spent == Some(Held(clock, x)) {
          return HoldDuplicate, true;
        }
        return ErrConflict, true;
      }
      if c.leaf {
        if w.batch.None? || w.batch.value.clock < clock {
          return HoldIncomplete, false;
        }
        if w.batch.value.clock > clock {
          return ErrFrame, true;
        }
      }
      if w.held.Some? {
        if w.held.value == Held(clock, x) {
          return HoldDuplicate, true;
        }
        return ErrConflict, true;
      }
      works := works[i := w.(held := Some(Held(clock, x)))];
      report := report.(witnesses := report.witnesses + 1);
      if c.leaf {
        if w.count != |c.members| {
          return Ok, true;
        }
        o := ReduceLeafCell(e, i);
      } else {
        o := ReduceCompositeCell(e, i);
      }
      if o == HoldIncomplete || o == HoldDuplicate {
        o := Ok;
      }
      consumed := true;
    }

    method ApplyQueued(e: Env, v: Event) returns (o: Outcome, consumed: bool)
      requires Valid()
      modifies this`works, this`trace, this`report, this`commits
      ensures Valid() && Applied(Current(), o, consumed) == ApplyEvent(e, cells, old(Current()), v)
    {
      hide ApplyReading, ApplyWitness, Forest;
      if v.Observed? {
        o, consumed := ApplyObservation(e, v.reading);
      } else {
        o, consumed := ApplyAttestation(e, v.cell, v.clock, v.w);
      }
    }

    // ---- the queue ----

    /** The position of the least event. */
    method FindMinimum() returns (minimum: nat)
      requires events != []
      ensures minimum == MinimumEvent(events)
    {
      hide EventBefore;
      minimum := 0;
      var i := 1;
      assert events[..1] == [events[0]];
      while i < |events|
        invariant 1 <= i <= |events| && minimum < i && minimum == MinimumEvent(events[..i])
      {
        assert events[..i + 1][..i] == events[..i];
        if EventBefore(events[i], events[minimum]) {
          minimum := i;
        }
        i := i + 1;
      }
      assert events[..i] == events;
    }

    /** The event at the index goes, every other stays, in the order they were in. */
    method RemoveEvent(index: nat)
      requires index < |events|
      modifies this`events
      ensures |events| == |old(events)| - 1
      ensures forall k :: 0 <= k < index ==> events[k] == old(events)[k]
      ensures forall k :: index <= k < |events| ==> events[k] == old(events)[k + 1]
      ensures multiset(events) == multiset(old(events)) - multiset{old(events)[index]}
    {
      assert events == events[..index] + [events[index]] + events[index + 1..];
      events := events[..index] + events[index + 1..];
    }

    // ---- draining ----

    /** The cell with the least identifier after the given one, or none. */
    method SelectNext(after: Option<Name>) returns (selected: nat)
      ensures selected == NextCell(cells, after, |cells|)
    {
      hide NameBefore;
      selected := |cells|;
      var i := 0;
      while i < |cells|
        invariant 0 <= i <= |cells| && selected == NextCell(cells, after, i)
      {
        var skip := (after.Some? && !NameBefore(after.value, cells[i].id))
          || (selected != |cells| && !NameBefore(cells[i].id, cells[selected].id));
        if !skip {
          selected := i;
        }
        i := i + 1;
      }
    }

    method RetryReadyCells(e: Env) returns (o: Outcome)
      requires Valid()
      modifies this`works, this`trace, this`report, this`commits
      ensures Valid() && Step(Current(), o) == Retry(e, cells, old(Current()), 0, None)
    {
      hide Forest, ReduceLeaf, ReduceComposite, NextCell;
      var after: Option<Name> := None;
      var visited := 0;
      while visited < |cells|
        invariant 0 <= visited <= |cells| && Valid()
        invariant Retry(e, cells, Current(), visited, after) == Retry(e, cells, old(Current()), 0, None)
      {
        var selected := SelectNext(after);
        if selected == |cells| {
          return ErrConflict;
        }
        after := Some(cells[selected].id);
        visited := visited + 1;
        if !cells[selected].leaf || works[selected].count == |cells[selected].members| {
          if cells[selected].leaf {
            o := ReduceLeafCell(e, selected);
          } else {
            o := ReduceCompositeCell(e, selected);
          }
          if o == HoldLimit || IsError(o) {
            return;
          }
        }
      }
      o := Ok;
    }

    /** Applies least events until the queue is empty, the budget is spent, or one holds or fails. */
    method DrainLoop(e: Env, maximum: nat) returns (o: Outcome)
      requires Valid()
      modifies this`works, this`trace, this`report, this`commits, this`events
      ensures Valid() && Drained(Current(), events, o) == DrainQueue(e, cells, old(Current()), old(events), maximum)
    {
      hide Forest, ApplyEvent, MinimumEvent, Counted;
      ghost var first, queue := Current(), events;
      o := Ok;
      while events != [] && report.processed < maximum
        invariant Valid()
        invariant DrainQueue(e, cells, Current(), events, maximum) == DrainQueue(e, cells, first, queue, maximum)
        decreases |events|
      {
        var index := FindMinimum();
        var consumed;
        o, consumed := ApplyQueued(e, events[index]);
        if !consumed {
          return;
        }
        ghost var before := events;
        RemoveEvent(index);
        assert events == Without(before, index);
        var status := CountEvent(o);
        if status != Ok {
          return;
        }
      }
      o := Ok;
    }

    /** Counts an applied event; a duplicate is no reason to stop. */
    method CountEvent(o: Outcome) returns (status: Outcome)
      modifies this`report
      ensures report == Counted(old(report), o)
      ensures status == if o == HoldDuplicate then Ok else o
    {
      report := report.(processed := report.processed + 1);
      status := o;
      if o == HoldDuplicate {
        report := report.(duplicates := report.duplicates + 1);
        status := Ok;
      } else if IsError(o) {
        report := report.(rejected := report.rejected + 1);
      }
    }

    method DrainEvents(e: Env, maximum: nat) returns (o: Outcome)
      requires Valid()
      modifies this`works, this`trace, this`report, this`commits, this`events
      ensures Valid() && Answer(View(), o) == DrainWorld(e, old(View()), maximum)
    {
      hide Forest, Retry, DrainQueue;
      if maximum == 0 {
        return ErrArgument;
      }
      if !sealed {
        return ErrConflict;
      }
      report := NO_REPORT;
      o := RetryReadyCells(e);
      if o != Ok {
        return;
      }
      o := DrainLoop(e, maximum);
      if o == Ok {
        o := RetryReadyCells(e);
      }
    }

    // ---- publishing ----

    /** Compares a reading with every queued one of its frame. */
    method ScanQueue(r: Reading) returns (a: Admission)
      ensures a == QueueVerdict(events, r, 0)
    {
      var k := 0;
      while k < |events|
        invariant 0 <= k <= |events| && QueueVerdict(events, r, k) == QueueVerdict(events, r, 0)
      {
        if SameFrame(events[k], r) {
          var v := events[k].reading;
          if ReadingBatch(v) != ReadingBatch(r) || v.frameVersion != r.frameVersion {
            return Refuse(ErrFrame);
          }
          if r.attached.Some? && v.attached.Some? && v.attached != r.attached {
            return Refuse(ErrConflict);
          }
          if v.member == r.member {
            if !SameCore(v, r) {
              return Refuse(ErrConflict);
            }
            if v.attached.None? && r.attached.Some? {
              return Attach(k);
            }
            return Refuse(HoldDuplicate);
          }
        }
        k := k + 1;
      }
      a := Append;
    }

    method PublishReading(r: Reading, now: U64) returns (o: Outcome)
      requires Valid()
      modifies this`events, this`nextSequence
      ensures Valid() && Answer(View(), o) == Publish(old(View()), r, now)
    {
      hide QueueVerdict, CellVerdict, Forest;
      if !ReadingOk(r, now) {
        return ErrArgument;
      }
      if !sealed {
        return ErrConflict;
      }
      var i := FindCellIndex(r.cell);
      if i == |cells| {
        return ErrNotFound;
      }
      var k := Find(cells[i].members, r.member);
      if !cells[i].leaf || k == |cells[i].members| {
        return ErrNotFound;
      }
      o := CellVerdict(cells[i], works[i], k, r, now);
      if o != Ok {
        return;
      }
      var a := ScanQueue(r);
      if a.Refuse? {
        return a.o;
      }
      if a.Attach? {
        var v := events[a.at];
        events := events[a.at := v.(reading := v.reading.(attached := r.attached))];
        return Ok;
      }
      o := EnqueueEvent(Observed(r, nextSequence));
    }

    method EnqueueEvent(v: Event) returns (o: Outcome)
      modifies this`events, this`nextSequence
      ensures Answer(View(), o) == Enqueue(old(View()), v)
    {
      if |events| >= limits.events || nextSequence == TWO_64 - 1 {
        return HoldLimit;
      }
      events := events + [v];
      nextSequence := nextSequence + 1;
      o := Ok;
    }

    method PublishAttestation(id: Name, clock: U64, x: Witness) returns (o: Outcome)
      requires Valid()
      modifies this`events, this`nextSequence
      ensures Valid() && Answer(View(), o) == PublishWitness(old(View()), id, clock, x)
    {
      hide CellWitnessVerdict, Forest;
      if !NameValid(id) || clock == 0 || !WitnessOk(x, clock) {
        return ErrArgument;
      }
      if !sealed {
        return ErrConflict;
      }
      var i := FindCellIndex(id);
      if i == |cells| {
        return ErrNotFound;
      }
      o := CellWitnessVerdict(cells[i], works[i], clock, x);
      if o != Ok {
        return;
      }
      var k := 0;
      while k < |events|
        invariant 0 <= k <= |events|
        invariant QueueWitnessVerdict(events, id, clock, x, k) == QueueWitnessVerdict(events, id, clock, x, 0)
      {
        var found := QueuedWitness(events[k], id, clock);
        if found.Some? {
          return if found.value == x then HoldDuplicate else ErrConflict;
        }
        k := k + 1;
      }
      o := EnqueueEvent(Attested(id, clock, x, nextSequence));
    }

    // ---- building ----

    /** Looks up the named children of a new composite. */
    method ResolveChildren(ids: seq<Name>) returns (r: Resolved)
      ensures r == Resolve(cells, ids, |ids|)
    {
      r := Resolved([], 0);
      var i := 0;
      while i < |ids|
        invariant 0 <= i <= |ids| && r.Resolved? && r == Resolve(cells, ids, i)
      {
        if !NameValid(ids[i]) {
          UnresolvedStays(cells, ids, i + 1, |ids|);
          return Unresolved(ErrArgument);
        }
        var child := FindCellIndex(ids[i]);
        if child == |cells| {
          UnresolvedStays(cells, ids, i + 1, |ids|);
          return Unresolved(ErrNotFound);
        }
        if cells[child].parent.Some? {
          UnresolvedStays(cells, ids, i + 1, |ids|);
          return Unresolved(ErrCycle);
        }
        if child in r.children {
          UnresolvedStays(cells, ids, i + 1, |ids|);
          return Unresolved(ErrConflict);
        }
        var depth := cells[child].depth + 1;
        r := Resolved(r.children + [child], if depth > r.depth then depth else r.depth);
        i := i + 1;
      }
    }

    method AddNewCell(n: NewCell) returns (o: Outcome)
      requires Valid() && WellBuilt() && WellFormed(n)
      modifies this`cells, this`works
      ensures Valid() && WellBuilt()
      ensures Answer(View(), o) == AddCell(old(View()), n, IsRing(n.members, n.succs))
    {
      hide Forest, IsRing, Sound, Shaped;
      AddCellSound(View(), n);
      var ring := RingValid(n.members, n.succs);
      if !NameValid(n.id) || |n.members| > limits.events || !ring
         || n.frameVersion == 0 || n.reducerVersion == 0 || n.topologyVersion == 0 || n.horizon == 0 {
        return ErrArgument;
      }
      if sealed {
        return ErrConflict;
      }
      if |cells| >= limits.cells {
        return HoldLimit;
      }
      var i := FindCellIndex(n.id);
      if i != |cells| {
        return ErrConflict;
      }
      var r := Resolved([], 0);
      if !n.leaf {
        r := ResolveChildren(n.childIds);
        if r.Unresolved? {
          return r.o;
        }
        ResolveOrphans(cells, n.childIds, |n.childIds|);
        if r.depth > limits.depth {
          return ErrCycle;
        }
      }
      AdoptChildren(r.children);
      cells := cells + [SpecOf(n, r.children, r.depth)];
      works := works + [NoWork(if n.leaf then |n.members| else 0)];
      o := Ok;
    }

    /** Makes the cell about to be added the parent of its children, one after another. */
    method AdoptChildren(children: seq<nat>)
      requires forall k :: 0 <= k < |children| ==> children[k] < |cells|
      modifies this`cells
      ensures cells == Adopted(old(cells), children, |old(cells)|)
    {
      ghost var before := cells;
      var parent := |cells|;
      var k := 0;
      while k < |children|
        invariant 0 <= k <= |children| && cells == Adopted(before, children[..k], parent)
      {
        AdoptedNext(before, children[..k], parent, children[k]);
        assert children[..k + 1] == children[..k] + [children[k]];
        cells := cells[children[k] := cells[children[k]].(parent := Some(parent))];
        k := k + 1;
      }
      assert children[..k] == children;
    }

    /** The structures of all cells, in the order they were added. */
    ghost function Shapes(): (r: seq<Shape>)
      requires Forest(cells)
      reads this
      ensures |r| == |cells|
    {
      ShapesOf(cells)
    }

    /**
     * Seals the forest, and says what was sealed: the digest of the limits and of every cell's structure in the one
     * order of identifiers. Sealing again gives the same digest.
     */
    method SealCells(H: Hash) returns (o: Outcome, digest: Digest, ghost order: seq<nat>)
      requires Valid() && WellBuilt()
      modifies this`sealed, this`configuration
      ensures Answer(View(), o) == SealForest(old(View()))
      ensures o == Ok ==> digest == configuration
      ensures old(sealed) || o != Ok ==> configuration == old(configuration)
      ensures DistinctShapes(Shapes()) && forall k :: 0 <= k < |Shapes()| ==> RingShape(Shapes()[k])
      ensures o == Ok && !old(sealed) ==>
        Ascending(Shapes(), order) && digest == H(ConfigBytes(H, limits, None, Shapes(), order))
    {
      hide RingShape, ConfigBytes, Sound, Shaped, ShapeOf;
      ShapesSound(cells, limits);
      o, digest, order := Ok, configuration, [];
      if |cells| == 0 {
        return ErrArgument, digest, order;
      }
      if !sealed {
        var f := cells;
        var shapes := seq(|f|, i requires 0 <= i < |f| => ShapeOf(f, i));
        var ok;
        ok, digest, order := ConfigDigest(H, limits, None, shapes);
        if !ok {
          return HoldLimit, digest, order;
        }
        configuration := digest;
        sealed := true;
      }
    }
  }

  function ShapesOf(f: seq<Spec>): (r: seq<Shape>)
    requires Forest(f)
    ensures |r| == |f| && forall i :: 0 <= i < |f| ==> r[i] == ShapeOf(f, i)
  {
    seq(|f|, i requires 0 <= i < |f| => ShapeOf(f, i))
  }

  lemma ShapesSound(f: seq<Spec>, limits: Limits)
    requires Sound(f, limits) && Forest(f)
    ensures DistinctShapes(ShapesOf(f)) && forall k :: 0 <= k < |f| ==> RingShape(ShapesOf(f)[k])
  {
    hide RingShape, ShapeOf, Sound;
    forall i | 0 <= i < |f|
      ensures RingShape(ShapesOf(f)[i]) && forall j :: i < j < |f| ==> ShapesOf(f)[i].id != ShapesOf(f)[j].id
    {
      SoundShapes(f, limits, i);
    }
  }

  lemma {:induction false} FindCellIs(f: seq<Spec>, id: Name, i: nat)
    requires i < |f| && f[i].id == id && forall j :: 0 <= j < i ==> f[j].id != id
    ensures FindCell(f, id) == i
    decreases i
  {
    if i > 0 {
      FindCellIs(f[1..], id, i - 1);
    }
  }

  lemma {:induction false} UnresolvedStays(f: seq<Spec>, ids: seq<Name>, m: nat, n: nat)
    requires m <= n <= |ids| && Resolve(f, ids, m).Unresolved?
    ensures Resolve(f, ids, n) == Resolve(f, ids, m)
    decreases n
  {
    if m < n {
      UnresolvedStays(f, ids, m, n - 1);
    }
  }

  lemma AdoptedNext(f: seq<Spec>, children: seq<nat>, parent: nat, child: nat)
    requires child < |f|
    ensures var g := Adopted(f, children, parent);
      Adopted(f, children + [child], parent) == g[child := g[child].(parent := Some(parent))]
  {
    var g := Adopted(f, children, parent);
    var h := Adopted(f, children + [child], parent);
    forall i | 0 <= i < |f| ensures h[i] == g[child := g[child].(parent := Some(parent))][i] {
      assert i in children + [child] <==> i in children || i == child;
    }
  }
}
