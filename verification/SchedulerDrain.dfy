/** Applying events, retrying ready cells and draining keep every scheduler invariant. */
module SchedulerDrain {
  import opened Bytes
  import opened Options
  import opened Ring
  import opened Frame
  import opened Topology
  import opened Cell
  import opened Scheduler
  import opened SchedulerLaws

  /** A work of cell i replaced by another that satisfies the cell's invariant and has the same state. */
  lemma ReplacedKeeps(e: Env, f: seq<Spec>, bases: seq<Option<State>>, m: Machine, i: nat, w: Work)
    requires Forest(f) && Inv(e, f, bases, m) && i < |f|
    requires WorkInv(f[i], w) && w.state == m.works[i].state
    requires |w.pending| == |m.works[i].pending| && |w.committed| == |m.works[i].committed|
    ensures Inv(e, f, bases, With(m, i, w))
  {
    hide Inv, WorkInv, Forest;
    SizeOf(e, f, bases, m);
    WorkStays(e, f, bases, m, With(m, i, w), i);
  }

  lemma SizeOf(e: Env, f: seq<Spec>, bases: seq<Option<State>>, m: Machine)
    requires Forest(f) && Inv(e, f, bases, m)
    ensures Shaped(f, m) && |m.works| == |f| == |bases|
  {}

  lemma WorkOf(e: Env, f: seq<Spec>, bases: seq<Option<State>>, m: Machine, i: nat)
    requires Forest(f) && Inv(e, f, bases, m) && i < |f|
    ensures |m.works| == |f| && WorkInv(f[i], m.works[i])
  {}

  // ---- readings ----

  /** The reading may join the open batch, or open one. */
  predicate Joins(w: Work, r: Reading) {
    && (w.batch.Some? ==> w.batch.value == ReadingBatch(r))
    && (w.state.Some? ==> r.clock > w.state.value.clock)
  }

  function Started(w: Work, r: Reading): Work {
    w.(batch := Some(ReadingBatch(r)))
  }

  function Filled(w: Work, k: nat, r: Reading): Work
    requires k < |w.pending|
  {
    if w.pending[k].Some? then w else w.(pending := w.pending[k := Some(r)], count := w.count + 1)
  }

  function HoldingWitness(w: Work, filled: Work, r: Reading): Work {
    if r.attached.Some? && w.held.None? then filled.(held := Some(Held(r.clock, r.attached.value))) else filled
  }

  lemma FilledInv(c: Spec, w: Work, k: nat, r: Reading)
    requires LeafInv(c, w) && k < |c.members| && Joins(w, r) && r.cell == c.id && r.member == c.members[k]
    ensures LeafInv(c, Filled(Started(w, r), k, r))
  {
    hide Present;
    PresentFilled(w.pending, k, r);
    PresentBound(w.pending);
    var v := Filled(Started(w, r), k, r);
    forall j | 0 <= j < |v.pending| ensures SlotFits(c, v.batch, j, v.pending[j]) {
      assert SlotFits(c, w.batch, j, w.pending[j]);
    }
  }

  lemma HoldingInv(c: Spec, w: Work, v: Work, r: Reading)
    requires LeafInv(c, v) && v.batch == Some(ReadingBatch(r))
    ensures LeafInv(c, HoldingWitness(w, v, r))
  {
    hide Present;
    var x := HoldingWitness(w, v, r);
    forall j | 0 <= j < |x.pending| ensures SlotFits(c, x.batch, j, x.pending[j]) {
      assert SlotFits(c, v.batch, j, v.pending[j]);
    }
  }

  lemma TakeReadingKeeps(e: Env, f: seq<Spec>, bases: seq<Option<State>>, m: Machine, i: nat, k: nat, r: Reading)
    requires Forest(f) && Rings(f) && Inv(e, f, bases, m) && i < |f| && f[i].leaf && k < |f[i].members|
    requires Joins(m.works[i], r) && r.cell == f[i].id && r.member == f[i].members[k]
    ensures Inv(e, f, bases, TakeReading(e, f, With(m, i, Started(m.works[i], r)), i, k, r).m)
  {
    hide Inv, LeafInv, Forest, Rings, ReduceLeaf, ReadingBatch, Joins;
    SizeOf(e, f, bases, m);
    var w := m.works[i];
    LeafOfInv(e, f, bases, m, i);
    FilledInv(f[i], w, k, r);
    var filled := Filled(Started(w, r), k, r);
    HoldingInv(f[i], Started(w, r), filled, r);
    var taken := HoldingWitness(Started(w, r), filled, r);
    ReplacedKeeps(e, f, bases, m, i, taken);
    assert With(With(m, i, Started(w, r)), i, taken) == With(m, i, taken);
    if taken.count == |f[i].members| {
      ReduceLeafKeeps(e, f, bases, With(m, i, taken), i);
    }
  }

  lemma LeafOfInv(e: Env, f: seq<Spec>, bases: seq<Option<State>>, m: Machine, i: nat)
    requires Forest(f) && Inv(e, f, bases, m) && i < |f| && f[i].leaf
    ensures |m.works| == |f| && LeafInv(f[i], m.works[i])
  {
    WorkOf(e, f, bases, m, i);
  }

  /** A refused reading finds its batch already open, so nothing changes. */
  lemma ConflictKeeps(e: Env, f: seq<Spec>, bases: seq<Option<State>>, m: Machine, i: nat, k: nat, r: Reading)
    requires Forest(f) && Inv(e, f, bases, m) && i < |f| && f[i].leaf && k < |f[i].members|
    requires Joins(m.works[i], r) && (m.works[i].pending[k].Some? || m.works[i].held.Some?)
    ensures With(m, i, Started(m.works[i], r)) == m
  {
    hide Present;
    LeafOfInv(e, f, bases, m, i);
    var w := m.works[i];
    assert SlotFits(f[i], w.batch, k, w.pending[k]);
    assert Started(w, r) == w;
  }

  lemma ApplyReadingKeeps(e: Env, f: seq<Spec>, bases: seq<Option<State>>, m: Machine, r: Reading)
    requires Forest(f) && Rings(f) && Inv(e, f, bases, m)
    ensures Inv(e, f, bases, ApplyReading(e, f, m, r).m)
  {
    hide Inv, Forest, Rings, TakeReading, SameCore, Recommits;
    SizeOf(e, f, bases, m);
    var i := FindCell(f, r.cell);
    if i < |f| && f[i].leaf {
      var w, k := m.works[i], Find(f[i].members, r.member);
      if k < |f[i].members| && Joins(w, r) {
        if (w.pending[k].Some? && !SameCore(w.pending[k].value, r)) || WitnessConflict(w, r) {
          ConflictKeeps(e, f, bases, m, i, k, r);
        } else {
          TakeReadingKeeps(e, f, bases, m, i, k, r);
        }
      }
    }
  }

  // ---- witnesses ----

  lemma HeldInv(c: Spec, w: Work, h: Held)
    requires WorkInv(c, w) && w.held.None?
    requires c.leaf ==> w.batch.Some? && w.batch.value.clock == h.target
    ensures WorkInv(c, w.(held := Some(h)))
  {
    hide Present;
    var v := w.(held := Some(h));
    if c.leaf {
      forall j | 0 <= j < |v.pending| ensures SlotFits(c, v.batch, j, v.pending[j]) {
        assert SlotFits(c, w.batch, j, w.pending[j]);
      }
    }
  }

  lemma ApplyWitnessKeeps(e: Env, f: seq<Spec>, bases: seq<Option<State>>, m: Machine, id: Name, clock: U64, x: Witness)
    requires Forest(f) && Rings(f) && Inv(e, f, bases, m)
    ensures Inv(e, f, bases, ApplyWitness(e, f, m, id, clock, x).m)
  {
    hide Inv, Forest, Rings, ReduceLeaf, ReduceComposite, WorkInv;
    SizeOf(e, f, bases, m);
    var i := FindCell(f, id);
    if i < |f| {
      var c, w := f[i], m.works[i];
      var late := w.state.Some? && clock <= w.state.value.clock;
      var other := c.leaf && (w.batch.None? || w.batch.value.clock != clock);
      if !late && !other && w.held.None? {
        WorkOf(e, f, bases, m, i);
        HeldInv(c, w, Held(clock, x));
        var held := With(m, i, w.(held := Some(Held(clock, x))));
        ReplacedKeeps(e, f, bases, m, i, w.(held := Some(Held(clock, x))));
        ReportKeeps(e, f, bases, held, m.report.(witnesses := m.report.witnesses + 1));
        var counted := held.(report := m.report.(witnesses := m.report.witnesses + 1));
        if c.leaf {
          ReduceLeafKeeps(e, f, bases, counted, i);
        } else {
          ReduceCompositeKeeps(e, f, bases, counted, i);
        }
      }
    }
  }

  lemma ApplyEventKeeps(e: Env, f: seq<Spec>, bases: seq<Option<State>>, m: Machine, v: Event)
    requires Forest(f) && Rings(f) && Inv(e, f, bases, m)
    ensures Inv(e, f, bases, ApplyEvent(e, f, m, v).m)
  {
    hide Inv, Forest, Rings, ApplyReading, ApplyWitness;
    SizeOf(e, f, bases, m);
    match v
    case Observed(r, _) => ApplyReadingKeeps(e, f, bases, m, r);
    case Attested(id, clock, x, _) => ApplyWitnessKeeps(e, f, bases, m, id, clock, x);
  }

  // ---- retrying and draining ----

  lemma {:induction false} RetryKeeps(e: Env, f: seq<Spec>, bases: seq<Option<State>>, m: Machine, visited: nat,
      after: Option<Name>)
    requires Forest(f) && Rings(f) && Inv(e, f, bases, m) && visited <= |f|
    ensures Inv(e, f, bases, Retry(e, f, m, visited, after).m)
    decreases |f| - visited
  {
    hide Inv, Forest, Rings, ReduceLeaf, ReduceComposite, NextCell;
    SizeOf(e, f, bases, m);
    if visited < |f| {
      var i := NextCell(f, after, |f|);
      if i < |f| {
        if f[i].leaf && m.works[i].count != |f[i].members| {
          RetryKeeps(e, f, bases, m, visited + 1, Some(f[i].id));
        } else {
          if f[i].leaf {
            ReduceLeafKeeps(e, f, bases, m, i);
          } else {
            ReduceCompositeKeeps(e, f, bases, m, i);
          }
          var s := if f[i].leaf then ReduceLeaf(e, f, m, i) else ReduceComposite(e, f, m, i);
          RetryKeeps(e, f, bases, s.m, visited + 1, Some(f[i].id));
        }
      }
    }
  }

  lemma {:induction false} DrainQueueKeeps(e: Env, f: seq<Spec>, bases: seq<Option<State>>, m: Machine,
      q: seq<Event>, maximum: nat)
    requires Forest(f) && Rings(f) && Inv(e, f, bases, m)
    ensures Inv(e, f, bases, DrainQueue(e, f, m, q, maximum).m)
    decreases |q|
  {
    hide Inv, Forest, Rings, ApplyEvent, MinimumEvent, Counted;
    SizeOf(e, f, bases, m);
    if q != [] && m.report.processed < maximum {
      var i := MinimumEvent(q);
      var a := ApplyEvent(e, f, m, q[i]);
      ApplyEventKeeps(e, f, bases, m, q[i]);
      if a.consumed {
        ReportKeeps(e, f, bases, a.m, Counted(a.m.report, a.o));
        if a.o == Ok || a.o == HoldDuplicate {
          DrainQueueKeeps(e, f, bases, a.m.(report := Counted(a.m.report, a.o)), Without(q, i), maximum);
        }
      }
    }
  }

  lemma DrainKeeps(e: Env, f: seq<Spec>, bases: seq<Option<State>>, m: Machine, q: seq<Event>, maximum: nat)
    requires Forest(f) && Rings(f) && Inv(e, f, bases, m)
    ensures Inv(e, f, bases, Drain(e, f, m, q, maximum).m)
  {
    hide Inv, Forest, Rings, Retry, DrainQueue;
    SizeOf(e, f, bases, m);
    ReportKeeps(e, f, bases, m, NO_REPORT);
    RetryKeeps(e, f, bases, m.(report := NO_REPORT), 0, None);
    var first := Retry(e, f, m.(report := NO_REPORT), 0, None);
    DrainQueueKeeps(e, f, bases, first.m, q, maximum);
    RetryKeeps(e, f, bases, DrainQueue(e, f, first.m, q, maximum).m, 0, None);
  }
}
