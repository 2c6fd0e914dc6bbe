/**
 * What the report of a drain says: how many events it answered, how many of these as duplicates and as errors, how many
 * witnesses it took, and how many states leaves and composites committed.
 */
module SchedulerReport {
  import opened Bytes
  import opened Options
  import opened Ring
  import opened Frame
  import opened Topology
  import opened Cell
  import opened Scheduler

  /** How many of the commits from position n on are of leaves, or of composites. */
  function CommitsOf(f: seq<Spec>, commits: seq<(nat, State)>, n: nat, leaf: bool): nat
    requires n <= |commits|
    decreases |commits| - n
  {
    if n == |commits| then 0
    else CommitsOf(f, commits, n + 1, leaf) + if commits[n].0 < |f| && f[commits[n].0].leaf == leaf then 1 else 0
  }

  /** No cell counts as imported that did not before. */
  predicate NoneImported(m: Machine, v: Machine) {
    |v.works| == |m.works| && forall i :: 0 <= i < |m.works| ==> v.works[i].imported ==> m.works[i].imported
  }

  /** The events answered so far are as they were; new commits, and so many witnesses taken, are counted. */
  predicate Tallies(f: seq<Spec>, m: Machine, v: Machine, taken: nat) {
    var r, p := m.report, v.report;
    && m.commits <= v.commits && NoneImported(m, v)
    && p.processed == r.processed && p.duplicates == r.duplicates && p.rejected == r.rejected
    && p.witnesses == r.witnesses + taken && r.framesHeld <= p.framesHeld
    && p.leafUpdates == r.leafUpdates + CommitsOf(f, v.commits, |m.commits|, true)
    && p.recursiveUpdates == r.recursiveUpdates + CommitsOf(f, v.commits, |m.commits|, false)
  }

  lemma {:induction false} CommitsFurther(f: seq<Spec>, a: seq<(nat, State)>, b: seq<(nat, State)>, n: nat, leaf: bool)
    requires n <= |a| && a <= b
    ensures CommitsOf(f, b, n, leaf) == CommitsOf(f, a, n, leaf) + CommitsOf(f, b, |a|, leaf)
    decreases |a| - n
  {
    if n < |a| {
      CommitsFurther(f, a, b, n + 1, leaf);
    }
  }

  lemma TalliesChain(f: seq<Spec>, m: Machine, u: Machine, v: Machine, a: nat, b: nat)
    requires Tallies(f, m, u, a) && Tallies(f, u, v, b)
    ensures Tallies(f, m, v, a + b)
  {
    CommitsFurther(f, u.commits, v.commits, |m.commits|, true);
    CommitsFurther(f, u.commits, v.commits, |m.commits|, false);
  }

  lemma TalliesCommit(e: Env, f: seq<Spec>, m: Machine, i: nat, s: State, evidence: Evidence, clock: U64)
    requires Forest(f) && Shaped(f, m) && i < |f|
    ensures Tallies(f, m, Commit(e, f, m, i, s, evidence, clock), 0)
  {
    hide TraceBytes;
    var v := Commit(e, f, m, i, s, evidence, clock);
    assert v.commits == m.commits + [(i, s)];
    assert CommitsOf(f, v.commits, |v.commits|, true) == 0 == CommitsOf(f, v.commits, |v.commits|, false);
  }

  lemma TalliesSame(f: seq<Spec>, m: Machine, v: Machine)
    requires v.commits == m.commits && v.report in {m.report, m.report.(framesHeld := m.report.framesHeld + 1)}
    requires NoneImported(m, v)
    ensures Tallies(f, m, v, 0)
  {}

  lemma SettleTallies(e: Env, f: seq<Spec>, m: Machine, i: nat, next: Reduced, evidence: Evidence, clock: U64)
    requires Forest(f) && Shaped(f, m) && i < |f|
    ensures Tallies(f, m, Settle(e, f, m, i, next, evidence, clock).m, 0)
    decreases |f| - i, 1
  {
    hide Tallies, Commit;
    if next.Reduced? {
      var v := Commit(e, f, m, i, next.state, evidence, clock);
      TalliesCommit(e, f, m, i, next.state, evidence, clock);
      PropagateTallies(e, f, v, i);
      TalliesChain(f, m, v, Propagate(e, f, v, i).m, 0, 0);
    } else {
      TalliesSame(f, m, Settle(e, f, m, i, next, evidence, clock).m);
    }
  }

  lemma PropagateTallies(e: Env, f: seq<Spec>, m: Machine, child: nat)
    requires Forest(f) && Shaped(f, m) && child < |f|
    ensures Tallies(f, m, Propagate(e, f, m, child).m, 0)
    decreases |f| - child, 0
  {
    hide Tallies;
    TalliesSame(f, m, m);
    if f[child].parent.Some? {
      CompositeTallies(e, f, m, f[child].parent.value);
    }
  }

  lemma CompositeTallies(e: Env, f: seq<Spec>, m: Machine, i: nat)
    requires Forest(f) && Shaped(f, m) && i < |f|
    ensures Tallies(f, m, ReduceComposite(e, f, m, i).m, 0)
    decreases |f| - i, 2
  {
    hide Tallies, Reduce, CompositeFrame, NearerHorizon;
    var c, w := f[i], m.works[i];
    if !c.leaf && AllReady(c, m, |c.children|) && OneChildClock(c, m)
       && (w.state.Some? ==> w.state.value.clock < ChildState(c, m, 0).value.clock) && CompositeFrame(e, c, m).Sealed?
    {
      var clock := ChildState(c, m, 0).value.clock;
      var evidence := EvidenceFor(w.held, clock);
      var next := Reduce(e.H, e.R, c.id, CompositeFrame(e, c, m).snapshot, NearerHorizon(c, m), w.state, evidence);
      SettleTallies(e, f, m, i, next, evidence, clock);
    } else {
      TalliesSame(f, m, ReduceComposite(e, f, m, i).m);
    }
  }

  lemma LeafTallies(e: Env, f: seq<Spec>, m: Machine, i: nat)
    requires Forest(f) && Shaped(f, m) && i < |f| && f[i].leaf
    ensures Tallies(f, m, ReduceLeaf(e, f, m, i).m, 0)
  {
    hide Tallies, Reduce, Seal, LeafObservations;
    var c, w := f[i], m.works[i];
    var b := BatchOf(w);
    var sealed := Seal(e.H, FrameConfig(c, b.windowStart, b.windowEnd), LeafObservations(c, w), b.sealTime);
    if w.count == |c.members| && sealed.Sealed? {
      var evidence := EvidenceFor(w.held, b.clock);
      var next := Reduce(e.H, e.R, c.id, sealed.snapshot, c.horizon, w.state, evidence);
      SettleTallies(e, f, m, i, next, evidence, b.clock);
    } else {
      TalliesSame(f, m, ReduceLeaf(e, f, m, i).m);
    }
  }

  // ---- events ----

  /** Nothing but works changed, and so many witnesses were taken. */
  lemma TalliesWorks(f: seq<Spec>, m: Machine, v: Machine, taken: nat)
    requires v.commits == m.commits && v.report == m.report.(witnesses := m.report.witnesses + taken)
    requires NoneImported(m, v)
    ensures Tallies(f, m, v, taken)
  {}

  lemma ReadingTallies(e: Env, f: seq<Spec>, m: Machine, r: Reading)
    requires Forest(f) && Shaped(f, m)
    ensures Tallies(f, m, ApplyReading(e, f, m, r).m, 0)
  {
    hide Tallies, SameCore, Recommits, WitnessConflict, ReduceLeaf, ReadingBatch;
    TalliesWorks(f, m, m, 0);
    var a, i := ApplyReading(e, f, m, r), FindCell(f, r.cell);
    if i < |f| && f[i].leaf && Find(f[i].members, r.member) < |f[i].members| {
      var started := With(m, i, m.works[i].(batch := Some(ReadingBatch(r))));
      TalliesWorks(f, m, started, 0);
      TakingTallies(e, f, started, i, Find(f[i].members, r.member), r);
      var taken := TakeReading(e, f, started, i, Find(f[i].members, r.member), r).m;
      TalliesChain(f, m, started, taken, 0, 0);
    }
  }

  lemma TakingTallies(e: Env, f: seq<Spec>, m: Machine, i: nat, k: nat, r: Reading)
    requires Forest(f) && Shaped(f, m) && i < |f| && f[i].leaf && k < |f[i].members|
    ensures Tallies(f, m, TakeReading(e, f, m, i, k, r).m, 0)
  {
    hide Tallies, ReduceLeaf;
    var w := m.works[i];
    var filled :=
      if w.pending[k].Some? then w else w.(pending := w.pending[k := Some(r)], count := w.count + 1);
    var taken :=
      if r.attached.Some? && w.held.None? then filled.(held := Some(Held(r.clock, r.attached.value))) else filled;
    var v := With(m, i, taken);
    TalliesWorks(f, m, v, 0);
    if taken.count == |f[i].members| {
      LeafTallies(e, f, v, i);
      TalliesChain(f, m, v, ReduceLeaf(e, f, v, i).m, 0, 0);
    }
  }

  /** A witness is taken by a cell that is not past its clock, has the batch of that clock open if it is a leaf, and
      holds none. */
  predicate Takes(f: seq<Spec>, m: Machine, v: Event)
    requires Fits(f, m)
  {
    v.Attested? && FindCell(f, v.cell) < |f|
    && var c, w := f[FindCell(f, v.cell)], m.works[FindCell(f, v.cell)];
    && (w.state.Some? ==> w.state.value.clock < v.clock)
    && (c.leaf ==> w.batch.Some? && w.batch.value.clock == v.clock)
    && w.held.None?
  }

  lemma EventTallies(e: Env, f: seq<Spec>, m: Machine, v: Event)
    requires Forest(f) && Shaped(f, m)
    ensures Tallies(f, m, ApplyEvent(e, f, m, v).m, if Takes(f, m, v) then 1 else 0)
  {
    hide Tallies, ApplyReading, ReduceLeaf, ReduceComposite;
    if v.Observed? {
      ReadingTallies(e, f, m, v.reading);
    } else if Takes(f, m, v) {
      var i := FindCell(f, v.cell);
      var counted := With(m, i, m.works[i].(held := Some(Held(v.clock, v.w)))).(
        report := m.report.(witnesses := m.report.witnesses + 1));
      TalliesWorks(f, m, counted, 1);
      if f[i].leaf {
        LeafTallies(e, f, counted, i);
        TalliesChain(f, m, counted, ReduceLeaf(e, f, counted, i).m, 1, 0);
      } else {
        CompositeTallies(e, f, counted, i);
        TalliesChain(f, m, counted, ReduceComposite(e, f, counted, i).m, 1, 0);
      }
    } else {
      TalliesWorks(f, m, m, 0);
    }
  }

  lemma {:induction false} RetryTallies(e: Env, f: seq<Spec>, m: Machine, visited: nat, after: Option<Name>)
    requires Forest(f) && Shaped(f, m) && visited <= |f|
    ensures Tallies(f, m, Retry(e, f, m, visited, after).m, 0)
    decreases |f| - visited
  {
    hide Tallies, ReduceLeaf, ReduceComposite, NextCell, Forest;
    TalliesWorks(f, m, m, 0);
    if visited < |f| && NextCell(f, after, |f|) < |f| {
      var i := NextCell(f, after, |f|);
      if f[i].leaf && m.works[i].count != |f[i].members| {
        RetryTallies(e, f, m, visited + 1, Some(f[i].id));
      } else {
        if f[i].leaf {
          LeafTallies(e, f, m, i);
        } else {
          CompositeTallies(e, f, m, i);
        }
        var s := if f[i].leaf then ReduceLeaf(e, f, m, i) else ReduceComposite(e, f, m, i);
        RetryTallies(e, f, s.m, visited + 1, Some(f[i].id));
        TalliesChain(f, m, s.m, Retry(e, f, s.m, visited + 1, Some(f[i].id)).m, 0, 0);
      }
    }
  }

  // ---- the answers of a drain ----

  /** An event that was answered, and so has left the queue; whether a cell took its witness. */
  datatype Answered = Answered(event: Event, o: Outcome, took: bool)

  /** What the loop answers, event by event. */
  function Answers(e: Env, f: seq<Spec>, m: Machine, q: seq<Event>, maximum: nat): seq<Answered>
    requires Forest(f) && Shaped(f, m)
    decreases |q|
  {
    if q == [] || m.report.processed >= maximum then []
    else
      var i := MinimumEvent(q);
      var a := ApplyEvent(e, f, m, q[i]);
      if !a.consumed then []
      else
        [Answered(q[i], a.o, Takes(f, m, q[i]))]
        + if a.o == Ok || a.o == HoldDuplicate
          then Answers(e, f, a.m.(report := Counted(a.m.report, a.o)), Without(q, i), maximum) else []
  }

  function Duplicates(a: seq<Answered>): nat {
    if a == [] then 0 else Duplicates(a[1..]) + if a[0].o == HoldDuplicate then 1 else 0
  }

  function Errors(a: seq<Answered>): nat {
    if a == [] then 0 else Errors(a[1..]) + if IsError(a[0].o) then 1 else 0
  }

  function Taken(a: seq<Answered>): nat {
    if a == [] then 0 else Taken(a[1..]) + if a[0].took then 1 else 0
  }

  function EventsOf(a: seq<Answered>): multiset<Event> {
    if a == [] then multiset{} else multiset{a[0].event} + EventsOf(a[1..])
  }

  /** The report counts the answers, and the commits. */
  predicate Reports(f: seq<Spec>, m: Machine, v: Machine, a: seq<Answered>) {
    var r, p := m.report, v.report;
    && m.commits <= v.commits && NoneImported(m, v)
    && p.processed == r.processed + |a|
    && p.duplicates == r.duplicates + Duplicates(a)
    && p.rejected == r.rejected + Errors(a)
    && p.witnesses == r.witnesses + Taken(a)
    && p.leafUpdates == r.leafUpdates + CommitsOf(f, v.commits, |m.commits|, true)
    && p.recursiveUpdates == r.recursiveUpdates + CommitsOf(f, v.commits, |m.commits|, false)
  }

  /** One more answer in front. */
  lemma ReportsOne(f: seq<Spec>, m: Machine, u: Machine, v: Machine, x: Answered, rest: seq<Answered>)
    requires Tallies(f, m, u, if x.took then 1 else 0)
    requires Reports(f, u.(report := Counted(u.report, x.o)), v, rest)
    ensures Reports(f, m, v, [x] + rest)
  {
    assert ([x] + rest)[1..] == rest;
    CommitsFurther(f, u.commits, v.commits, |m.commits|, true);
    CommitsFurther(f, u.commits, v.commits, |m.commits|, false);
  }

  lemma ReportsNone(f: seq<Spec>, m: Machine)
    ensures Reports(f, m, m, [])
  {}

  /** An event that is not answered leaves everything as it is. */
  lemma UnansweredStays(e: Env, f: seq<Spec>, m: Machine, v: Event)
    requires Forest(f) && Shaped(f, m) && !ApplyEvent(e, f, m, v).consumed
    ensures ApplyEvent(e, f, m, v).m == m
  {
    hide SameCore, Recommits, WitnessConflict, TakeReading, ReduceLeaf, ReduceComposite;
  }

  /** The loop's report counts its answers. */
  lemma {:induction false} QueueReports(e: Env, f: seq<Spec>, m: Machine, q: seq<Event>, maximum: nat)
    requires Forest(f) && Shaped(f, m)
    ensures Reports(f, m, DrainQueue(e, f, m, q, maximum).m, Answers(e, f, m, q, maximum))
    decreases |q|
  {
    hide ApplyEvent, Forest, MinimumEvent, Tallies, Takes, Reports, Counted;
    ReportsNone(f, m);
    if q != [] && m.report.processed < maximum {
      var i := MinimumEvent(q);
      var a := ApplyEvent(e, f, m, q[i]);
      if a.consumed {
        var u := a.m.(report := Counted(a.m.report, a.o));
        var x := Answered(q[i], a.o, Takes(f, m, q[i]));
        EventTallies(e, f, m, q[i]);
        ReportsNone(f, u);
        var rest := if a.o == Ok || a.o == HoldDuplicate then Answers(e, f, u, Without(q, i), maximum) else [];
        if a.o == Ok || a.o == HoldDuplicate {
          QueueReports(e, f, u, Without(q, i), maximum);
        }
        ReportsOne(f, m, a.m, DrainQueue(e, f, m, q, maximum).m, x, rest);
      } else {
        UnansweredStays(e, f, m, q[i]);
      }
    }
  }

  lemma WithoutOne(q: seq<Event>, i: nat)
    requires i < |q|
    ensures multiset(q) == multiset{q[i]} + multiset(Without(q, i))
  {
    assert q == q[..i] + [q[i]] + q[i + 1..];
  }

  lemma EventsFirst(x: Answered, rest: seq<Answered>)
    ensures EventsOf([x] + rest) == multiset{x.event} + EventsOf(rest)
  {
    assert ([x] + rest)[1..] == rest;
  }

  lemma EventsNone()
    ensures EventsOf([]) == multiset{}
  {}

  /** Every event is answered or still there, and none twice. */
  lemma {:induction false} QueueConserves(e: Env, f: seq<Spec>, m: Machine, q: seq<Event>, maximum: nat)
    requires Forest(f) && Shaped(f, m)
    ensures var d, a := DrainQueue(e, f, m, q, maximum), Answers(e, f, m, q, maximum);
      multiset(q) == multiset(d.q) + EventsOf(a) && |q| == |d.q| + |a|
    decreases |q|
  {
    hide ApplyEvent, Forest, MinimumEvent, Takes, Counted, Without, EventsOf;
    EventsNone();
    if q != [] && m.report.processed < maximum {
      var i := MinimumEvent(q);
      var a := ApplyEvent(e, f, m, q[i]);
      if a.consumed {
        WithoutOne(q, i);
        var u := a.m.(report := Counted(a.m.report, a.o));
        var x := Answered(q[i], a.o, Takes(f, m, q[i]));
        var more := a.o == Ok || a.o == HoldDuplicate;
        var rest := if more then Answers(e, f, u, Without(q, i), maximum) else [];
        if more {
          QueueConserves(e, f, u, Without(q, i), maximum);
        }
        EventsFirst(x, rest);
      }
    }
  }

  /**
   * The answers but the last one let the loop go on; it ends for want of events, at the limit, or at another
   * answer.
   */
  predicate Ends(d: Drained, a: seq<Answered>, maximum: nat) {
    && (forall k :: 0 <= k < |a| - 1 ==> a[k].o in {Ok, HoldDuplicate})
    && (a != [] && a[|a| - 1].o !in {Ok, HoldDuplicate} ==> d.o == a[|a| - 1].o)
    && (d.o == Ok ==> d.q == [] || d.m.report.processed >= maximum)
  }

  lemma {:induction false} QueueEnds(e: Env, f: seq<Spec>, m: Machine, q: seq<Event>, maximum: nat)
    requires Forest(f) && Shaped(f, m)
    ensures Ends(DrainQueue(e, f, m, q, maximum), Answers(e, f, m, q, maximum), maximum)
    decreases |q|
  {
    hide ApplyEvent, Forest, MinimumEvent, Takes, Counted, Without;
    if q != [] && m.report.processed < maximum {
      var i := MinimumEvent(q);
      var a := ApplyEvent(e, f, m, q[i]);
      UnansweredIsNotOk(e, f, m, q[i]);
      if a.consumed && (a.o == Ok || a.o == HoldDuplicate) {
        var u := a.m.(report := Counted(a.m.report, a.o));
        var rest := Answers(e, f, u, Without(q, i), maximum);
        QueueEnds(e, f, u, Without(q, i), maximum);
        var all := [Answered(q[i], a.o, Takes(f, m, q[i]))] + rest;
        assert forall k :: 0 < k < |all| ==> all[k] == rest[k - 1];
      }
    }
  }

  lemma UnansweredIsNotOk(e: Env, f: seq<Spec>, m: Machine, v: Event)
    requires Forest(f) && Shaped(f, m)
    ensures ApplyEvent(e, f, m, v).consumed || ApplyEvent(e, f, m, v).o != Ok
  {
    hide ApplyReading, ApplyWitness;
  }

  lemma {:induction false} ProcessedBound(e: Env, f: seq<Spec>, m: Machine, q: seq<Event>, maximum: nat)
    requires Forest(f) && Shaped(f, m) && m.report.processed <= maximum
    ensures m.report.processed + |Answers(e, f, m, q, maximum)| <= maximum
    decreases |q|
  {
    hide ApplyEvent, Forest, MinimumEvent, Takes, Without;
    if q != [] && m.report.processed < maximum {
      var i := MinimumEvent(q);
      var a := ApplyEvent(e, f, m, q[i]);
      if a.consumed && (a.o == Ok || a.o == HoldDuplicate) {
        EventProcesses(e, f, m, q[i]);
        ProcessedBound(e, f, a.m.(report := Counted(a.m.report, a.o)), Without(q, i), maximum);
      }
    }
  }

  lemma EventProcesses(e: Env, f: seq<Spec>, m: Machine, v: Event)
    requires Forest(f) && Shaped(f, m)
    ensures ApplyEvent(e, f, m, v).m.report.processed == m.report.processed
  {
    hide ApplyEvent, Takes;
    EventTallies(e, f, m, v);
  }

  /** The answers of a whole drain; there are none if its first retry does not go through. */
  function DrainAnswers(e: Env, f: seq<Spec>, m: Machine, q: seq<Event>, maximum: nat): seq<Answered>
    requires Forest(f) && Shaped(f, m)
  {
    var first := Retry(e, f, m.(report := NO_REPORT), 0, None);
    if first.o != Ok then [] else Answers(e, f, first.m, q, maximum)
  }

  lemma ReportsChain(f: seq<Spec>, m: Machine, u: Machine, v: Machine, w: Machine, a: seq<Answered>)
    requires Tallies(f, m, u, 0) && Reports(f, u, v, a) && Tallies(f, v, w, 0)
    ensures Reports(f, m, w, a)
  {
    CommitsFurther(f, u.commits, v.commits, |m.commits|, true);
    CommitsFurther(f, u.commits, v.commits, |m.commits|, false);
    CommitsFurther(f, v.commits, w.commits, |m.commits|, true);
    CommitsFurther(f, v.commits, w.commits, |m.commits|, false);
  }

  /**
   * The report of a drain: as many events processed as were answered, within the limit, of these as many duplicates and
   * as many rejected as were answered so, as many witnesses as cells took, and as many leaf and recursive updates as
   * leaves and composites committed states. And every event was answered or is still queued.
   */
  lemma DrainReports(e: Env, f: seq<Spec>, m: Machine, q: seq<Event>, maximum: nat)
    requires Forest(f) && Shaped(f, m)
    ensures var d, a := Drain(e, f, m, q, maximum), DrainAnswers(e, f, m, q, maximum);
      && Reports(f, m.(report := NO_REPORT), d.m, a) && d.m.report.processed == |a| <= maximum
      && multiset(q) == multiset(d.q) + EventsOf(a) && |q| == |d.q| + |a|
  {
    hide Retry, DrainQueue, Tallies, Reports, Answers, Forest;
    var m0 := m.(report := NO_REPORT);
    var first := Retry(e, f, m0, 0, None);
    RetryTallies(e, f, m0, 0, None);
    TalliesSame(f, first.m, first.m);
    ReportsNone(f, first.m);
    if first.o == Ok {
      var d := DrainQueue(e, f, first.m, q, maximum);
      QueueReports(e, f, first.m, q, maximum);
      QueueConserves(e, f, first.m, q, maximum);
      TalliesSame(f, d.m, d.m);
      RetryTallies(e, f, d.m, 0, None);
      ReportsChain(f, m0, first.m, d.m, Drain(e, f, m, q, maximum).m, DrainAnswers(e, f, m, q, maximum));
      RetryProcesses(e, f, m0);
      ProcessedBound(e, f, first.m, q, maximum);
    } else {
      ReportsChain(f, m0, first.m, first.m, first.m, []);
    }
    ProcessedIs(f, m0, Drain(e, f, m, q, maximum).m, DrainAnswers(e, f, m, q, maximum));
  }

  lemma RetryProcesses(e: Env, f: seq<Spec>, m: Machine)
    requires Forest(f) && Shaped(f, m)
    ensures Retry(e, f, m, 0, None).m.report.processed == m.report.processed
  {
    hide Retry;
    RetryTallies(e, f, m, 0, None);
  }

  lemma ProcessedIs(f: seq<Spec>, m: Machine, v: Machine, a: seq<Answered>)
    requires Reports(f, m, v, a)
    ensures v.report.processed == m.report.processed + |a|
  {}
}
