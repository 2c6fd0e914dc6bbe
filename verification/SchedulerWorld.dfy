/**
 * The whole scheduler: cells are added bottom-up, the forest is sealed, readings and witnesses are
 * published into the queue, and the queue is drained.
 */
module SchedulerWorld {
  import opened Bytes
  import opened Options
  import opened Ring
  import opened Frame
  import opened Topology
  import opened Cell
  import opened Scheduler
  import opened SchedulerOrder
  import opened SchedulerLaws

  datatype Limits = Limits(cells: nat, events: nat, depth: nat)

  datatype Sched = Sched(f: seq<Spec>, m: Machine, q: seq<Event>, next: U64, sealed: bool, limits: Limits)

  datatype Answer = Answer(s: Sched, o: Outcome)

  /** A cell to be added; a composite names one child per member. */
  datatype NewCell = NewCell(
    id: Name, leaf: bool, members: seq<U64>, succs: seq<U64>, childIds: seq<Name>,
    frameVersion: U64, reducerVersion: U64, topologyVersion: U64, staleAfter: U64, horizon: U64)

  predicate WellFormed(n: NewCell) {
    |n.succs| == |n.members| && (!n.leaf ==> |n.childIds| == |n.members|)
  }

  function NoWork(n: nat): Work {
    Work(seq(n, _ => None), seq(n, _ => None), 0, None, None, None, None, false)
  }

  function Fresh(limits: Limits): Sched {
    Sched([], Machine([], ZeroDigest(), NO_REPORT, []), [], 1, false, limits)
  }

  // ---- adding cells ----

  datatype Resolved = Resolved(children: seq<nat>, depth: nat) | Unresolved(o: Outcome)

  /** The indices of the first n named children, and the depth above them. */
  function Resolve(f: seq<Spec>, ids: seq<Name>, n: nat): Resolved
    requires n <= |ids|
  {
    if n == 0 then Resolved([], 0)
    else
      var before := Resolve(f, ids, n - 1);
      if before.Unresolved? then before
      else if !NameValid(ids[n - 1]) then Unresolved(ErrArgument)
      else
        var child := FindCell(f, ids[n - 1]);
        if child == |f| then Unresolved(ErrNotFound)
        else if f[child].parent.Some? then Unresolved(ErrCycle)
        else if child in before.children then Unresolved(ErrConflict)
        else Resolved(before.children + [child],
                      if f[child].depth + 1 > before.depth then f[child].depth + 1 else before.depth)
  }

  /** The cells with `parent` as the parent of these children. */
  function Adopted(f: seq<Spec>, children: seq<nat>, parent: nat): (r: seq<Spec>)
    ensures |r| == |f|
    ensures forall i :: 0 <= i < |f| ==> r[i] == if i in children then f[i].(parent := Some(parent)) else f[i]
  {
    seq(|f|, i requires 0 <= i < |f| => if i in children then f[i].(parent := Some(parent)) else f[i])
  }

  predicate NewCellValid(s: Sched, n: NewCell, ring: bool) {
    && NameValid(n.id) && |n.members| <= s.limits.events && ring
    && n.frameVersion != 0 && n.reducerVersion != 0 && n.topologyVersion != 0 && n.horizon != 0
  }

  /** `ring` says whether the successor links form one ring. */
  function AddCell(s: Sched, n: NewCell, ring: bool): Answer
    requires WellFormed(n)
  {
    if !NewCellValid(s, n, ring) then Answer(s, ErrArgument)
    else if s.sealed then Answer(s, ErrConflict)
    else if |s.f| >= s.limits.cells then Answer(s, HoldLimit)
    else if FindCell(s.f, n.id) != |s.f| then Answer(s, ErrConflict)
    else
      var r := if n.leaf then Resolved([], 0) else Resolve(s.f, n.childIds, |n.childIds|);
      if r.Unresolved? then Answer(s, r.o)
      else if !n.leaf && r.depth > s.limits.depth then Answer(s, ErrCycle)
      else Answer(Added(s, n, r.children, r.depth), Ok)
  }

  function SpecOf(n: NewCell, children: seq<nat>, depth: nat): Spec {
    Spec(n.id, n.leaf, n.members, n.succs, children, None, depth,
         n.frameVersion, n.reducerVersion, n.topologyVersion, n.staleAfter, n.horizon)
  }

  function Added(s: Sched, n: NewCell, children: seq<nat>, depth: nat): Sched {
    s.(f := Adopted(s.f, children, |s.f|) + [SpecOf(n, children, depth)],
       m := s.m.(works := s.m.works + [NoWork(if n.leaf then |n.members| else 0)]))
  }

  function SealForest(s: Sched): Answer {
    if s.f == [] then Answer(s, ErrArgument) else Answer(s.(sealed := true), Ok)
  }

  // ---- publishing readings ----

  predicate WitnessOk(x: Witness, clock: U64) {
    && x.kind != NoEvent && 0 < x.clock <= clock && x.from != 0 && x.to != 0 && x.evidence != ZeroDigest()
  }

  predicate ReadingOk(r: Reading, now: U64) {
    && NameValid(r.cell) && r.member != 0 && r.clock != 0
    && r.windowStart <= r.observedAt <= r.windowEnd <= r.sealTime <= now
    && r.source != ZeroDigest()
    && (r.attached.Some? ==> WitnessOk(r.attached.value, r.clock))
  }

  /** A frame change is admitted only for a cell seeded from the preceding epoch. */
  predicate FrameChangeExpected(c: Spec, w: Work) {
    w.imported && w.state.Some? && c.frameVersion == Add64(w.state.value.frameVersion, 1)
  }

  /** What the cell itself says about a reading for slot k, before the queue is looked at; Ok lets it pass. */
  function CellVerdict(c: Spec, w: Work, k: nat, r: Reading, now: U64): Outcome
    requires k < |w.pending| == |w.committed| && ReadingOk(r, now)
  {
    if r.frameVersion != c.frameVersion then ErrFrame
    else if r.attached.Some? && r.attached.value.kind == FrameChange && !FrameChangeExpected(c, w) then ErrTransition
    else if r.clock > c.horizon then ErrFrame
    else if now - r.sealTime > c.staleAfter || r.sealTime - r.observedAt > c.staleAfter then HoldOld
    else if w.state.Some? && r.clock <= w.state.value.clock then
      if Recommits(w, k, r) && (r.attached.None? || w.spent == Some(Held(r.clock, r.attached.value))) then HoldDuplicate
      else ErrFrame
    else if w.batch.Some? && r.clock == w.batch.value.clock && w.batch.value != ReadingBatch(r) then ErrFrame
    else if w.pending[k].Some? && w.batch.Some? && w.batch.value.clock == r.clock && !SameCore(w.pending[k].value, r)
    then ErrConflict
    else if w.pending[k].Some? && w.batch.Some? && w.batch.value.clock == r.clock && r.attached.None? then HoldDuplicate
    else if WitnessConflict(w, r) then ErrConflict
    else Ok
  }

  datatype Admission = Append | Attach(at: nat) | Refuse(o: Outcome)

  predicate SameFrame(v: Event, r: Reading) {
    v.Observed? && v.reading.cell == r.cell && v.reading.clock == r.clock
  }

  /** What the queue, from position k on, says about a reading the cell let pass. */
  function QueueVerdict(q: seq<Event>, r: Reading, k: nat): (a: Admission)
    requires k <= |q|
    ensures a.Attach? ==> k <= a.at < |q| && q[a.at].Observed?
    decreases |q| - k
  {
    if k == |q| then Append
    else if !SameFrame(q[k], r) then QueueVerdict(q, r, k + 1)
    else
      var v := q[k].reading;
      if ReadingBatch(v) != ReadingBatch(r) || v.frameVersion != r.frameVersion then Refuse(ErrFrame)
      else if r.attached.Some? && v.attached.Some? && v.attached != r.attached then Refuse(ErrConflict)
      else if v.member != r.member then QueueVerdict(q, r, k + 1)
      else if !SameCore(v, r) then Refuse(ErrConflict)
      else if v.attached.None? && r.attached.Some? then Attach(k)
      else Refuse(HoldDuplicate)
  }

  function Publish(s: Sched, r: Reading, now: U64): Answer
    requires Shaped(s.f, s.m)
  {
    if !ReadingOk(r, now) then Answer(s, ErrArgument)
    else if !s.sealed then Answer(s, ErrConflict)
    else
      var i := FindCell(s.f, r.cell);
      if i == |s.f| || !s.f[i].leaf || Find(s.f[i].members, r.member) == |s.f[i].members| then Answer(s, ErrNotFound)
      else
        var verdict := CellVerdict(s.f[i], s.m.works[i], Find(s.f[i].members, r.member), r, now);
        if verdict != Ok then Answer(s, verdict)
        else
          var a := QueueVerdict(s.q, r, 0);
          if a.Refuse? then Answer(s, a.o)
          else if a.Attach? then
            Answer(s.(q := s.q[a.at := s.q[a.at].(reading := s.q[a.at].reading.(attached := r.attached))]), Ok)
          else Enqueue(s, Observed(r, s.next))
  }

  function Enqueue(s: Sched, v: Event): Answer {
    if |s.q| >= s.limits.events || s.next == TWO_64 - 1 then Answer(s, HoldLimit)
    else Answer(s.(q := s.q + [v], next := s.next + 1), Ok)
  }

  // ---- publishing witnesses ----

  function CellWitnessVerdict(c: Spec, w: Work, clock: U64, x: Witness): Outcome {
    if x.kind == FrameChange && !FrameChangeExpected(c, w) then ErrTransition
    else if clock > c.horizon then ErrFrame
    else if w.state.Some? && clock <= w.state.value.clock then
      if clock == w.state.value.clock && w.spent == Some(Held(clock, x)) then HoldDuplicate else ErrConflict
    else if w.held.Some? then if w.held.value == Held(clock, x) then HoldDuplicate else ErrConflict
    else Ok
  }

  /** A witness already queued for this cell and clock, alone or on a reading. */
  function QueuedWitness(v: Event, id: Name, clock: U64): Option<Witness> {
    if v.Observed? && v.reading.cell == id && v.reading.clock == clock && v.reading.attached.Some?
    then v.reading.attached
    else if v.Attested? && v.cell == id && v.clock == clock then Some(v.w)
    else None
  }

  function QueueWitnessVerdict(q: seq<Event>, id: Name, clock: U64, x: Witness, k: nat): Outcome
    requires k <= |q|
    decreases |q| - k
  {
    if k == |q| then Ok
    else
      var found := QueuedWitness(q[k], id, clock);
      if found.None? then QueueWitnessVerdict(q, id, clock, x, k + 1)
      else if found.value == x then HoldDuplicate
      else ErrConflict
  }

  function PublishWitness(s: Sched, id: Name, clock: U64, x: Witness): Answer
    requires Fits(s.f, s.m)
  {
    if !NameValid(id) || clock == 0 || !WitnessOk(x, clock) then Answer(s, ErrArgument)
    else if !s.sealed then Answer(s, ErrConflict)
    else
      var i := FindCell(s.f, id);
      if i == |s.f| then Answer(s, ErrNotFound)
      else
        var verdict := CellWitnessVerdict(s.f[i], s.m.works[i], clock, x);
        if verdict != Ok then Answer(s, verdict)
        else
          var queued := QueueWitnessVerdict(s.q, id, clock, x, 0);
          if queued != Ok then Answer(s, queued) else Enqueue(s, Attested(id, clock, x, s.next))
  }

  function DrainWorld(e: Env, s: Sched, maximum: nat): Answer
    requires Forest(s.f) && Shaped(s.f, s.m)
  {
    if maximum == 0 then Answer(s, ErrArgument)
    else if !s.sealed then Answer(s, ErrConflict)
    else
      var d := Drain(e, s.f, s.m, s.q, maximum);
      Answer(s.(m := d.m, q := d.q), d.o)
  }

  // ---- the forest ----

  /**
   * Identifiers are distinct, links are rings, and every child has one parent, later in the list and strictly
   * deeper.
   */
  ghost predicate Sound(f: seq<Spec>, limits: Limits) {
    && Forest(f) && Rings(f) && RingsWithin(f, limits) && DistinctIds(f)
    && ChildrenAgree(f) && DistinctChildren(f) && ParentsAgree(f)
  }

  ghost predicate RingsWithin(f: seq<Spec>, limits: Limits) {
    forall i :: 0 <= i < |f| ==> IsRing(f[i].members, f[i].succs) && f[i].depth <= limits.depth
  }

  predicate DistinctIds(f: seq<Spec>) {
    forall i, j :: 0 <= i < j < |f| ==> f[i].id != f[j].id
  }

  predicate ChildrenAgree(f: seq<Spec>) {
    forall i, k :: 0 <= i < |f| && 0 <= k < |f[i].children| ==> ParentOf(f, i, f[i].children[k])
  }

  predicate DistinctChildren(f: seq<Spec>) {
    forall i, j, k :: 0 <= i < |f| && 0 <= j < k < |f[i].children| ==> f[i].children[j] != f[i].children[k]
  }

  predicate ParentsAgree(f: seq<Spec>) {
    forall c :: 0 <= c < |f| && f[c].parent.Some? ==> f[c].parent.value < |f| && c in f[f[c].parent.value].children
  }

  predicate ParentOf(f: seq<Spec>, i: nat, c: nat)
    requires i < |f|
  {
    c < |f| && f[c].parent == Some(i) && f[c].depth < f[i].depth
  }

  /** What resolving yields: distinct parentless cells, all below the depth. */
  predicate Orphans(f: seq<Spec>, children: seq<nat>, depth: nat) {
    && (forall k :: 0 <= k < |children| ==>
          children[k] < |f| && f[children[k]].parent.None? && f[children[k]].depth < depth)
    && (forall j, k :: 0 <= j < k < |children| ==> children[j] != children[k])
  }

  lemma {:induction false} ResolveOrphans(f: seq<Spec>, ids: seq<Name>, n: nat)
    requires n <= |ids|
    ensures var r := Resolve(f, ids, n); r.Resolved? ==> |r.children| == n && Orphans(f, r.children, r.depth)
  {
    if n > 0 {
      ResolveOrphans(f, ids, n - 1);
    }
  }

  lemma {:induction false} FindCellAbsent(f: seq<Spec>, id: Name)
    ensures FindCell(f, id) == |f| <==> forall i :: 0 <= i < |f| ==> f[i].id != id
    decreases f
  {
    if f != [] {
      FindCellAbsent(f[1..], id);
      assert forall i :: 0 < i < |f| ==> f[i] == f[1..][i - 1];
    }
  }

  predicate Addable(s: Sched, n: NewCell, children: seq<nat>, depth: nat) {
    && WellFormed(n) && Orphans(s.f, children, depth) && depth <= s.limits.depth
    && (forall i :: 0 <= i < |s.f| ==> s.f[i].id != n.id)
    && (if n.leaf then children == [] else |children| == |n.members|)
  }

  /** Cell i after the addition: the old one, perhaps with its new parent, or the new one. */
  lemma AddedCell(s: Sched, n: NewCell, children: seq<nat>, depth: nat, i: nat)
    requires i <= |s.f|
    ensures var g := Added(s, n, children, depth).f;
      && |g| == |s.f| + 1
      && g[i] == (if i == |s.f| then SpecOf(n, children, depth)
                  else if i in children then s.f[i].(parent := Some(|s.f|)) else s.f[i])
  {}

  lemma AddedForest(s: Sched, n: NewCell, children: seq<nat>, depth: nat)
    requires Forest(s.f) && Rings(s.f) && Addable(s, n, children, depth) && |n.members| >= 2
    ensures Forest(Added(s, n, children, depth).f) && Rings(Added(s, n, children, depth).f)
  {
    hide Added;
    var g, at := Added(s, n, children, depth).f, |s.f|;
    AddedCell(s, n, children, depth, at);
    forall i | 0 <= i < |g|
      ensures g[i].parent.Some? ==> i < g[i].parent.value < |g|
      ensures forall k :: 0 <= k < |g[i].children| ==> g[i].children[k] < i
      ensures !g[i].leaf ==> |g[i].children| == |g[i].members| >= 2
      ensures |g[i].members| >= 2 && |g[i].succs| == |g[i].members| && (g[i].leaf ==> g[i].children == [])
    {
      AddedCell(s, n, children, depth, i);
      if i < at {
        assert s.f[i].parent.Some? ==> i < s.f[i].parent.value < at;
      }
    }
  }

  lemma AddedAgree(s: Sched, n: NewCell, children: seq<nat>, depth: nat)
    requires ChildrenAgree(s.f) && Addable(s, n, children, depth)
    ensures ChildrenAgree(Added(s, n, children, depth).f)
  {
    hide Added;
    var f, g, at := s.f, Added(s, n, children, depth).f, |s.f|;
    AddedCell(s, n, children, depth, at);
    forall i, k | 0 <= i < |g| && 0 <= k < |g[i].children| ensures ParentOf(g, i, g[i].children[k]) {
      AddedCell(s, n, children, depth, i);
      var c := g[i].children[k];
      if i < at {
        assert ParentOf(f, i, f[i].children[k]);
      } else {
        assert c == children[k] && c < at;
      }
      AddedCell(s, n, children, depth, c);
    }
  }

  lemma AddedParents(s: Sched, n: NewCell, children: seq<nat>, depth: nat)
    requires Forest(s.f) && ParentsAgree(s.f) && Addable(s, n, children, depth)
    ensures ParentsAgree(Added(s, n, children, depth).f)
  {
    hide Added;
    var f, g, at := s.f, Added(s, n, children, depth).f, |s.f|;
    AddedCell(s, n, children, depth, at);
    forall c | 0 <= c < |g| && g[c].parent.Some?
      ensures g[c].parent.value < |g| && c in g[g[c].parent.value].children
    {
      AddedCell(s, n, children, depth, c);
      if c < at && c !in children {
        assert c in f[f[c].parent.value].children;
        AddedCell(s, n, children, depth, f[c].parent.value);
      }
    }
  }

  lemma AddedNames(s: Sched, n: NewCell, children: seq<nat>, depth: nat)
    requires DistinctIds(s.f) && DistinctChildren(s.f) && RingsWithin(s.f, s.limits) && Addable(s, n, children, depth)
    requires IsRing(n.members, n.succs)
    ensures var g := Added(s, n, children, depth).f;
      DistinctIds(g) && DistinctChildren(g) && RingsWithin(g, s.limits)
  {
    hide Added, IsRing;
    var g, at := Added(s, n, children, depth).f, |s.f|;
    AddedCell(s, n, children, depth, at);
    forall i | 0 <= i < |g|
      ensures IsRing(g[i].members, g[i].succs) && g[i].depth <= s.limits.depth
      ensures forall j, k :: 0 <= j < k < |g[i].children| ==> g[i].children[j] != g[i].children[k]
    {
      AddedCell(s, n, children, depth, i);
    }
    forall i, j | 0 <= i < j < |g| ensures g[i].id != g[j].id {
      AddedCell(s, n, children, depth, i);
      AddedCell(s, n, children, depth, j);
    }
  }

  /** Adding a cell keeps the forest sound. */
  lemma AddedSound(s: Sched, n: NewCell, children: seq<nat>, depth: nat)
    requires Sound(s.f, s.limits) && Addable(s, n, children, depth) && IsRing(n.members, n.succs)
    ensures Sound(Added(s, n, children, depth).f, s.limits)
  {
    hide IsRing, Forest, Rings, ChildrenAgree, ParentsAgree, DistinctIds, DistinctChildren, RingsWithin, Added, Addable;
    RingIsLong(n.members, n.succs);
    AddedForest(s, n, children, depth);
    AddedAgree(s, n, children, depth);
    AddedParents(s, n, children, depth);
    AddedNames(s, n, children, depth);
  }

  lemma RingIsLong(members: seq<nat>, succs: seq<nat>)
    requires IsRing(members, succs)
    ensures |members| >= 2 && |succs| == |members|
  {}

  lemma NoOrphans(f: seq<Spec>)
    ensures Orphans(f, [], 0)
  {}

  /** Adding a cell, whatever it answers, keeps the forest sound and the works in shape. */
  lemma AddCellSound(s: Sched, n: NewCell)
    requires Sound(s.f, s.limits) && Shaped(s.f, s.m) && WellFormed(n)
    ensures var v := AddCell(s, n, IsRing(n.members, n.succs)).s;
      Sound(v.f, s.limits) && Forest(v.f) && Shaped(v.f, v.m)
  {
    hide Sound, IsRing, Added, Orphans;
    SoundForest(s.f, s.limits);
    var v := AddCell(s, n, IsRing(n.members, n.succs)).s;
    if v != s {
      var r := if n.leaf then Resolved([], 0) else Resolve(s.f, n.childIds, |n.childIds|);
      FindCellAbsent(s.f, n.id);
      if n.leaf {
        NoOrphans(s.f);
      } else {
        ResolveOrphans(s.f, n.childIds, |n.childIds|);
      }
      AddedSound(s, n, r.children, r.depth);
      SoundForest(v.f, s.limits);
      AddedShaped(s, n, r.children, r.depth);
    }
  }

  lemma SoundForest(f: seq<Spec>, limits: Limits)
    requires Sound(f, limits)
    ensures Forest(f) && Rings(f)
  {}

  lemma AddedShaped(s: Sched, n: NewCell, children: seq<nat>, depth: nat)
    requires Shaped(s.f, s.m) && |n.succs| == |n.members|
    ensures Shaped(Added(s, n, children, depth).f, Added(s, n, children, depth).m)
  {
    hide Added;
    var v := Added(s, n, children, depth);
    assert v.m.works == s.m.works + [NoWork(if n.leaf then |n.members| else 0)] by {
      AddedWorksAre(s, n, children, depth);
    }
    AddedCell(s, n, children, depth, |s.f|);
    forall i | 0 <= i < |v.f|
      ensures |v.f[i].succs| == |v.f[i].members|
      ensures v.f[i].leaf ==> |v.m.works[i].pending| == |v.f[i].members| && |v.m.works[i].committed| == |v.f[i].members|
    {
      AddedCell(s, n, children, depth, i);
    }
  }

  lemma AddedWorksAre(s: Sched, n: NewCell, children: seq<nat>, depth: nat)
    ensures Added(s, n, children, depth).m.works == s.m.works + [NoWork(if n.leaf then |n.members| else 0)]
  {}
}
