/**
 * The digests a sealed scheduler publishes: one per cell, over its ring walked from the least member,
 * and one over all cells in identifier order. Neither depends on the order in which members were listed
 * or cells were added.
 */
module SchedulerDigest {
  import opened Bytes
  import opened Options
  import opened Ring
  import opened Frame
  import opened Scheduler
  import opened SchedulerOrder
  import opened SchedulerWorld

  /** A length-prefixed string. */
  function Text(s: Name): seq<Byte> {
    BE(|s|, 8) + s
  }

  /** A state brought over from the preceding epoch: the digest of the structure it had there, and its own. */
  datatype Import = Import(structure: Digest, state: Digest)

  /** What a cell's digest is about: its fixed part, its children by name; and what was imported for it. */
  datatype Shape = Shape(
    id: Name, leaf: bool, members: seq<nat>, succs: seq<nat>, names: seq<Name>, depth: nat,
    frameVersion: U64, reducerVersion: U64, topologyVersion: U64, staleAfter: U64, horizon: U64,
    imported: Option<Import>)

  function ShapeOf(f: seq<Spec>, i: nat): (s: Shape)
    requires Forest(f) && i < |f|
    ensures |s.names| == |f[i].children|
  {
    var c := f[i];
    Shape(c.id, c.leaf, c.members, c.succs,
          seq(|c.children|, k requires 0 <= k < |c.children| => f[c.children[k]].id), c.depth,
          c.frameVersion, c.reducerVersion, c.topologyVersion, c.staleAfter, c.horizon, None)
  }

  predicate ShapeValid(s: Shape) {
    && |s.members| >= 2 && |s.succs| == |s.members| && Distinct(s.members)
    && (!s.leaf ==> |s.names| == |s.members|)
  }

  function ShapeHeader(s: Shape): seq<Byte> {
    Ascii("CDC-RFTC-SCHEDULER-CELL-SPEC-V1") + [0] + Text(s.id) + BE(if s.leaf then 1 else 2, 8)
    + BE(|s.members|, 8) + BE(s.depth, 8) + BE(s.frameVersion, 8) + BE(s.reducerVersion, 8)
    + BE(s.topologyVersion, 8) + BE(s.staleAfter, 8) + BE(s.horizon, 8)
  }

  function MemberBytes(s: Shape, k: nat): seq<Byte>
    requires ShapeValid(s) && k < |s.members|
  {
    BE(s.members[k], 8) + BE(s.succs[k], 8) + if s.leaf then [] else Text(s.names[k])
  }

  /** The members in the order p. */
  function MembersBytes(s: Shape, p: seq<nat>): seq<Byte>
    requires ShapeValid(s) && forall k :: 0 <= k < |p| ==> p[k] < |s.members|
  {
    if p == [] then [] else MembersBytes(s, p[..|p| - 1]) + MemberBytes(s, p[|p| - 1])
  }

  /** The position of the least identifier. */
  function LeastMember(ids: seq<nat>): (i: nat)
    requires ids != []
    ensures IsLeast(ids, i)
  {
    if |ids| == 1 then 0
    else
      var front := ids[..|ids| - 1];
      var i := LeastMember(front);
      assert forall k :: 0 <= k < |front| ==> ids[k] == front[k];
      if ids[|ids| - 1] < ids[i] then |ids| - 1 else i
  }

  ghost predicate RingShape(s: Shape) {
    ShapeValid(s) && GoesRound(s.members, s.succs, LeastMember(s.members))
  }

  ghost function StructureBytes(s: Shape): seq<Byte>
    requires RingShape(s)
  {
    ShapeHeader(s) + MembersBytes(s, Tour(s.members, s.succs, LeastMember(s.members)))
  }

  /** Walks the ring from the least member and digests it; it cannot fail on a ring. */
  method StructureDigest(H: Hash, s: Shape) returns (ok: bool, digest: Digest)
    requires ShapeValid(s)
    ensures RingShape(s) ==> ok && digest == H(StructureBytes(s))
  {
    hide Walk, MemberBytes, MembersBytes, ShapeHeader, Distinct;
    var n := |s.members|;
    var current := 0;
    var i := 1;
    while i < n
      invariant 1 <= i <= n && current < i && forall k :: 0 <= k < i ==> s.members[current] <= s.members[k]
    {
      if s.members[i] < s.members[current] {
        current := i;
      }
      i := i + 1;
    }
    LeastIsUnique(s.members, current, LeastMember(s.members));
    ghost var start := current;
    ghost var p := Tour(s.members, s.succs, start);
    WalkStart(s.members, s.succs, start);
    var bytes := ShapeHeader(s);
    NoMembers(s);
    i := 0;
    while i < n
      invariant 0 <= i <= n && current <= n && (RingShape(s) ==> current < n)
      invariant current == Walk(s.members, s.succs, start, i)
      invariant RingShape(s) ==> bytes == ShapeHeader(s) + MembersBytes(s, p[..i])
    {
      if current == n {
        return false, ZeroDigest();
      }
      if RingShape(s) {
        MembersNext(s, p, i);
        RoundNext(s, start, i);
      }
      bytes := bytes + MemberBytes(s, current);
      WalkNext(s.members, s.succs, start, i);
      current := Find(s.members, s.succs[current]);
      i := i + 1;
    }
    if current == n {
      return false, ZeroDigest();
    }
    assert p[..i] == p;
    ok, digest := true, H(bytes);
  }

  lemma NoMembers(s: Shape)
    requires ShapeValid(s)
    ensures MembersBytes(s, []) == []
  {}

  lemma MembersNext(s: Shape, p: seq<nat>, i: nat)
    requires ShapeValid(s) && i < |p| && forall k :: 0 <= k <= i ==> p[k] < |s.members|
    ensures MembersBytes(s, p[..i + 1]) == MembersBytes(s, p[..i]) + MemberBytes(s, p[i])
  {
    assert p[..i + 1][..i] == p[..i];
  }

  lemma RoundNext(s: Shape, start: nat, i: nat)
    requires RingShape(s) && start == LeastMember(s.members) && i < |s.members|
    ensures forall k :: 0 <= k <= i ==> Walk(s.members, s.succs, start, k) < |s.members|
    ensures Walk(s.members, s.succs, start, i + 1) < |s.members|
  {
    var n := |s.members|;
    assert Walk(s.members, s.succs, start, n) == start;
    if i + 1 < n {
      assert Walk(s.members, s.succs, start, i + 1) < n;
    }
  }

  /** In a sound forest every cell's links are a ring, so its digest exists; and cells have distinct names. */
  lemma SoundShapes(f: seq<Spec>, limits: Limits, i: nat)
    requires Sound(f, limits) && i < |f|
    ensures RingShape(ShapeOf(f, i))
    ensures forall j :: i < j < |f| ==> ShapeOf(f, i).id != ShapeOf(f, j).id
  {
    hide GoesRound, ChildrenAgree, DistinctChildren, ParentsAgree;
    var s := ShapeOf(f, i);
    RingIsRound(s.members, s.succs, LeastMember(s.members));
  }

  // ---- the order of members ----

  /** The same cell with its members listed in the order q. */
  predicate Relisted(s: Shape, s': Shape, q: seq<nat>) {
    && Reordered(s.members, s'.members, q) && Reordered(s.succs, s'.succs, q)
    && (!s.leaf ==> |s'.names| == |s.names| == |q| && forall k :: 0 <= k < |q| ==> s'.names[k] == s.names[q[k]])
    && s'.(members := s.members, succs := s.succs, names := s.names) == s
  }

  lemma {:induction false} SameMembersBytes(s: Shape, s': Shape, q: seq<nat>, p: seq<nat>, p': seq<nat>)
    requires ShapeValid(s) && ShapeValid(s') && Relisted(s, s', q) && |p| == |p'|
    requires forall k :: 0 <= k < |p| ==> p[k] < |s.members| && p'[k] < |q| && q[p'[k]] == p[k]
    ensures MembersBytes(s', p') == MembersBytes(s, p)
    decreases p
  {
    if p != [] {
      SameMembersBytes(s, s', q, p[..|p| - 1], p'[..|p| - 1]);
    }
  }

  /** A cell's digest is that of its oriented ring, however its members are listed. */
  lemma StructureIgnoresListing(s: Shape, s': Shape, q: seq<nat>)
    requires RingShape(s) && ShapeValid(s') && Relisted(s, s', q)
    ensures RingShape(s') && StructureBytes(s') == StructureBytes(s)
  {
    hide GoesRound, Tour, MembersBytes;
    var a, a' := LeastMember(s.members), LeastMember(s'.members);
    LeastReordered(s.members, s'.members, q, a');
    LeastIsUnique(s.members, q[a'], a);
    TourReordered(s.members, s.succs, s'.members, s'.succs, q, a, a');
    var p, p' := Tour(s.members, s.succs, a), Tour(s'.members, s'.succs, a');
    TourStays(s.members, s.succs, a);
    SameMembersBytes(s, s', q, p, p');
    SameHeader(s, s');
  }

  lemma LeastReordered(ids: seq<nat>, ids': seq<nat>, q: seq<nat>, i: nat)
    requires Reordered(ids, ids', q) && IsLeast(ids', i)
    ensures IsLeast(ids, q[i])
  {
    forall k | 0 <= k < |ids| ensures ids[q[i]] <= ids[k] {
      var j := Onto(q, |q|, k);
      assert ids'[i] <= ids'[j];
    }
  }

  lemma SameHeader(s: Shape, s': Shape)
    requires s'.(members := s.members, succs := s.succs, names := s.names) == s && |s'.members| == |s.members|
    ensures ShapeHeader(s') == ShapeHeader(s)
  {}

  // ---- the order of cells ----

  /** The positions in strictly ascending identifier order. */
  predicate Ascending(shapes: seq<Shape>, order: seq<nat>) {
    && Permutes(order, |shapes|)
    && forall j, k :: 0 <= j < k < |order| ==> NameBefore(shapes[order[j]].id, shapes[order[k]].id)
  }

  predicate DistinctShapes(shapes: seq<Shape>) {
    forall j, k :: 0 <= j < k < |shapes| ==> shapes[j].id != shapes[k].id
  }

  /** There is only one ascending order. */
  lemma {:induction false} AscendingIsUnique(shapes: seq<Shape>, a: seq<nat>, b: seq<nat>, n: nat)
    requires Ascending(shapes, a) && Ascending(shapes, b) && n <= |shapes|
    ensures a[..n] == b[..n]
    decreases n
  {
    hide NameBefore;
    if n > 0 {
      var k := n - 1;
      AscendingIsUnique(shapes, a, b, k);
      if a[k] != b[k] {
        var j := Onto(b, |b|, a[k]);
        var l := Onto(a, |a|, b[k]);
        EarlierDiffers(a, b, k, j);
        EarlierDiffers(b, a, k, l);
        NamesTransitive(shapes[b[k]].id, shapes[a[k]].id, shapes[b[k]].id);
        NamesIrreflexive(shapes[b[k]].id);
      }
      assert a[..n] == a[..k] + [a[k]] && b[..n] == b[..k] + [b[k]];
    }
  }

  lemma EarlierDiffers(a: seq<nat>, b: seq<nat>, k: nat, j: nat)
    requires Permutes(a, |a|) && |b| == |a| && k < |a| && j < |b| && a[..k] == b[..k] && b[j] == a[k] != b[k]
    ensures j > k
  {
    forall i | 0 <= i < k ensures b[i] == a[i] {
      assert b[..k][i] == a[..k][i];
    }
  }

  /** A scheduler's configuration: its limits, its predecessor's, then each cell's digest and import in order. */
  ghost function ConfigBytes(H: Hash, limits: Limits, predecessor: Option<Digest>, shapes: seq<Shape>,
      order: seq<nat>): seq<Byte>
    requires forall k :: 0 <= k < |shapes| ==> RingShape(shapes[k])
    requires forall k :: 0 <= k < |order| ==> order[k] < |shapes|
  {
    ConfigHeader(limits, predecessor, |shapes|) + ConfigCells(H, shapes, order)
  }

  function ConfigHeader(limits: Limits, predecessor: Option<Digest>, count: nat): seq<Byte> {
    Ascii("CDC-RFTC-SCHEDULER-CONFIG-V2") + [0] + BE(count, 8) + BE(limits.cells, 8) + BE(limits.events, 8)
    + BE(limits.depth, 8) + if predecessor.Some? then BE(1, 8) + predecessor.value else BE(0, 8)
  }

  function ImportBytes(x: Option<Import>): seq<Byte> {
    if x.None? then BE(0, 8) else BE(1, 8) + x.value.structure + x.value.state
  }

  ghost function CellBytes(H: Hash, s: Shape): seq<Byte>
    requires RingShape(s)
  {
    H(StructureBytes(s)) + ImportBytes(s.imported)
  }

  ghost function ConfigCells(H: Hash, shapes: seq<Shape>, order: seq<nat>): seq<Byte>
    requires forall k :: 0 <= k < |shapes| ==> RingShape(shapes[k])
    requires forall k :: 0 <= k < |order| ==> order[k] < |shapes|
  {
    if order == [] then []
    else ConfigCells(H, shapes, order[..|order| - 1]) + CellBytes(H, shapes[order[|order| - 1]])
  }

  lemma {:induction false} SameConfigCells(H: Hash, shapes: seq<Shape>, shapes': seq<Shape>, q: seq<nat>,
      p: seq<nat>, p': seq<nat>)
    requires forall k :: 0 <= k < |shapes| ==> RingShape(shapes[k])
    requires |shapes'| == |shapes| == |q|
    requires (forall k :: 0 <= k < |q| ==> q[k] < |shapes| && shapes'[k] == shapes[q[k]])
    requires |p| == |p'| && forall k :: 0 <= k < |p| ==> p[k] < |shapes| && p'[k] < |q| && q[p'[k]] == p[k]
    ensures forall k :: 0 <= k < |shapes'| ==> RingShape(shapes'[k])
    ensures ConfigCells(H, shapes', p') == ConfigCells(H, shapes, p)
    decreases p
  {
    hide RingShape, CellBytes;
    forall k | 0 <= k < |shapes'| ensures RingShape(shapes'[k]) {
      assert shapes'[k] == shapes[q[k]];
    }
    if p != [] {
      SameConfigCells(H, shapes, shapes', q, p[..|p| - 1], p'[..|p| - 1]);
    }
  }

  /** The order in which cells were added does not show in the configuration digest. */
  lemma ConfigIgnoresAdditionOrder(H: Hash, limits: Limits, predecessor: Option<Digest>, shapes: seq<Shape>,
      shapes': seq<Shape>, q: seq<nat>, order: seq<nat>, order': seq<nat>)
    requires forall k :: 0 <= k < |shapes| ==> RingShape(shapes[k])
    requires |shapes'| == |shapes| && Permutes(q, |shapes|) && forall k :: 0 <= k < |q| ==> shapes'[k] == shapes[q[k]]
    requires Ascending(shapes, order) && Ascending(shapes', order')
    ensures forall k :: 0 <= k < |shapes'| ==> RingShape(shapes'[k])
    ensures ConfigBytes(H, limits, predecessor, shapes', order') == ConfigBytes(H, limits, predecessor, shapes, order)
  {
    hide RingShape, ConfigCells, NameBefore;
    var n := |shapes|;
    var mapped := seq(n, k requires 0 <= k < n => q[order'[k]]);
    MappedAscends(shapes, shapes', q, order', mapped);
    AscendingIsUnique(shapes, mapped, order, n);
    assert mapped[..n] == mapped && order[..n] == order;
    SameConfigCells(H, shapes, shapes', q, order, order');
  }

  lemma MappedAscends(shapes: seq<Shape>, shapes': seq<Shape>, q: seq<nat>, order': seq<nat>, mapped: seq<nat>)
    requires |shapes'| == |shapes| && Permutes(q, |shapes|) && forall k :: 0 <= k < |q| ==> shapes'[k] == shapes[q[k]]
    requires Ascending(shapes', order') && |mapped| == |shapes|
    requires forall k :: 0 <= k < |mapped| ==> mapped[k] == q[order'[k]]
    ensures Ascending(shapes, mapped)
  {
    hide NameBefore;
    forall j, k | 0 <= j < k < |mapped|
      ensures mapped[j] != mapped[k] && NameBefore(shapes[mapped[j]].id, shapes[mapped[k]].id)
    {
      assert order'[j] != order'[k];
      assert NameBefore(shapes'[order'[j]].id, shapes'[order'[k]].id);
    }
  }

  // ---- the program ----

  /** Insertion sort of the cell positions by identifier. */
  method SortCells(shapes: seq<Shape>) returns (order: array<nat>)
    requires DistinctShapes(shapes)
    ensures Ascending(shapes, order[..])
  {
    hide NameBefore;
    var n := |shapes|;
    order := new nat[n](_ => 0);
    var i := 0;
    while i < n
      invariant 0 <= i <= n && Permutes(order[..i], i) && SortedUpTo(shapes, order[..i])
    {
      order[i] := i;
      PermutesSnoc(order[..i], i);
      assert order[..i + 1] == order[..i] + [i];
      Sink(shapes, order, i);
      i := i + 1;
    }
    assert order[..i] == order[..];
  }

  predicate SortedUpTo(shapes: seq<Shape>, order: seq<nat>) {
    && (forall k :: 0 <= k < |order| ==> order[k] < |shapes|)
    && (forall j, k :: 0 <= j < k < |order| ==> NameBefore(shapes[order[j]].id, shapes[order[k]].id))
  }

  lemma PermutesSnoc(p: seq<nat>, n: nat)
    requires Permutes(p, n)
    ensures Permutes(p + [n], n + 1)
  {}

  lemma PermutesBelow(p: seq<nat>, n: nat, k: nat)
    requires Permutes(p, n) && k < n
    ensures p[k] < n
  {}

  lemma PermutesSwap(p: seq<nat>, n: nat, a: nat, b: nat)
    requires Permutes(p, n) && a < n && b < n
    ensures Permutes(p[a := p[b]][b := p[a]], n)
  {}

  /** Sorted but for the element at `at`, which is before everything behind it. */
  predicate Sinking(shapes: seq<Shape>, order: seq<nat>, at: nat) {
    && (forall k :: 0 <= k < |order| ==> order[k] < |shapes|)
    && (forall j, k :: 0 <= j < k < |order| && j != at && k != at ==>
          NameBefore(shapes[order[j]].id, shapes[order[k]].id))
    && (forall k :: at < k < |order| ==> at < |order| && NameBefore(shapes[order[at]].id, shapes[order[k]].id))
  }

  /** The new position sinks to its place. */
  method Sink(shapes: seq<Shape>, order: array<nat>, i: nat)
    requires DistinctShapes(shapes) && i < order.Length == |shapes|
    requires Permutes(order[..i + 1], i + 1) && SortedUpTo(shapes, order[..i])
    modifies order
    ensures Permutes(order[..i + 1], i + 1) && SortedUpTo(shapes, order[..i + 1])
  {
    hide NameBefore, Permutes;
    var at := i;
    PermutesBelow(order[..i + 1], i + 1, i);
    StartsSinking(shapes, order[..i + 1]);
    assert order[..i + 1][..i] == order[..i];
    while at > 0 && NameBefore(shapes[order[at]].id, shapes[order[at - 1]].id)
      invariant 0 <= at <= i && Permutes(order[..i + 1], i + 1) && Sinking(shapes, order[..i + 1], at)
    {
      ghost var before := order[..i + 1];
      SinkStep(shapes, before, at);
      PermutesSwap(before, i + 1, at - 1, at);
      order[at - 1], order[at] := order[at], order[at - 1];
      assert order[..i + 1] == before[at - 1 := before[at]][at := before[at - 1]];
      at := at - 1;
    }
    Sunk(shapes, order[..i + 1], at);
  }

  lemma StartsSinking(shapes: seq<Shape>, order: seq<nat>)
    requires order != [] && SortedUpTo(shapes, order[..|order| - 1]) && order[|order| - 1] < |shapes|
    ensures Sinking(shapes, order, |order| - 1)
  {
    hide NameBefore;
    var front := order[..|order| - 1];
    assert forall k :: 0 <= k < |front| ==> order[k] == front[k];
  }

  lemma SinkStep(shapes: seq<Shape>, order: seq<nat>, at: nat)
    requires 0 < at < |order| && Sinking(shapes, order, at)
    requires NameBefore(shapes[order[at]].id, shapes[order[at - 1]].id)
    ensures Sinking(shapes, order[at - 1 := order[at]][at := order[at - 1]], at - 1)
  {
    hide NameBefore;
  }

  /** Where the element stops sinking the whole prefix is sorted: it differs from, so follows, the one before it. */
  lemma Sunk(shapes: seq<Shape>, order: seq<nat>, at: nat)
    requires DistinctShapes(shapes) && at < |order| && Sinking(shapes, order, at) && Permutes(order, |order|)
    requires |order| <= |shapes|
    requires at > 0 ==> !NameBefore(shapes[order[at]].id, shapes[order[at - 1]].id)
    ensures SortedUpTo(shapes, order)
  {
    hide NameBefore;
    if at > 0 {
      var x, y := shapes[order[at - 1]].id, shapes[order[at]].id;
      assert order[at - 1] != order[at];
      NamesTotal(x, y);
      forall j | 0 <= j < at ensures NameBefore(shapes[order[j]].id, y) {
        if j < at - 1 {
          NamesTransitive(shapes[order[j]].id, x, y);
        }
      }
    }
  }

  /** The configuration digest: every cell's digest, in identifier order. */
  method ConfigDigest(H: Hash, limits: Limits, predecessor: Option<Digest>, shapes: seq<Shape>)
    returns (ok: bool, digest: Digest, ghost order: seq<nat>)
    requires DistinctShapes(shapes) && forall k :: 0 <= k < |shapes| ==> RingShape(shapes[k])
    ensures ok && Ascending(shapes, order) && digest == H(ConfigBytes(H, limits, predecessor, shapes, order))
  {
    hide RingShape, StructureBytes, NameBefore, ConfigCells, BE;
    var sorted := SortCells(shapes);
    order := sorted[..];
    var bytes := Ascii("CDC-RFTC-SCHEDULER-CONFIG-V2") + [0] + BE(|shapes|, 8) + BE(limits.cells, 8)
      + BE(limits.events, 8) + BE(limits.depth, 8) + BE(if predecessor.Some? then 1 else 0, 8);
    if predecessor.Some? {
      bytes := bytes + predecessor.value;
    }
    NoCells(H, shapes);
    var i := 0;
    while i < |shapes|
      invariant 0 <= i <= |shapes| == sorted.Length && sorted[..] == order
      invariant bytes == ConfigHeader(limits, predecessor, |shapes|) + ConfigCells(H, shapes, order[..i])
    {
      var cell := shapes[sorted[i]];
      ValidOfRing(cell);
      var found, d := StructureDigest(H, cell);
      NextCellBytes(H, shapes, order, i);
      ghost var before := bytes;
      bytes := bytes + d + BE(if cell.imported.Some? then 1 else 0, 8);
      if cell.imported.Some? {
        bytes := bytes + cell.imported.value.structure + cell.imported.value.state;
      }
      assert bytes == before + CellBytes(H, cell);
      i := i + 1;
    }
    assert order[..i] == order;
    ok, digest := true, H(bytes);
  }

  lemma ValidOfRing(s: Shape)
    requires RingShape(s)
    ensures ShapeValid(s)
  {}

  lemma NoCells(H: Hash, shapes: seq<Shape>)
    requires forall k :: 0 <= k < |shapes| ==> RingShape(shapes[k])
    ensures ConfigCells(H, shapes, []) == []
  {}

  lemma NextCellBytes(H: Hash, shapes: seq<Shape>, order: seq<nat>, i: nat)
    requires (forall k :: 0 <= k < |shapes| ==> RingShape(shapes[k])) && i < |order|
    requires forall k :: 0 <= k < |order| ==> order[k] < |shapes|
    ensures ConfigCells(H, shapes, order[..i + 1])
         == ConfigCells(H, shapes, order[..i]) + CellBytes(H, shapes[order[i]])
  {
    hide CellBytes, RingShape, BE;
    var p := order[..i + 1];
    assert p != [] && p[|p| - 1] == order[i] && p[..|p| - 1] == order[..i];
  }
}
