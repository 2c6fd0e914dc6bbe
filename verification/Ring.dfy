/**
 * Oriented rings given by successor links in arbitrary order: when the links form one cycle, and the
 * walk that lists that cycle from its least member.
 */
module Ring {

  /** Every index below n exactly once. */
  predicate Permutes(p: seq<nat>, n: nat) {
    && |p| == n
    && (forall k :: 0 <= k < n ==> p[k] < n)
    && (forall j, k :: 0 <= j < k < n ==> p[j] != p[k])
  }

  predicate Distinct(ids: seq<nat>) {
    forall j, k :: 0 <= j < k < |ids| ==> ids[j] != ids[k]
  }

  predicate Nonzero(ids: seq<nat>) {
    forall k :: 0 <= k < |ids| ==> ids[k] != 0
  }

  /** The index after k on a circle of n. */
  function After(k: nat, n: nat): nat
    requires k < n
  {
    if k + 1 == n then 0 else k + 1
  }

  /** p lists the members so that each one's successor is the next, the last one's the first. */
  predicate Cycle(members: seq<nat>, succs: seq<nat>, p: seq<nat>) {
    && |succs| == |members| && Permutes(p, |members|)
    && (forall k :: 0 <= k < |p| ==> succs[p[k]] == members[p[After(k, |p|)]])
  }

  /** The links are a ring: at least two different members, no zero identifier, one single cycle. */
  ghost predicate IsRing(members: seq<nat>, succs: seq<nat>) {
    && |members| >= 2 && |succs| == |members|
    && Nonzero(members) && Nonzero(succs) && Distinct(members)
    && (exists p :: Cycle(members, succs, p))
  }

  /** The first index holding the identifier, or the length. */
  function Find(ids: seq<nat>, id: nat): (k: nat)
    ensures k <= |ids|
    ensures k < |ids| ==> ids[k] == id
    ensures k == |ids| ==> id !in ids
  {
    if ids == [] then 0 else if ids[0] == id then 0 else 1 + Find(ids[1..], id)
  }

  lemma FindDistinct(ids: seq<nat>, k: nat)
    requires Distinct(ids) && k < |ids|
    ensures Find(ids, ids[k]) == k
  {
    var j := Find(ids, ids[k]);
    assert ids[k] in ids;
  }

  /** Where the walk along successors stands after k steps; |members| once a successor is missing. */
  function Walk(members: seq<nat>, succs: seq<nat>, start: nat, k: nat): (i: nat)
    requires |succs| == |members| && start <= |members|
    ensures i <= |members|
  {
    if k == 0 then start
    else
      var i := Walk(members, succs, start, k - 1);
      if i == |members| then i else Find(members, succs[i])
  }

  // ---- pigeonhole ----

  function Below(n: nat): (s: set<nat>)
    ensures |s| == n
    ensures forall k :: k in s <==> 0 <= k < n
  {
    if n == 0 then {} else Below(n - 1) + {n - 1}
  }

  function Values(p: seq<nat>): set<nat> {
    set k | 0 <= k < |p| :: p[k]
  }

  lemma LastValue(p: seq<nat>)
    requires p != []
    ensures Values(p) == Values(p[..|p| - 1]) + {p[|p| - 1]}
  {
    var q := p[..|p| - 1];
    forall x | x in Values(p) ensures x in Values(q) + {p[|p| - 1]} {
      var k :| 0 <= k < |p| && p[k] == x;
      assert k < |q| ==> q[k] == x;
    }
    forall x | x in Values(q) ensures x in Values(p) {
      var k :| 0 <= k < |q| && q[k] == x;
      assert p[k] == x;
    }
  }

  lemma {:induction false} DistinctCount(p: seq<nat>)
    requires Distinct(p)
    ensures |Values(p)| == |p|
    decreases p
  {
    if p != [] {
      var q, last := p[..|p| - 1], p[|p| - 1];
      DistinctCount(q);
      assert last !in Values(q);
      LastValue(p);
    }
  }

  lemma SameSize(a: set<nat>, b: set<nat>)
    requires a <= b && |a| == |b|
    ensures a == b
  {
    assert |b - a| == |b| - |a|;
  }

  /** A permutation reaches every index. */
  lemma Onto(p: seq<nat>, n: nat, i: nat) returns (k: nat)
    requires Permutes(p, n) && i < n
    ensures k < n && p[k] == i
  {
    DistinctCount(p);
    assert Values(p) <= Below(n);
    SameSize(Values(p), Below(n));
    assert i in Values(p);
    k :| 0 <= k < |p| && p[k] == i;
  }

  // ---- the walk and the cycle ----

  /** On a cycle the walk goes round it. */
  function Along(a: nat, k: nat, n: nat): nat
    requires a < n && k <= n
  {
    if a + k < n then a + k else a + k - n
  }

  lemma {:induction false} WalkFollowsCycle(members: seq<nat>, succs: seq<nat>, p: seq<nat>, a: nat, k: nat)
    requires Cycle(members, succs, p) && Distinct(members) && a < |p| && k <= |p|
    ensures Walk(members, succs, p[a], k) == p[Along(a, k, |p|)]
    decreases k
  {
    if k > 0 {
      WalkFollowsCycle(members, succs, p, a, k - 1);
      var j := Along(a, k - 1, |p|);
      assert After(j, |p|) == Along(a, k, |p|);
      FindDistinct(members, p[Along(a, k, |p|)]);
    }
  }

  /** Of a ring, the walk from any member stands on different members for n steps and is back after n. */
  predicate GoesRound(members: seq<nat>, succs: seq<nat>, start: nat)
    requires |succs| == |members| && start < |members|
  {
    var n := |members|;
    && (forall k :: 0 <= k < n ==> Walk(members, succs, start, k) < n)
    && (forall j, k :: 0 <= j < k < n ==> Walk(members, succs, start, j) != Walk(members, succs, start, k))
    && Walk(members, succs, start, n) == start
  }

  lemma RingGoesRound(members: seq<nat>, succs: seq<nat>, p: seq<nat>, start: nat)
    requires Cycle(members, succs, p) && Distinct(members) && start < |members|
    ensures GoesRound(members, succs, start)
  {
    var n := |members|;
    var a := Onto(p, n, start);
    forall k | 0 <= k <= n ensures Walk(members, succs, start, k) == p[Along(a, k, n)] {
      WalkFollowsCycle(members, succs, p, a, k);
    }
  }

  /** The first n stations of the walk. */
  function Tour(members: seq<nat>, succs: seq<nat>, start: nat): (p: seq<nat>)
    requires |succs| == |members| && start < |members|
    ensures |p| == |members|
    ensures forall k :: 0 <= k < |p| ==> p[k] == Walk(members, succs, start, k)
  {
    seq(|members|, k requires k >= 0 => Walk(members, succs, start, k))
  }

  lemma RoundIsCycle(members: seq<nat>, succs: seq<nat>, start: nat)
    requires |succs| == |members| && start < |members| && GoesRound(members, succs, start)
    ensures Cycle(members, succs, Tour(members, succs, start))
  {
    var p := Tour(members, succs, start);
    forall k | 0 <= k < |p| ensures succs[p[k]] == members[p[After(k, |p|)]] {
      assert Walk(members, succs, start, k + 1) == Find(members, succs[p[k]]);
    }
  }

  /** The links form one cycle exactly when the walk from some, or any, member goes round. */
  lemma RingIsRound(members: seq<nat>, succs: seq<nat>, start: nat)
    requires |members| >= 2 && |succs| == |members| && start < |members|
    requires Nonzero(members) && Nonzero(succs) && Distinct(members)
    ensures IsRing(members, succs) <==> GoesRound(members, succs, start)
  {
    if IsRing(members, succs) {
      var p :| Cycle(members, succs, p);
      RingGoesRound(members, succs, p, start);
    }
    if GoesRound(members, succs, start) {
      RoundIsCycle(members, succs, start);
    }
  }

  /** Two listings of one ring that begin with the same member are the same. */
  lemma CycleIsTour(members: seq<nat>, succs: seq<nat>, p: seq<nat>)
    requires |members| >= 1 && Cycle(members, succs, p) && Distinct(members)
    ensures p == Tour(members, succs, p[0])
  {
    forall k | 0 <= k < |p| ensures p[k] == Tour(members, succs, p[0])[k] {
      WalkFollowsCycle(members, succs, p, 0, k);
    }
  }

  // ---- the anchor ----

  /** The index of the least identifier. */
  predicate IsLeast(ids: seq<nat>, i: nat) {
    i < |ids| && forall k :: 0 <= k < |ids| ==> ids[i] <= ids[k]
  }

  lemma LeastIsUnique(ids: seq<nat>, i: nat, j: nat)
    requires Distinct(ids) && IsLeast(ids, i) && IsLeast(ids, j)
    ensures i == j
  {
    assert ids[i] == ids[j];
  }

  // ---- the order of the links does not matter ----

  /** The same links, listed in the order q. */
  predicate Reordered(a: seq<nat>, b: seq<nat>, q: seq<nat>) {
    |a| == |b| && Permutes(q, |a|) && forall k :: 0 <= k < |a| ==> b[k] == a[q[k]]
  }

  lemma {:induction false} WalkReordered(members: seq<nat>, succs: seq<nat>, members': seq<nat>, succs': seq<nat>,
      q: seq<nat>, start: nat, k: nat)
    requires |succs| == |members| && Reordered(members, members', q) && Reordered(succs, succs', q)
    requires Distinct(members) && start < |members|
    ensures var i := Walk(members', succs', start, k);
      Walk(members, succs, q[start], k) == if i < |q| then q[i] else |q|
    decreases k
  {
    if k > 0 {
      WalkReordered(members, succs, members', succs', q, start, k - 1);
      var i := Walk(members', succs', start, k - 1);
      if i < |q| {
        FindReordered(members, members', q, succs'[i]);
      }
    }
  }

  lemma FindReordered(ids: seq<nat>, ids': seq<nat>, q: seq<nat>, id: nat)
    requires Reordered(ids, ids', q) && Distinct(ids)
    ensures var i := Find(ids', id); Find(ids, id) == if i < |q| then q[i] else |q|
  {
    var i := Find(ids', id);
    if i < |q| {
      FindDistinct(ids, q[i]);
    } else {
      forall j | 0 <= j < |ids| ensures ids[j] != id {
        var k := Onto(q, |q|, j);
        assert ids'[k] != id;
      }
    }
  }

  /** The tours from the least member visit the same links, whatever their order. */
  lemma TourReordered(members: seq<nat>, succs: seq<nat>, members': seq<nat>, succs': seq<nat>, q: seq<nat>,
      start: nat, start': nat)
    requires |succs| == |members| && Reordered(members, members', q) && Reordered(succs, succs', q) && Distinct(members)
    requires start < |members| && start' < |members| && q[start'] == start && GoesRound(members, succs, start)
    ensures |succs'| == |members'| && GoesRound(members', succs', start')
    ensures forall k :: 0 <= k < |members| ==>
      Tour(members', succs', start')[k] < |q| && q[Tour(members', succs', start')[k]] == Tour(members, succs, start)[k]
  {
    forall k | 0 <= k <= |members|
      ensures Walk(members', succs', start', k) < |q|
      ensures q[Walk(members', succs', start', k)] == Walk(members, succs, start, k)
    {
      WalkReordered(members, succs, members', succs', q, start', k);
    }
  }

  // ---- the check ----

  /** No two members share a successor. */
  lemma SuccessorsDiffer(members: seq<nat>, succs: seq<nat>, p: seq<nat>, i: nat, j: nat)
    requires Cycle(members, succs, p) && Distinct(members) && i < |members| && j < |members| && i != j
    ensures succs[i] != succs[j]
  {
    var a := Onto(p, |p|, i);
    var b := Onto(p, |p|, j);
    var a', b' := After(a, |p|), After(b, |p|);
    assert members[p[a']] != members[p[b']];
  }

  lemma SuccessorIsMember(members: seq<nat>, succs: seq<nat>, p: seq<nat>, i: nat)
    requires Cycle(members, succs, p) && i < |members|
    ensures succs[i] in members
  {
    var a := Onto(p, |p|, i);
  }

  /** When successors differ, the walk cannot merge: it repeats a member only by returning to its start. */
  lemma {:induction false} NoMerge(members: seq<nat>, succs: seq<nat>, start: nat, j: nat, k: nat)
    requires |succs| == |members| && start < |members| && Distinct(succs)
    requires forall i :: 0 <= i <= k ==> Walk(members, succs, start, i) < |members|
    requires j < k && Walk(members, succs, start, j) == Walk(members, succs, start, k)
    ensures Walk(members, succs, start, k - j) == start
    decreases j
  {
    if j > 0 {
      var a, b := Walk(members, succs, start, j - 1), Walk(members, succs, start, k - 1);
      assert members[Find(members, succs[a])] == succs[a] && members[Find(members, succs[b])] == succs[b];
      NoMerge(members, succs, start, j - 1, k - 1);
    }
  }

  /** One link against all others; a failure refutes the ring. */
  method LinkValid(members: seq<nat>, succs: seq<nat>, i: nat) returns (ok: bool)
    requires |succs| == |members| && i < |members|
    ensures ok ==> (forall k :: i < k < |members| ==> members[i] != members[k])
    ensures ok ==> (forall k :: 0 <= k < |members| && k != i ==> succs[i] != succs[k])
    ensures ok ==> succs[i] in members
    ensures !ok ==> !IsRing(members, succs)
  {
    var n := |members|;
    var j := i + 1;
    while j < n
      invariant i < j <= n
      invariant forall k :: i < k < j ==> members[i] != members[k]
    {
      if members[i] == members[j] {
        return false;
      }
      j := j + 1;
    }
    var matches := 0;
    j := 0;
    while j < n
      invariant 0 <= j <= n && 0 <= matches
      invariant matches == 0 ==> forall k :: 0 <= k < j ==> members[k] != succs[i]
      invariant matches >= 1 ==> exists k :: 0 <= k < j && members[k] == succs[i]
      invariant matches >= 2 ==> !Distinct(members)
      invariant forall k :: 0 <= k < j && k != i ==> succs[i] != succs[k]
    {
      if members[j] == succs[i] {
        matches := matches + 1;
      }
      if i != j && succs[i] == succs[j] {
        SharedSuccessor(members, succs, i, j);
        return false;
      }
      j := j + 1;
    }
    if matches != 1 {
      if matches == 0 {
        NoSuccessor(members, succs, i);
      }
      return false;
    }
    ok := true;
  }

  lemma SharedSuccessor(members: seq<nat>, succs: seq<nat>, i: nat, j: nat)
    requires |succs| == |members| && i < |members| && j < |members| && i != j && succs[i] == succs[j]
    ensures !IsRing(members, succs)
  {
    if IsRing(members, succs) {
      var p :| Cycle(members, succs, p);
      SuccessorsDiffer(members, succs, p, i, j);
    }
  }

  lemma NoSuccessor(members: seq<nat>, succs: seq<nat>, i: nat)
    requires |succs| == |members| && i < |members| && succs[i] !in members
    ensures !IsRing(members, succs)
  {
    if IsRing(members, succs) {
      var p :| Cycle(members, succs, p);
      SuccessorIsMember(members, succs, p, i);
    }
  }

  /** The first i identifiers differ from all others. */
  predicate Apart(ids: seq<nat>, i: nat) {
    forall j, k :: 0 <= j < i && j < k < |ids| ==> ids[j] != ids[k]
  }

  lemma ApartNext(ids: seq<nat>, i: nat)
    requires Apart(ids, i) && i < |ids| && forall k :: i < k < |ids| ==> ids[i] != ids[k]
    ensures Apart(ids, i + 1)
  {}

  lemma ApartIsDistinct(ids: seq<nat>)
    ensures Apart(ids, |ids|) <==> Distinct(ids)
    ensures Apart(ids, 0)
  {}

  /** Every link against all others, and the least member. */
  method LinksValid(members: seq<nat>, succs: seq<nat>) returns (ok: bool, anchor: nat)
    requires |succs| == |members| >= 2
    ensures anchor < |members|
    ensures ok ==> Nonzero(members) && Nonzero(succs) && Distinct(members) && Distinct(succs)
    ensures ok ==> IsLeast(members, anchor)
    ensures !ok ==> !IsRing(members, succs)
  {
    hide Cycle, Apart, Distinct;
    var n := |members|;
    anchor := 0;
    ApartIsDistinct(members);
    ApartIsDistinct(succs);
    var i := 0;
    while i < n
      invariant 0 <= i <= n && anchor < n
      invariant forall k :: 0 <= k < i ==> members[k] != 0 && succs[k] != 0 && members[anchor] <= members[k]
      invariant Apart(members, i) && Apart(succs, i)
    {
      if members[i] == 0 || succs[i] == 0 {
        return false, anchor;
      }
      if members[i] < members[anchor] {
        anchor := i;
      }
      ok := LinkValid(members, succs, i);
      if !ok {
        return;
      }
      ApartNext(members, i);
      ApartNext(succs, i);
      i := i + 1;
    }
    ApartIsDistinct(members);
    ApartIsDistinct(succs);
    ok := true;
  }

  /**
   * Whether the links are a ring: every identifier checked against every other, then one walk from the least
   * member.
   */
  method RingValid(members: seq<nat>, succs: seq<nat>) returns (valid: bool)
    requires |succs| == |members|
    ensures valid <==> IsRing(members, succs)
  {
    hide IsRing, Nonzero, GoesRound, Distinct;
    var n := |members|;
    if n < 2 {
      TooShort(members, succs);
      return false;
    }
    var ok, anchor := LinksValid(members, succs);
    if !ok {
      return false;
    }
    RingIsRound(members, succs, anchor);
    var current := anchor;
    var i := 0;
    while i < n
      invariant 0 <= i <= n && current < n
      invariant current == Walk(members, succs, anchor, i)
      invariant forall k :: 0 <= k <= i ==> Walk(members, succs, anchor, k) < n
      invariant forall k :: 0 < k < i ==> Walk(members, succs, anchor, k) != anchor
    {
      if i > 0 && current == anchor {
        EarlyReturn(members, succs, anchor, i);
        return false;
      }
      var next := Find(members, succs[current]);
      if next == n {
        Stuck(members, succs, anchor, i + 1);
        return false;
      }
      i := i + 1;
      current := next;
    }
    if current == anchor {
      NeverMerges(members, succs, anchor);
      return true;
    }
    NotBack(members, succs, anchor);
    return false;
  }

  lemma TooShort(members: seq<nat>, succs: seq<nat>)
    ensures |members| < 2 ==> !IsRing(members, succs)
  {}

  lemma EarlyReturn(members: seq<nat>, succs: seq<nat>, start: nat, i: nat)
    requires |succs| == |members| && start < |members| && 0 < i < |members| && Walk(members, succs, start, i) == start
    ensures !GoesRound(members, succs, start)
  {
    assert Walk(members, succs, start, 0) == start;
  }

  lemma Stuck(members: seq<nat>, succs: seq<nat>, start: nat, k: nat)
    requires |succs| == |members| && start < |members| && k <= |members| && Walk(members, succs, start, k) == |members|
    ensures !GoesRound(members, succs, start)
  {}

  lemma NotBack(members: seq<nat>, succs: seq<nat>, start: nat)
    requires |succs| == |members| && start < |members| && Walk(members, succs, start, |members|) != start
    ensures !GoesRound(members, succs, start)
  {}

  lemma NeverMerges(members: seq<nat>, succs: seq<nat>, start: nat)
    requires |succs| == |members| && start < |members| && Distinct(succs)
    requires forall k :: 0 <= k <= |members| ==> Walk(members, succs, start, k) < |members|
    requires forall k :: 0 < k < |members| ==> Walk(members, succs, start, k) != start
    requires Walk(members, succs, start, |members|) == start
    ensures GoesRound(members, succs, start)
  {
    forall j, k | 0 <= j < k < |members| ensures Walk(members, succs, start, j) != Walk(members, succs, start, k) {
      if Walk(members, succs, start, j) == Walk(members, succs, start, k) {
        NoMerge(members, succs, start, j, k);
      }
    }
  }
}
