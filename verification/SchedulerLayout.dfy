/**
 * The string a cell's structure digest is taken of determines the structure: its numbers, and its ring link by
 * link.
 */
module SchedulerLayout {
  import opened Bytes
  import opened Options
  import opened Ring
  import opened Frame
  import opened SchedulerDigest
  import opened Layouts

  function ShapeNumbers(s: Shape): seq<Byte> {
    BE(if s.leaf then 1 else 2, 8) + BE(|s.members|, 8) + BE(s.depth, 8) + BE(s.frameVersion, 8)
    + BE(s.reducerVersion, 8) + BE(s.topologyVersion, 8) + BE(s.staleAfter, 8) + BE(s.horizon, 8)
  }

  lemma ShapeNumbersAt(s: Shape)
    ensures var b := ShapeNumbers(s);
      && |b| == 64
      && b[0..8] == BE(if s.leaf then 1 else 2, 8) && b[8..16] == BE(|s.members|, 8) && b[16..24] == BE(s.depth, 8)
      && b[24..32] == BE(s.frameVersion, 8) && b[32..40] == BE(s.reducerVersion, 8)
      && b[40..48] == BE(s.topologyVersion, 8) && b[48..56] == BE(s.staleAfter, 8) && b[56..64] == BE(s.horizon, 8)
  {
    hide BE;
  }

  /** Where everything is in the header: domain, name, eight numbers. */
  lemma ShapeLayout(s: Shape)
    ensures var b, n := ShapeHeader(s), 40 + |s.id|;
      && |b| == n + 64
      && b[..32] == Ascii("CDC-RFTC-SCHEDULER-CELL-SPEC-V1") + [0] && b[32..40] == BE(|s.id|, 8) && b[40..n] == s.id
      && b[n..n + 64] == ShapeNumbers(s)
  {
    hide BE, Ascii;
    var front := Ascii("CDC-RFTC-SCHEDULER-CELL-SPEC-V1") + [0] + Text(s.id);
    assert ShapeHeader(s) == front + ShapeNumbers(s);
  }

  /** Its numbers are within the program's integers. */
  predicate Bounded(s: Shape) {
    && |s.id| < TWO_64 && |s.members| < TWO_64 && s.depth < TWO_64
    && (forall k :: 0 <= k < |s.members| ==> s.members[k] < TWO_64)
    && (forall k :: 0 <= k < |s.succs| ==> s.succs[k] < TWO_64)
    && (forall k :: 0 <= k < |s.names| ==> |s.names[k]| < TWO_64)
  }

  /** Equal in everything but the listing of the members, and in what was imported. */
  predicate SameNumbers(a: Shape, b: Shape) {
    && a.id == b.id && a.leaf == b.leaf && |a.members| == |b.members| && a.depth == b.depth
    && a.frameVersion == b.frameVersion && a.reducerVersion == b.reducerVersion
    && a.topologyVersion == b.topologyVersion && a.staleAfter == b.staleAfter && a.horizon == b.horizon
  }

  lemma HeaderDetermined(a: Shape, b: Shape, x: seq<Byte>, y: seq<Byte>)
    requires Bounded(a) && Bounded(b) && ShapeHeader(a) + x == ShapeHeader(b) + y
    ensures SameNumbers(a, b) && x == y
  {
    hide BE, Ascii, ShapeHeader, ShapeNumbers;
    ShapeLayout(a);
    ShapeLayout(b);
    var u, v := ShapeHeader(a) + x, ShapeHeader(b) + y;
    assert u[32..40] == BE(|a.id|, 8) && v[32..40] == BE(|b.id|, 8);
    SameNumber(|a.id|, |b.id|);
    SplitAt(ShapeHeader(a), x, ShapeHeader(b), y);
    ShapeNumbersAt(a);
    ShapeNumbersAt(b);
    SameNumber(if a.leaf then 1 else 2, if b.leaf then 1 else 2);
    SameNumber(|a.members|, |b.members|);
    SameNumber(a.depth, b.depth);
    SameNumber(a.frameVersion, b.frameVersion);
    SameNumber(a.reducerVersion, b.reducerVersion);
    SameNumber(a.topologyVersion, b.topologyVersion);
    SameNumber(a.staleAfter, b.staleAfter);
    SameNumber(a.horizon, b.horizon);
  }

  // ---- the ring ----

  lemma {:induction false} MembersFromFirst(s: Shape, p: seq<nat>)
    requires ShapeValid(s) && p != [] && forall k :: 0 <= k < |p| ==> p[k] < |s.members|
    ensures MembersBytes(s, p) == MemberBytes(s, p[0]) + MembersBytes(s, p[1..])
    decreases |p|
  {
    hide MemberBytes, ShapeValid;
    var n := |p| - 1;
    if n == 0 {
      assert p[..0] == [] && p[1..] == [];
    } else {
      MembersFromFirst(s, p[..n]);
      assert p[..n][1..] == p[1..][..n - 1];
    }
  }

  /** The k-th member of both rings is the same: itself, its successor and, of a composite, its child's name. */
  predicate SameLink(a: Shape, b: Shape, i: nat, j: nat)
    requires ShapeValid(a) && ShapeValid(b) && i < |a.members| && j < |b.members|
  {
    a.members[i] == b.members[j] && a.succs[i] == b.succs[j] && (!a.leaf && !b.leaf ==> a.names[i] == b.names[j])
  }

  lemma LinkDetermined(a: Shape, b: Shape, i: nat, j: nat, x: seq<Byte>, y: seq<Byte>)
    requires ShapeValid(a) && ShapeValid(b) && Bounded(a) && Bounded(b) && a.leaf == b.leaf
    requires i < |a.members| && j < |b.members| && MemberBytes(a, i) + x == MemberBytes(b, j) + y
    ensures SameLink(a, b, i, j) && x == y
  {
    hide BE;
    var p, q := BE(a.members[i], 8), BE(b.members[j], 8);
    var r, t := BE(a.succs[i], 8), BE(b.succs[j], 8);
    var u := (if a.leaf then [] else Text(a.names[i])) + x;
    var v := (if b.leaf then [] else Text(b.names[j])) + y;
    assert MemberBytes(a, i) + x == p + (r + u) && MemberBytes(b, j) + y == q + (t + v);
    SplitAt(p, r + u, q, t + v);
    SplitAt(r, u, t, v);
    SameNumber(a.members[i], b.members[j]);
    SameNumber(a.succs[i], b.succs[j]);
    if a.leaf {
      assert u == x && v == y;
    } else {
      TextDetermined(a.names[i], b.names[j], x, y);
    }
  }

  lemma TextDetermined(a: Name, b: Name, x: seq<Byte>, y: seq<Byte>)
    requires |a| < TWO_64 && |b| < TWO_64 && Text(a) + x == Text(b) + y
    ensures a == b && x == y
  {
    hide BE;
    assert Text(a) + x == BE(|a|, 8) + (a + x) && Text(b) + y == BE(|b|, 8) + (b + y);
    SplitAt(BE(|a|, 8), a + x, BE(|b|, 8), b + y);
    SameNumber(|a|, |b|);
    SplitAt(a, x, b, y);
  }

  lemma {:induction false} LinksDetermined(a: Shape, b: Shape, p: seq<nat>, q: seq<nat>)
    requires ShapeValid(a) && ShapeValid(b) && Bounded(a) && Bounded(b) && a.leaf == b.leaf && |p| == |q|
    requires forall k :: 0 <= k < |p| ==> p[k] < |a.members| && q[k] < |b.members|
    requires MembersBytes(a, p) == MembersBytes(b, q)
    ensures forall k :: 0 <= k < |p| ==> SameLink(a, b, p[k], q[k])
    decreases |p|
  {
    hide MemberBytes, MembersBytes, ShapeValid, Bounded, SameLink;
    if p != [] {
      MembersFromFirst(a, p);
      MembersFromFirst(b, q);
      LinkDetermined(a, b, p[0], q[0], MembersBytes(a, p[1..]), MembersBytes(b, q[1..]));
      LinksDetermined(a, b, p[1..], q[1..]);
      assert forall k :: 0 < k < |p| ==> p[k] == p[1..][k - 1] && q[k] == q[1..][k - 1];
    }
  }

  /**
   * Two structures with one string are one structure: the same numbers and, from the least member on, the same
   * ring.
   */
  lemma StructureDetermined(a: Shape, b: Shape)
    requires RingShape(a) && RingShape(b) && Bounded(a) && Bounded(b) && StructureBytes(a) == StructureBytes(b)
    ensures SameNumbers(a, b)
    ensures var p := Tour(a.members, a.succs, LeastMember(a.members));
      var q := Tour(b.members, b.succs, LeastMember(b.members));
      && |p| == |q|
      && forall k :: 0 <= k < |p| ==> p[k] < |a.members| && q[k] < |b.members| && SameLink(a, b, p[k], q[k])
  {
    hide ShapeHeader, MembersBytes, Tour, SameLink, Bounded, GoesRound;
    var p, q := Tour(a.members, a.succs, LeastMember(a.members)), Tour(b.members, b.succs, LeastMember(b.members));
    TourStays(a.members, a.succs, LeastMember(a.members));
    TourStays(b.members, b.succs, LeastMember(b.members));
    HeaderDetermined(a, b, MembersBytes(a, p), MembersBytes(b, q));
    LinksDetermined(a, b, p, q);
  }
}
