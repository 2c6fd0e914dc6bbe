/**
 * Draining depends on what was published, not on the order in which it was published: the least key
 * chooses the next event, and sequence numbers never decide when keys are pairwise distinct.
 */
module SchedulerOrder {
  import opened Bytes
  import opened Options
  import opened Ring
  import opened Frame
  import opened Topology
  import opened Cell
  import opened Scheduler

  // ---- the order of identifiers and events is a strict total order ----

  lemma {:induction false} NamesTotal(a: Name, b: Name)
    ensures a == b || NameBefore(a, b) || NameBefore(b, a)
    decreases a
  {
    if a != [] && b != [] {
      NamesTotal(a[1..], b[1..]);
      assert a == [a[0]] + a[1..] && b == [b[0]] + b[1..];
    }
  }

  lemma {:induction false} NamesTransitive(a: Name, b: Name, c: Name)
    requires NameBefore(a, b) && NameBefore(b, c)
    ensures NameBefore(a, c)
    decreases a
  {
    if a != [] && a[0] == b[0] == c[0] {
      NamesTransitive(a[1..], b[1..], c[1..]);
    }
  }

  lemma {:induction false} NamesIrreflexive(a: Name)
    ensures !NameBefore(a, a)
    decreases a
  {
    if a != [] {
      NamesIrreflexive(a[1..]);
    }
  }

  /** The key of an event, its sequence number aside. */
  predicate SameKey(a: Event, b: Event) {
    && EventClock(a) == EventClock(b) && a.Observed? == b.Observed?
    && EventCell(a) == EventCell(b) && EventMember(a) == EventMember(b)
  }

  lemma EventsTotal(a: Event, b: Event)
    ensures SameKey(a, b) || EventBefore(a, b) || EventBefore(b, a)
  {
    NamesTotal(EventCell(a), EventCell(b));
  }

  lemma EventsTransitive(a: Event, b: Event, c: Event)
    requires EventBefore(a, b) && EventBefore(b, c)
    ensures EventBefore(a, c)
  {
    var x, y, z := EventCell(a), EventCell(b), EventCell(c);
    if NameBefore(x, y) && NameBefore(y, z) {
      NamesTransitive(x, y, z);
    }
    NamesIrreflexive(x);
    if x == z && NameBefore(x, y) && NameBefore(y, x) {
      NamesTransitive(x, y, x);
    }
  }

  predicate Least(q: seq<Event>, i: nat) {
    i < |q| && forall k :: 0 <= k < |q| ==> !EventBefore(q[k], q[i])
  }

  lemma {:induction false} MinimumIsLeast(q: seq<Event>)
    requires q != []
    ensures Least(q, MinimumEvent(q))
    decreases q
  {
    hide EventBefore;
    var n := |q| - 1;
    if n > 0 {
      var front := q[..n];
      MinimumIsLeast(front);
      var i := MinimumEvent(front);
      forall k | 0 <= k < |q| ensures !EventBefore(q[k], q[MinimumEvent(q)]) {
        if k < n {
          assert front[k] == q[k];
          if EventBefore(q[n], q[i]) && EventBefore(q[k], q[n]) {
            EventsTransitive(q[k], q[n], q[i]);
          }
        } else {
          NotBeforeItself(q[n]);
        }
      }
    } else {
      NotBeforeItself(q[0]);
    }
  }

  lemma NotBeforeItself(v: Event)
    ensures !EventBefore(v, v)
  {}

  // ---- queues with the same events in another order ----

  function Core(v: Event): Event {
    v.(sequence := 0)
  }

  predicate DistinctKeys(q: seq<Event>) {
    forall j, k :: 0 <= j < k < |q| ==> !SameKey(q[j], q[k])
  }

  /** The second queue holds the same events, in the order p, under any sequence numbers. */
  predicate Rearranged(q: seq<Event>, q': seq<Event>, p: seq<nat>) {
    |q'| == |q| && Permutes(p, |q|) && forall k :: 0 <= k < |q| ==> Core(q'[k]) == Core(q[p[k]])
  }

  lemma RearrangedKeys(q: seq<Event>, q': seq<Event>, p: seq<nat>)
    requires Rearranged(q, q', p) && DistinctKeys(q)
    ensures DistinctKeys(q')
  {
    forall j, k | 0 <= j < k < |q'| ensures !SameKey(q'[j], q'[k]) {
      CoreKey(q'[j], q[p[j]]);
      CoreKey(q'[k], q[p[k]]);
      assert p[j] != p[k];
    }
  }

  lemma CoreKey(a: Event, b: Event)
    requires Core(a) == Core(b)
    ensures SameKey(a, b)
    ensures a.Observed? ==> b.Observed? && a.reading == b.reading
    ensures a.Attested? ==> b.Attested? && a.cell == b.cell && a.clock == b.clock && a.w == b.w
  {}

  lemma KeyDecides(a: Event, b: Event, c: Event, d: Event)
    requires SameKey(a, b) && SameKey(c, d) && !SameKey(a, c)
    ensures EventBefore(a, c) <==> EventBefore(b, d)
  {}

  /** Both queues choose the same event. */
  lemma {:induction false} SameMinimum(q: seq<Event>, q': seq<Event>, p: seq<nat>)
    requires q != [] && Rearranged(q, q', p) && DistinctKeys(q)
    ensures p[MinimumEvent(q')] == MinimumEvent(q)
  {
    hide EventBefore, SameKey, Core;
    var i, i' := MinimumEvent(q), MinimumEvent(q');
    MinimumIsLeast(q);
    MinimumIsLeast(q');
    if p[i'] != i {
      var j := Onto(p, |p|, i);
      CoreKey(q'[i'], q[p[i']]);
      CoreKey(q'[j], q[i]);
      RearrangedKeys(q, q', p);
      EventsTotal(q'[i'], q'[j]);
      EventsTotal(q[p[i']], q[i]);
      SymmetricKey(q'[i'], q'[j]);
      SymmetricKey(q[p[i']], q[i]);
      KeyDecides(q'[i'], q[p[i']], q'[j], q[i]);
      assert false;
    }
  }

  lemma SymmetricKey(a: Event, b: Event)
    ensures SameKey(a, b) <==> SameKey(b, a)
  {}

  /** The permutation that remains when position i is taken out of the second queue. */
  function Dropped(p: seq<nat>, i: nat): (r: seq<nat>)
    requires i < |p|
    ensures |r| == |p| - 1
    ensures forall k :: 0 <= k < |r| ==> r[k] == Shift(p[Skip(k, i)], p[i])
  {
    seq(|p| - 1, k requires 0 <= k < |p| - 1 => Shift(p[Skip(k, i)], p[i]))
  }

  function Skip(k: nat, i: nat): nat {
    if k < i then k else k + 1
  }

  function Shift(x: nat, gone: nat): nat {
    if x > gone then x - 1 else x
  }

  lemma RearrangedWithout(q: seq<Event>, q': seq<Event>, p: seq<nat>, i: nat)
    requires Rearranged(q, q', p) && i < |q|
    ensures Rearranged(Without(q, p[i]), Without(q', i), Dropped(p, i))
  {
    hide Core;
    var r := Dropped(p, i);
    var n := |q| - 1;
    forall k | 0 <= k < n ensures r[k] < n && Without(q', i)[k] == q'[Skip(k, i)]
        && Without(q, p[i])[r[k]] == q[p[Skip(k, i)]] {
      assert p[Skip(k, i)] != p[i];
    }
    forall j, k | 0 <= j < k < n ensures r[j] != r[k] {
      assert p[Skip(j, i)] != p[Skip(k, i)] && p[Skip(j, i)] != p[i] && p[Skip(k, i)] != p[i];
    }
  }

  lemma WithoutKeys(q: seq<Event>, i: nat)
    requires DistinctKeys(q) && i < |q|
    ensures DistinctKeys(Without(q, i))
  {
    forall j, k | 0 <= j < k < |q| - 1 ensures !SameKey(Without(q, i)[j], Without(q, i)[k]) {
      assert Without(q, i)[j] == q[Skip(j, i)] && Without(q, i)[k] == q[Skip(k, i)];
    }
  }

  lemma SameEffect(e: Env, f: seq<Spec>, m: Machine, a: Event, b: Event)
    requires Forest(f) && Shaped(f, m) && Core(a) == Core(b)
    ensures ApplyEvent(e, f, m, a) == ApplyEvent(e, f, m, b)
  {
    hide ApplyReading, ApplyWitness;
  }

  lemma {:induction false} QueueOrderIrrelevant(e: Env, f: seq<Spec>, m: Machine, q: seq<Event>, q': seq<Event>,
      p: seq<nat>, maximum: nat) returns (rest: seq<nat>)
    requires Forest(f) && Shaped(f, m) && Rearranged(q, q', p) && DistinctKeys(q)
    ensures var d, d' := DrainQueue(e, f, m, q, maximum), DrainQueue(e, f, m, q', maximum);
      d'.m == d.m && d'.o == d.o && Rearranged(d.q, d'.q, rest) && DistinctKeys(d.q)
    decreases |q|
  {
    hide ApplyEvent, Forest, Counted, MinimumEvent, Rearranged, DistinctKeys, Without, Core;
    rest := p;
    SameLength(q, q', p);
    if q != [] && m.report.processed < maximum {
      var i, i' := MinimumEvent(q), MinimumEvent(q');
      SameMinimum(q, q', p);
      SameCoreAt(q, q', p, i');
      SameEffect(e, f, m, q'[i'], q[i]);
      RearrangedWithout(q, q', p, i');
      WithoutKeys(q, i);
      var a := ApplyEvent(e, f, m, q[i]);
      if a.consumed {
        rest := Dropped(p, i');
        if a.o == Ok || a.o == HoldDuplicate {
          rest := QueueOrderIrrelevant(e, f, a.m.(report := Counted(a.m.report, a.o)), Without(q, i), Without(q', i'),
                                       Dropped(p, i'), maximum);
        }
      }
    }
  }

  lemma SameLength(q: seq<Event>, q': seq<Event>, p: seq<nat>)
    requires Rearranged(q, q', p)
    ensures |q'| == |q| == |p|
  {}

  lemma SameCoreAt(q: seq<Event>, q': seq<Event>, p: seq<nat>, i: nat)
    requires Rearranged(q, q', p) && i < |q|
    ensures p[i] < |q| && Core(q'[i]) == Core(q[p[i]])
  {}

  /**
   * Two schedulers with equal cells, whose queues hold the same events in any order and under any sequence
   * numbers, drain to equal cells, equal execution digest, equal report and equal outcome; and the events
   * left over are again the same.
   */
  lemma DrainIgnoresPublicationOrder(e: Env, f: seq<Spec>, m: Machine, q: seq<Event>, q': seq<Event>,
      p: seq<nat>, maximum: nat) returns (rest: seq<nat>)
    requires Forest(f) && Shaped(f, m) && Rearranged(q, q', p) && DistinctKeys(q)
    ensures var d, d' := Drain(e, f, m, q, maximum), Drain(e, f, m, q', maximum);
      d'.m == d.m && d'.o == d.o && Rearranged(d.q, d'.q, rest)
  {
    hide Retry, DrainQueue, Forest, Rearranged, DistinctKeys;
    var first := Retry(e, f, m.(report := NO_REPORT), 0, None);
    if first.o == Ok {
      rest := QueueOrderIrrelevant(e, f, first.m, q, q', p, maximum);
    } else {
      rest := p;
    }
  }
}
