/**
 * The chaining-value stack of the incremental hasher: what it must hold after t chunks, and why
 * folding it from the top gives the tree of the BLAKE3 paper.
 */
module Blake3Stack {
  import opened Bytes
  import opened Blake3Tree

  /** Chunks a .. a + n of the data. */
  function Chunks(data: seq<Byte>, a: nat, n: nat): seq<Byte>
    requires CHUNK_LEN * (a + n) <= |data|
  {
    data[CHUNK_LEN * a..CHUNK_LEN * (a + n)]
  }

  /** The chaining value of the subtree over n whole chunks, the first being chunk a. */
  function Subtree(m: Mode, data: seq<Byte>, a: nat, n: nat): CV
    requires CHUNK_LEN * (a + n) <= |data|
  {
    ChainingValue(m, TreeOutput(m, Chunks(data, a, n), a))
  }

  /** The stack after t * 2^k chunks: one subtree per one bit of t, the largest first. */
  function StackOf(m: Mode, data: seq<Byte>, t: nat, k: nat): seq<CV>
    requires CHUNK_LEN * (t * Pow2(k)) <= |data|
    decreases t
  {
    if t == 0 then []
    else
      Halve(t, k);
      if t % 2 == 0 then StackOf(m, data, t / 2, k + 1)
      else StackOf(m, data, t / 2, k + 1) + [Subtree(m, data, (t - 1) * Pow2(k), Pow2(k))]
  }

  lemma Halve(t: nat, k: nat)
    ensures t * Pow2(k) == (t / 2) * Pow2(k + 1) + (t % 2) * Pow2(k)
    ensures t > 0 ==> (t - 1) * Pow2(k) + Pow2(k) == t * Pow2(k)
  {
    var p := Pow2(k);
    assert Pow2(k + 1) == 2 * p;
    assert t * p == (2 * (t / 2) + t % 2) * p;
    assert (2 * (t / 2) + t % 2) * p == (t / 2) * (2 * p) + (t % 2) * p;
  }

  function PopCount(t: nat): nat {
    if t == 0 then 0 else t % 2 + PopCount(t / 2)
  }

  /** The stack depends only on the chunks it covers. */
  lemma {:induction false} StackExtends(m: Mode, data: seq<Byte>, more: seq<Byte>, t: nat, k: nat)
    requires CHUNK_LEN * (t * Pow2(k)) <= |data|
    ensures StackOf(m, data + more, t, k) == StackOf(m, data, t, k)
    decreases t
  {
    hide Subtree;
    if t > 0 {
      Halve(t, k);
      StackExtends(m, data, more, t / 2, k + 1);
      if t % 2 == 1 {
        SubtreeExtends(m, data, more, (t - 1) * Pow2(k), Pow2(k));
      }
    }
  }

  lemma SubtreeExtends(m: Mode, data: seq<Byte>, more: seq<Byte>, a: nat, n: nat)
    requires n > 0 && CHUNK_LEN * (a + n) <= |data|
    ensures Subtree(m, data + more, a, n) == Subtree(m, data, a, n)
  {
    hide TreeOutput;
    assert Chunks(data + more, a, n) == Chunks(data, a, n);
  }

  lemma {:induction false} StackLength(m: Mode, data: seq<Byte>, t: nat, k: nat)
    requires CHUNK_LEN * (t * Pow2(k)) <= |data|
    ensures |StackOf(m, data, t, k)| == PopCount(t)
    decreases t
  {
    if t > 0 {
      Halve(t, k);
      StackLength(m, data, t / 2, k + 1);
    }
  }

  lemma {:induction false} PopCountBound(t: nat, j: nat)
    requires t < Pow2(j)
    ensures PopCount(t) <= j
    decreases t
  {
    if t > 0 {
      PopCountBound(t / 2, j - 1);
    }
  }

  /** One more chunk never needs more than one more slot, and the pushes and pops of one step stay below it. */
  lemma {:induction false} PopCountStep(t: nat)
    ensures PopCount(t + 1) <= PopCount(t) + 1
    decreases t
  {
    if t % 2 == 1 {
      PopCountStep(t / 2);
      assert (t + 1) / 2 == t / 2 + 1;
    }
  }

  /** Two neighbouring full subtrees of 2^k chunks are the two halves of one of 2^(k+1). */
  lemma MergeSubtrees(m: Mode, data: seq<Byte>, a: nat, k: nat)
    requires CHUNK_LEN * (a + Pow2(k + 1)) <= |data|
    ensures Subtree(m, data, a, Pow2(k + 1))
         == ChainingValue(m, ParentOutput(m, Subtree(m, data, a, Pow2(k)),
                                          Subtree(m, data, a + Pow2(k), Pow2(k))))
  {
    var p := Pow2(k);
    var whole := Chunks(data, a, 2 * p);
    LeftOfJoined(|whole|, k);
    assert whole[..CHUNK_LEN * p] == Chunks(data, a, p);
    assert whole[CHUNK_LEN * p..] == Chunks(data, a + p, p);
  }

  /** Between one and two times 2^k chunks of bytes, 2^k chunks go left. */
  lemma LeftOfJoined(len: nat, k: nat)
    requires CHUNK_LEN * Pow2(k) < len <= CHUNK_LEN * Pow2(k) * 2
    ensures len > CHUNK_LEN && LeftChunks(len) == Pow2(k)
  {
    Pow2BelowUnique((len - 1) / CHUNK_LEN, k);
  }

  lemma EvenPositions(t: nat, k: nat, a: nat)
    requires t > 0 && t % 2 == 0 && a == (t / 2 - 1) * Pow2(k + 1)
    ensures t * Pow2(k) == (t / 2) * Pow2(k + 1) == a + Pow2(k + 1)
    ensures (t - 1) * Pow2(k) == a + Pow2(k)
    ensures (t - 2) * Pow2(k) == a
  {
    var p, h := Pow2(k), t / 2 - 1;
    assert t == 2 * h + 2 && Pow2(k + 1) == 2 * p;
    assert (2 * h) * p == h * (2 * p);
    assert (2 * h + 1) * p == (2 * h) * p + p;
    assert (2 * h + 2) * p == (2 * h) * p + 2 * p;
    assert (h + 1) * (2 * p) == h * (2 * p) + 2 * p;
  }

  /** An even count: the top of the stack and the new subtree merge into one twice the size. */
  lemma PopMerge(m: Mode, data: seq<Byte>, t: nat, k: nat) returns (a: nat)
    requires t > 0 && t % 2 == 0 && CHUNK_LEN * (t * Pow2(k)) <= |data|
    ensures a == (t / 2 - 1) * Pow2(k + 1)
    ensures t * Pow2(k) == (t / 2) * Pow2(k + 1) == a + Pow2(k + 1)
    ensures (t - 1) * Pow2(k) == a + Pow2(k)
    ensures StackOf(m, data, t - 1, k) == StackOf(m, data, t / 2 - 1, k + 1) + [Subtree(m, data, a, Pow2(k))]
    ensures StackOf(m, data, t, k) == StackOf(m, data, t / 2, k + 1)
  {
    hide TreeOutput;
    a := (t / 2 - 1) * Pow2(k + 1);
    EvenPositions(t, k, a);
    assert (t - 1) / 2 == t / 2 - 1;
  }

  /** An odd count: the new subtree becomes the top of the stack. */
  lemma PushLast(m: Mode, data: seq<Byte>, t: nat, k: nat)
    requires t % 2 == 1 && CHUNK_LEN * (t * Pow2(k)) <= |data|
    ensures (t - 1) * Pow2(k) + Pow2(k) == t * Pow2(k)
    ensures StackOf(m, data, t, k)
         == StackOf(m, data, t - 1, k) + [Subtree(m, data, (t - 1) * Pow2(k), Pow2(k))]
  {
    hide TreeOutput;
    Halve(t, k);
    Halve(t - 1, k);
    assert (t - 1) / 2 == t / 2;
    assert StackOf(m, data, t - 1, k) == StackOf(m, data, t / 2, k + 1);
  }

  /** Combines the stack from its top down with the output of the last chunk. */
  function FoldDown(m: Mode, stack: seq<CV>, o: Output): Output
    decreases |stack|
  {
    if stack == [] then o
    else
      FoldDown(m, stack[..|stack| - 1],
               ParentOutput(m, stack[|stack| - 1], ChainingValue(m, o)))
  }

  /** The tree of the data from chunk a on, when 2^k full chunks and at most as much again are left. */
  lemma SplitRest(m: Mode, data: seq<Byte>, a: nat, k: nat)
    requires CHUNK_LEN * (a + Pow2(k)) < |data| <= CHUNK_LEN * (a + 2 * Pow2(k))
    ensures TreeOutput(m, data[CHUNK_LEN * a..], a)
         == ParentOutput(m, Subtree(m, data, a, Pow2(k)),
                         ChainingValue(m, TreeOutput(m, data[CHUNK_LEN * (a + Pow2(k))..], a + Pow2(k))))
  {
    var p := Pow2(k);
    var rest := data[CHUNK_LEN * a..];
    LeftOfJoined(|rest|, k);
    assert rest[..CHUNK_LEN * p] == Chunks(data, a, p);
    assert rest[CHUNK_LEN * p..] == data[CHUNK_LEN * (a + p)..];
  }

  /** What the fold has combined when the stack of t * 2^k chunks remains below it. */
  function RestTree(m: Mode, data: seq<Byte>, r: nat): Output
    requires CHUNK_LEN * r <= |data|
  {
    TreeOutput(m, data[CHUNK_LEN * r..], r)
  }

  /** One step of the stack's definition, by the chunk a where the lower bits of t begin. */
  lemma StackUnfolds(m: Mode, data: seq<Byte>, t: nat, k: nat) returns (a: nat)
    requires t > 0 && CHUNK_LEN * (t * Pow2(k)) <= |data|
    ensures a == (t / 2) * Pow2(k + 1)
    ensures t * Pow2(k) == if t % 2 == 0 then a else a + Pow2(k)
    ensures t % 2 == 0 ==> StackOf(m, data, t, k) == StackOf(m, data, t / 2, k + 1)
    ensures t % 2 == 1 ==>
      StackOf(m, data, t, k) == StackOf(m, data, t / 2, k + 1) + [Subtree(m, data, a, Pow2(k))]
  {
    hide TreeOutput;
    Halve(t, k);
    a := (t / 2) * Pow2(k + 1);
    if t % 2 == 1 {
      assert (t - 1) * Pow2(k) == a;
    }
  }

  /** Folding the stack over the tree of what is left of the data gives the tree of all of it. */
  lemma {:induction false} FoldIsTree(m: Mode, data: seq<Byte>, t: nat, k: nat, r: nat)
    requires r == t * Pow2(k) && CHUNK_LEN * r <= |data| <= CHUNK_LEN * (r + Pow2(k))
    requires t > 0 ==> CHUNK_LEN * r < |data|
    ensures FoldDown(m, StackOf(m, data, t, k), RestTree(m, data, r)) == TreeOutput(m, data, 0)
    decreases t
  {
    hide TreeOutput;
    if t == 0 {
      assert data[0..] == data;
    } else {
      FoldStep(m, data, t, k, r);
    }
  }

  lemma {:induction false} FoldStep(m: Mode, data: seq<Byte>, t: nat, k: nat, r: nat)
    requires r == t * Pow2(k) && CHUNK_LEN * r < |data| <= CHUNK_LEN * (r + Pow2(k))
    requires t > 0
    ensures FoldDown(m, StackOf(m, data, t, k), RestTree(m, data, r)) == TreeOutput(m, data, 0)
    decreases t, 0
  {
    hide TreeOutput, StackOf, RestTree, FoldDown, Subtree;
    var p := Pow2(k);
    assert Pow2(k + 1) == 2 * p;
    var a := StackUnfolds(m, data, t, k);
    if t % 2 == 0 {
      FoldIsTree(m, data, t / 2, k + 1, r);
    } else {
      RestSplits(m, data, a, k);
      FoldIsTree(m, data, t / 2, k + 1, a);
      FoldPush(m, StackOf(m, data, t / 2, k + 1), Subtree(m, data, a, p), RestTree(m, data, r));
    }
  }

  lemma RestSplits(m: Mode, data: seq<Byte>, a: nat, k: nat)
    requires CHUNK_LEN * (a + Pow2(k)) < |data| <= CHUNK_LEN * (a + 2 * Pow2(k))
    ensures RestTree(m, data, a)
         == ParentOutput(m, Subtree(m, data, a, Pow2(k)), ChainingValue(m, RestTree(m, data, a + Pow2(k))))
  {
    hide TreeOutput;
    SplitRest(m, data, a, k);
  }

  lemma FoldPush(m: Mode, stack: seq<CV>, cv: CV, o: Output)
    ensures FoldDown(m, stack + [cv], o)
         == FoldDown(m, stack, ParentOutput(m, cv, ChainingValue(m, o)))
  {
    assert (stack + [cv])[..|stack|] == stack;
  }

  // ---- the shape of the stack ----

  /** The sizes, in chunks, of the stack's subtrees: the powers of two in t, the largest first. */
  function Sizes(t: nat, k: nat): (s: seq<nat>)
    decreases t
  {
    if t == 0 then [] else Sizes(t / 2, k + 1) + (if t % 2 == 1 then [Pow2(k)] else [])
  }

  function Sum(s: seq<nat>): nat {
    if s == [] then 0 else Sum(s[..|s| - 1]) + s[|s| - 1]
  }

  lemma {:induction false} SizesShape(t: nat, k: nat)
    ensures Sum(Sizes(t, k)) == t * Pow2(k)
    ensures forall i :: 0 <= i < |Sizes(t, k)| ==> IsPow2(Sizes(t, k)[i]) && Pow2(k) <= Sizes(t, k)[i]
    ensures forall i, j :: 0 <= i < j < |Sizes(t, k)| ==> Sizes(t, k)[i] > Sizes(t, k)[j]
    decreases t
  {
    if t > 0 {
      Halve(t, k);
      SizesShape(t / 2, k + 1);
      var s := Sizes(t / 2, k + 1);
      if t % 2 == 1 {
        assert (s + [Pow2(k)])[..|s|] == s;
      } else {
        assert s + [] == s;
      }
    }
  }

  /**
   * Entry i of the stack is the chaining value of a complete subtree whose size is a power of two,
   * standing right after the larger subtrees below it.
   */
  lemma {:induction false} StackEntries(m: Mode, data: seq<Byte>, t: nat, k: nat, i: nat)
    requires CHUNK_LEN * (t * Pow2(k)) <= |data|
    requires i < |StackOf(m, data, t, k)|
    ensures |Sizes(t, k)| == |StackOf(m, data, t, k)|
    ensures CHUNK_LEN * (Sum(Sizes(t, k)[..i]) + Sizes(t, k)[i]) <= |data|
    ensures StackOf(m, data, t, k)[i] == Subtree(m, data, Sum(Sizes(t, k)[..i]), Sizes(t, k)[i])
    decreases t
  {
    hide TreeOutput, StackOf, Subtree;
    StackLength(m, data, t, k);
    SizesLength(t, k);
    var a := StackUnfolds(m, data, t, k);
    StackLength(m, data, t / 2, k + 1);
    SizesLength(t / 2, k + 1);
    var s := Sizes(t / 2, k + 1);
    if i < |s| {
      StackEntries(m, data, t / 2, k + 1, i);
      assert Sizes(t, k)[..i] == s[..i];
    } else {
      SizesShape(t / 2, k + 1);
      assert Sizes(t, k)[..i] == s;
    }
  }

  lemma {:induction false} SizesLength(t: nat, k: nat)
    ensures |Sizes(t, k)| == PopCount(t)
    decreases t
  {
    if t > 0 {
      SizesLength(t / 2, k + 1);
    }
  }
}
