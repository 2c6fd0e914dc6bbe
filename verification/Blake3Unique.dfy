/**
 * Why the tree hash stands for its input: two inputs of one digest are the same, unless the compression function maps
 * two different calls, one made for each input, to one output. The flags, the block lengths and the shape of the tree
 * see to it that nothing else can make two inputs meet.
 */
module Blake3Unique {
  import opened Bytes
  import opened Blake3Tree

  /** The call that takes in block n of a chunk, one that is not its last. */
  function BlockCall(m: Mode, input: seq<Byte>, counter: nat, n: nat): Output
    requires BLOCK_LEN * (n + 1) <= |input|
  {
    Output(ChunkChain(m, input, counter, n), PaddedWords(input[BLOCK_LEN * n..BLOCK_LEN * (n + 1)]), counter, BLOCK_LEN,
           m.flags | StartFlag(n))
  }

  /** The calls behind the chaining value after n blocks. */
  function ChunkCalls(m: Mode, input: seq<Byte>, counter: nat, n: nat): set<Output>
    requires BLOCK_LEN * n <= |input|
  {
    if n == 0 then {} else ChunkCalls(m, input, counter, n - 1) + {BlockCall(m, input, counter, n - 1)}
  }

  /** The calls behind the last one of a tree. */
  function TreeCalls(m: Mode, input: seq<Byte>, first: nat): set<Output>
    decreases |input|
  {
    if |input| <= CHUNK_LEN then ChunkCalls(m, input, first, LeadingBlocks(|input|))
    else
      var p := LeftChunks(|input|);
      var left, right := input[..CHUNK_LEN * p], input[CHUNK_LEN * p..];
      {TreeOutput(m, left, first), TreeOutput(m, right, first + p)}
      + TreeCalls(m, left, first) + TreeCalls(m, right, first + p)
  }

  /** No call of the one is mapped where another call of the other is. */
  predicate Apart(m: Mode, a: set<Output>, b: set<Output>) {
    forall x <- a, y <- b :: ChainingValue(m, x) == ChainingValue(m, y) ==> x == y
  }

  /** The flags of the mode are none of those that tell calls apart. */
  predicate PlainMode(m: Mode) {
    m.flags == 0 || m.flags == KEYED_HASH
  }

  // ---- blocks ----

  lemma {:induction false} SameWords(a: seq<Byte>, b: seq<Byte>, n: nat)
    requires |a| == |b| == 4 * n && Words(a, n) == Words(b, n)
    ensures a == b
  {
    hide FromLE;
    forall k | 0 <= k < |a| ensures a[k] == b[k] {
      var i := k / 4;
      assert Words(a, n)[i] == Words(b, n)[i];
      var x, y := a[4 * i..4 * i + 4], b[4 * i..4 * i + 4];
      FromLERoundTrip(x);
      FromLERoundTrip(y);
      assert x[k - 4 * i] == a[k] && y[k - 4 * i] == b[k];
    }
  }

  /** A block is determined by its words and its length. */
  lemma SameBlock(a: seq<Byte>, b: seq<Byte>)
    requires |a| == |b| <= BLOCK_LEN && PaddedWords(a) == PaddedWords(b)
    ensures a == b
  {
    hide Words;
    var z := Zeros(BLOCK_LEN - |a|);
    SameWords(a + z, b + z, 16);
    assert (a + z)[..|a|] == a && (b + z)[..|a|] == b;
  }

  lemma FlagsTell(f: bv32)
    requires f == 0 || f == KEYED_HASH
    ensures f | CHUNK_START != f | 0
    ensures f | CHUNK_START | CHUNK_END != f | 0 | CHUNK_END
    ensures f | PARENT != f | CHUNK_START | CHUNK_END && f | PARENT != f | 0 | CHUNK_END
  {}

  lemma StartTells(f: bv32, n: nat, k: nat)
    requires f == 0 || f == KEYED_HASH
    ensures f | StartFlag(n) | CHUNK_END == f | StartFlag(k) | CHUNK_END ==> (n == 0 <==> k == 0)
    ensures f | StartFlag(n) == f | StartFlag(k) ==> (n == 0 <==> k == 0)
  {
    FlagsTell(f);
  }

  // ---- chunks ----

  lemma ChainIsCall(m: Mode, input: seq<Byte>, counter: nat, n: nat)
    requires n > 0 && BLOCK_LEN * n <= |input|
    ensures ChunkChain(m, input, counter, n) == ChainingValue(m, BlockCall(m, input, counter, n - 1))
  {}

  /** Two chains that meet, behind at least one block each, are of the same blocks. */
  lemma {:induction false} SameChain(m: Mode, a: seq<Byte>, b: seq<Byte>, counter: nat, n: nat, k: nat)
    requires PlainMode(m) && 0 < n && 0 < k && BLOCK_LEN * n <= |a| && BLOCK_LEN * k <= |b|
    requires ChunkChain(m, a, counter, n) == ChunkChain(m, b, counter, k)
    requires Apart(m, ChunkCalls(m, a, counter, n), ChunkCalls(m, b, counter, k))
    ensures n == k && a[..BLOCK_LEN * n] == b[..BLOCK_LEN * n]
    decreases n
  {
    hide PaddedWords, ChainingValue, StartFlag;
    ChainIsCall(m, a, counter, n);
    ChainIsCall(m, b, counter, k);
    var x, y := BlockCall(m, a, counter, n - 1), BlockCall(m, b, counter, k - 1);
    assert x in ChunkCalls(m, a, counter, n) && y in ChunkCalls(m, b, counter, k);
    assert x == y;
    StartTells(m.flags, n - 1, k - 1);
    var p, q := a[BLOCK_LEN * (n - 1)..BLOCK_LEN * n], b[BLOCK_LEN * (k - 1)..BLOCK_LEN * k];
    SameBlock(p, q);
    if n > 1 {
      SameChain(m, a, b, counter, n - 1, k - 1);
      assert a[..BLOCK_LEN * n] == a[..BLOCK_LEN * (n - 1)] + p && b[..BLOCK_LEN * n] == b[..BLOCK_LEN * (n - 1)] + q;
    } else {
      assert a[..BLOCK_LEN] == p && b[..BLOCK_LEN] == q;
    }
  }

  /** What two equal last calls of chunks have in common. */
  lemma SameLastBlock(m: Mode, a: seq<Byte>, b: seq<Byte>, counter: nat, n: nat, k: nat)
    requires PlainMode(m) && |a| <= CHUNK_LEN && |b| <= CHUNK_LEN
    requires n == LeadingBlocks(|a|) && k == LeadingBlocks(|b|)
    requires ChunkOutput(m, a, counter) == ChunkOutput(m, b, counter)
    ensures (n == 0 <==> k == 0) && a[BLOCK_LEN * n..] == b[BLOCK_LEN * k..]
    ensures ChunkChain(m, a, counter, n) == ChunkChain(m, b, counter, k)
  {
    hide PaddedWords, ChunkChain, LeadingBlocks, StartFlag;
    StartTells(m.flags, n, k);
    SameBlock(a[BLOCK_LEN * n..], b[BLOCK_LEN * k..]);
  }

  lemma Rejoin(a: seq<Byte>, b: seq<Byte>, i: nat)
    requires i <= |a| && i <= |b| && a[..i] == b[..i] && a[i..] == b[i..]
    ensures a == b
  {
    assert a == a[..i] + a[i..] && b == b[..i] + b[i..];
  }

  /** Chunks whose leading blocks and whose last one meet are the same. */
  lemma SameBlocks(m: Mode, a: seq<Byte>, b: seq<Byte>, counter: nat, n: nat, k: nat)
    requires PlainMode(m) && BLOCK_LEN * n <= |a| && BLOCK_LEN * k <= |b|
    requires (n == 0 <==> k == 0) && a[BLOCK_LEN * n..] == b[BLOCK_LEN * k..]
    requires ChunkChain(m, a, counter, n) == ChunkChain(m, b, counter, k)
    requires Apart(m, ChunkCalls(m, a, counter, n), ChunkCalls(m, b, counter, k))
    ensures a == b
  {
    hide *;
    if n > 0 {
      SameChain(m, a, b, counter, n, k);
    } else {
      assert a[BLOCK_LEN * n..] == a && b[BLOCK_LEN * k..] == b;
    }
    Rejoin(a, b, BLOCK_LEN * n);
  }

  lemma SameChunk(m: Mode, a: seq<Byte>, b: seq<Byte>, counter: nat)
    requires PlainMode(m) && |a| <= CHUNK_LEN && |b| <= CHUNK_LEN
    requires ChunkOutput(m, a, counter) == ChunkOutput(m, b, counter)
    requires Apart(m, ChunkCalls(m, a, counter, LeadingBlocks(|a|)), ChunkCalls(m, b, counter, LeadingBlocks(|b|)))
    ensures a == b
  {
    hide *;
    var n, k := LeadingBlocks(|a|), LeadingBlocks(|b|);
    SameLastBlock(m, a, b, counter, n, k);
    SameBlocks(m, a, b, counter, n, k);
  }

  // ---- trees ----

  lemma ApartWithin(m: Mode, a: set<Output>, b: set<Output>, a': set<Output>, b': set<Output>)
    requires Apart(m, a, b) && a' <= a && b' <= b
    ensures Apart(m, a', b')
  {}

  /** Two inputs whose trees end in the same call are the same. */
  lemma {:induction false} SameTree(m: Mode, a: seq<Byte>, b: seq<Byte>, first: nat)
    requires PlainMode(m) && TreeOutput(m, a, first) == TreeOutput(m, b, first)
    requires Apart(m, TreeCalls(m, a, first), TreeCalls(m, b, first))
    ensures a == b
    decreases |a|
  {
    hide ChunkOutput, ChunkCalls, Apart, ChainingValue;
    FlagsTell(m.flags);
    LastFlags(m, a, first);
    LastFlags(m, b, first);
    if |a| <= CHUNK_LEN {
      SameChunk(m, a, b, first);
    } else {
      var p, q := LeftChunks(|a|), LeftChunks(|b|);
      var l, r := a[..CHUNK_LEN * p], a[CHUNK_LEN * p..];
      var l', r' := b[..CHUNK_LEN * q], b[CHUNK_LEN * q..];
      SameChildren(m, a, b, first);
      ApartWithin(m, TreeCalls(m, a, first), TreeCalls(m, b, first), TreeCalls(m, l, first), TreeCalls(m, l', first));
      SameTree(m, l, l', first);
      assert p == q;
      ApartWithin(m, TreeCalls(m, a, first), TreeCalls(m, b, first),
                  TreeCalls(m, r, first + p), TreeCalls(m, r', first + q));
      SameTree(m, r, r', first + p);
      assert a == l + r && b == l' + r';
    }
  }

  lemma LastFlags(m: Mode, a: seq<Byte>, first: nat)
    ensures var f := TreeOutput(m, a, first).flags;
      if |a| > CHUNK_LEN then f == m.flags | PARENT
      else f == m.flags | CHUNK_START | CHUNK_END || f == m.flags | 0 | CHUNK_END
  {
    hide ChunkChain, PaddedWords, ChainingValue, LeadingBlocks;
  }

  lemma SameChildren(m: Mode, a: seq<Byte>, b: seq<Byte>, first: nat)
    requires |a| > CHUNK_LEN && |b| > CHUNK_LEN && TreeOutput(m, a, first) == TreeOutput(m, b, first)
    requires Apart(m, TreeCalls(m, a, first), TreeCalls(m, b, first))
    ensures var p, q := LeftChunks(|a|), LeftChunks(|b|);
      && TreeOutput(m, a[..CHUNK_LEN * p], first) == TreeOutput(m, b[..CHUNK_LEN * q], first)
      && TreeOutput(m, a[CHUNK_LEN * p..], first + p) == TreeOutput(m, b[CHUNK_LEN * q..], first + q)
  {
    hide ChunkOutput, ChunkCalls, ChainingValue;
    var p, q := LeftChunks(|a|), LeftChunks(|b|);
    var x, y := TreeOutput(m, a[..CHUNK_LEN * p], first), TreeOutput(m, a[CHUNK_LEN * p..], first + p);
    var u, v := TreeOutput(m, b[..CHUNK_LEN * q], first), TreeOutput(m, b[CHUNK_LEN * q..], first + q);
    var left: seq<U32>, left': seq<U32> := ChainingValue(m, x), ChainingValue(m, u);
    var right: seq<U32>, right': seq<U32> := ChainingValue(m, y), ChainingValue(m, v);
    assert (left + right)[..8] == left && (left' + right')[..8] == left';
    assert (left + right)[8..] == right && (left' + right')[8..] == right';
  }

  // ---- digests ----

  lemma {:induction false} SameBytes(a: seq<U32>, b: seq<U32>)
    requires |a| == |b| && BytesOfWords(a) == BytesOfWords(b)
    ensures a == b
    decreases a
  {
    hide LE;
    if a != [] {
      var x, y := BytesOfWords(a), BytesOfWords(b);
      assert x[..4] == LE(a[0], 4) && y[..4] == LE(b[0], 4);
      assert x[4..] == BytesOfWords(a[1..]) && y[4..] == BytesOfWords(b[1..]);
      Widths();
      LERoundTrip(a[0], 4);
      LERoundTrip(b[0], 4);
      SameBytes(a[1..], b[1..]);
      assert a == [a[0]] + a[1..] && b == [b[0]] + b[1..];
    }
  }

  /** The last call of all, marked as the root. */
  function RootCall(m: Mode, input: seq<Byte>): Output {
    var o := TreeOutput(m, input, 0);
    o.(counter := 0, flags := o.flags | ROOT)
  }

  lemma RootTells(f: bv32, g: bv32, base: bv32)
    requires base == 0 || base == KEYED_HASH
    requires f in {base | PARENT, base | CHUNK_START | CHUNK_END, base | 0 | CHUNK_END}
    requires g in {base | PARENT, base | CHUNK_START | CHUNK_END, base | 0 | CHUNK_END}
    requires f | ROOT == g | ROOT
    ensures f == g
  {}

  lemma RootCounter(m: Mode, a: seq<Byte>)
    ensures TreeOutput(m, a, 0).counter == 0
  {
    hide ChunkChain, PaddedWords, ChainingValue, LeadingBlocks;
  }

  /**
   * Two inputs with one digest are the same, unless the compression function meets on two different calls, one made for
   * each.
   */
  lemma OneDigestOneInput(m: Mode, a: seq<Byte>, b: seq<Byte>)
    requires PlainMode(m) && TreeHash(m, a) == TreeHash(m, b)
    requires Apart(m, TreeCalls(m, a, 0), TreeCalls(m, b, 0)) && Apart(m, {RootCall(m, a)}, {RootCall(m, b)})
    ensures a == b
  {
    hide TreeOutput, TreeCalls, BytesOfWords;
    var x, y := RootCall(m, a), RootCall(m, b);
    SameBytes(ChainingValue(m, x), ChainingValue(m, y));
    LastFlags(m, a, 0);
    LastFlags(m, b, 0);
    RootTells(TreeOutput(m, a, 0).flags, TreeOutput(m, b, 0).flags, m.flags);
    RootCounter(m, a);
    RootCounter(m, b);
    SameTree(m, a, b, 0);
  }

  // ---- no call does for another ----

  lemma MarksTell(f: bv32, n: nat, k: nat)
    requires f == 0 || f == KEYED_HASH
    ensures f | StartFlag(n) != f | StartFlag(k) | CHUNK_END
    ensures f | PARENT != f | StartFlag(n) && f | PARENT != f | StartFlag(n) | CHUNK_END
    ensures (f | StartFlag(n)) & ROOT == 0 && (f | StartFlag(n) | CHUNK_END) & ROOT == 0 && (f | PARENT) & ROOT == 0
  {}

  lemma ChunkMarks(m: Mode, a: seq<Byte>, i: nat)
    requires |a| <= CHUNK_LEN
    ensures var o := ChunkOutput(m, a, i);
      o.flags == m.flags | StartFlag(LeadingBlocks(|a|)) | CHUNK_END && o.counter == i
  {
    hide ChunkChain, PaddedWords, LeadingBlocks, StartFlag;
  }

  lemma BlockMarks(m: Mode, a: seq<Byte>, i: nat, n: nat)
    requires BLOCK_LEN * (n + 1) <= |a|
    ensures BlockCall(m, a, i, n).flags == m.flags | StartFlag(n) && BlockCall(m, a, i, n).counter == i
  {
    hide ChunkChain, PaddedWords, StartFlag;
  }

  /**
   * The call that ends a chunk never takes in one of its leading blocks, a parent is neither, and calls for chunks at
   * different places are never the same.
   */
  lemma CallsTell(m: Mode, a: seq<Byte>, b: seq<Byte>, i: nat, j: nat, n: nat, k: nat, left: CV, right: CV)
    requires PlainMode(m) && BLOCK_LEN * (n + 1) <= |a| <= CHUNK_LEN && BLOCK_LEN * (k + 1) <= |b| <= CHUNK_LEN
    ensures BlockCall(m, a, i, n) != ChunkOutput(m, b, j)
    ensures ParentOutput(m, left, right) !in {BlockCall(m, a, i, n), ChunkOutput(m, a, i)}
    ensures BlockCall(m, a, i, n) == BlockCall(m, b, j, k) || ChunkOutput(m, a, i) == ChunkOutput(m, b, j) ==> i == j
  {
    hide ChunkOutput, BlockCall, LeadingBlocks, StartFlag;
    ChunkMarks(m, a, i);
    ChunkMarks(m, b, j);
    BlockMarks(m, a, i, n);
    BlockMarks(m, b, j, k);
    MarksTell(m.flags, n, LeadingBlocks(|b|));
    MarksTell(m.flags, LeadingBlocks(|a|), 0);
  }

  lemma LastUnmarked(m: Mode, b: seq<Byte>, first: nat)
    requires PlainMode(m)
    ensures TreeOutput(m, b, first).flags & ROOT == 0
  {
    hide TreeOutput;
    LastFlags(m, b, first);
    MarksTell(m.flags, 0, 0);
    MarksTell(m.flags, 1, 0);
  }

  /** No call before the last is marked as the root, and without its mark the last is not either. */
  lemma {:induction false} OnlyRootIsMarked(m: Mode, a: seq<Byte>, b: seq<Byte>, first: nat)
    requires PlainMode(m)
    ensures RootCall(m, a) !in TreeCalls(m, b, first) && RootCall(m, a) != TreeOutput(m, b, first)
    decreases |b|
  {
    hide TreeOutput, ChunkCalls, LeadingBlocks;
    var root := RootCall(m, a);
    RootIsMarked(TreeOutput(m, a, 0).flags);
    LastUnmarked(m, b, first);
    if |b| <= CHUNK_LEN {
      BlocksUnmarked(m, root, b, first, LeadingBlocks(|b|));
    } else {
      var p := LeftChunks(|b|);
      OnlyRootIsMarked(m, a, b[..CHUNK_LEN * p], first);
      OnlyRootIsMarked(m, a, b[CHUNK_LEN * p..], first + p);
    }
  }

  lemma RootIsMarked(f: bv32)
    ensures (f | ROOT) & ROOT != 0
  {}

  lemma {:induction false} BlocksUnmarked(m: Mode, root: Output, b: seq<Byte>, counter: nat, n: nat)
    requires PlainMode(m) && root.flags & ROOT != 0 && BLOCK_LEN * n <= |b|
    ensures root !in ChunkCalls(m, b, counter, n)
  {
    hide BlockCall, StartFlag;
    if n > 0 {
      BlockMarks(m, b, counter, n - 1);
      MarksTell(m.flags, n - 1, 0);
      BlocksUnmarked(m, root, b, counter, n - 1);
    }
  }
}
