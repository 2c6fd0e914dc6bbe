/**
 * The incremental BLAKE3 hasher of runtime/cdc_blake3.c: a lazy chunk buffer and a stack of
 * chaining values, both updated in place. The ghost fields record the bytes absorbed so far;
 * Valid() ties every real field to the tree hash of those bytes.
 */
module Blake3 {
  import opened Bytes
  import opened Blake3Tree
  import opened Blake3Stack

  const STACK_SLOTS: nat := 54

  /** The longest input a hash may absorb, in bytes. */
  const INPUT_LIMIT: nat := TWO_64

  class Chunk {
    ghost const mode: Mode
    ghost var bytes: seq<Byte>

    const compress: Compress
    const block: array<Byte>
    var cv: CV
    var counter: nat
    var blockLen: nat
    var blocksCompressed: nat
    const flags: bv32

    ghost predicate Valid()
      reads this, block
    {
      && mode.compress == compress && mode.flags == flags
      && block.Length == BLOCK_LEN
      && blockLen <= BLOCK_LEN
      && |bytes| == BLOCK_LEN * blocksCompressed + blockLen <= CHUNK_LEN
      && (blocksCompressed > 0 ==> blockLen > 0)
      && block[..] == bytes[BLOCK_LEN * blocksCompressed..] + Zeros(BLOCK_LEN - blockLen)
      && cv == ChunkChain(mode, bytes, counter, blocksCompressed)
    }

    constructor (ghost m: Mode, c: Compress, key: CV, f: bv32)
      requires m == Mode(c, key, f)
      ensures Valid() && fresh(block) && mode == m && bytes == [] && counter == 0
    {
      mode := m;
      compress := c;
      flags := f;
      bytes := [];
      cv := key;
      counter := 0;
      block := new Byte[BLOCK_LEN](_ => 0);
      blockLen := 0;
      blocksCompressed := 0;
    }

    /** Starts chunk number n in place. */
    method Init(n: nat, key: CV)
      requires Valid() && key == mode.key
      modifies this, block
      ensures Valid() && bytes == [] && counter == n
    {
      cv := key;
      counter := n;
      Clear();
      blockLen := 0;
      blocksCompressed := 0;
      bytes := [];
    }

    /** Zeroes the block buffer. */
    method Clear()
      requires block.Length == BLOCK_LEN
      modifies block
      ensures block[..] == Zeros(BLOCK_LEN)
    {
      forall i | 0 <= i < block.Length {
        block[i] := 0;
      }
    }

    function Length(): (n: nat)
      requires Valid()
      reads this, block
      ensures n == |bytes|
    {
      blocksCompressed * BLOCK_LEN + blockLen
    }

    /** Compresses the full block as one that is not the chunk's last. */
    method BlockCv() returns (r: CV)
      requires Valid() && blockLen == BLOCK_LEN
      ensures r == ChunkChain(mode, bytes, counter, blocksCompressed + 1)
    {
      assert block[..] == bytes[BLOCK_LEN * blocksCompressed..BLOCK_LEN * (blocksCompressed + 1)];
      r := compress(cv, PaddedWords(block[..]), counter, BLOCK_LEN, flags | StartFlag(blocksCompressed));
    }

    /** The full block is compressed only now that a further byte is known to follow. */
    method CompressBlock()
      requires Valid() && blockLen == BLOCK_LEN && |bytes| < CHUNK_LEN
      modifies this, block
      ensures |bytes| == BLOCK_LEN * blocksCompressed && blockLen == 0
      ensures block[..] == Zeros(BLOCK_LEN)
      ensures cv == ChunkChain(mode, bytes, counter, blocksCompressed)
      ensures bytes == old(bytes) && counter == old(counter)
    {
      hide ChunkChain, PaddedWords;
      var next := BlockCv();
      cv := next;
      blocksCompressed := blocksCompressed + 1;
      Clear();
      blockLen := 0;
    }

    method Update(input: seq<Byte>)
      requires Valid() && |bytes| + |input| <= CHUNK_LEN
      modifies this, block
      ensures Valid() && bytes == old(bytes) + input && counter == old(counter)
    {
      hide ChunkChain, PaddedWords, Words, Zeros;
      var rest := input;
      while |rest| > 0
        invariant Valid()
        invariant counter == old(counter)
        invariant |bytes| + |rest| <= CHUNK_LEN
        invariant bytes + rest == old(bytes) + input
        decreases |rest|
      {
        if blockLen == BLOCK_LEN {
          CompressBlock();
        }
        var want := BLOCK_LEN - blockLen;
        var take := if |rest| < want then |rest| else want;
        Append(rest[..take]);
        assert rest == rest[..take] + rest[take..];
        rest := rest[take..];
      }
    }

    /** Copies bytes that fit behind the ones already in the block. */
    method Append(piece: seq<Byte>)
      requires mode.compress == compress && mode.flags == flags
      requires block.Length == BLOCK_LEN
      requires |bytes| == BLOCK_LEN * blocksCompressed + blockLen
      requires 0 < |piece| <= BLOCK_LEN - blockLen && |bytes| + |piece| <= CHUNK_LEN
      requires block[..] == bytes[BLOCK_LEN * blocksCompressed..] + Zeros(BLOCK_LEN - blockLen)
      requires cv == ChunkChain(mode, bytes, counter, blocksCompressed)
      modifies this, block
      ensures Valid() && bytes == old(bytes) + piece && counter == old(counter)
    {
      hide PaddedWords, Words;
      var at := blockLen;
      forall i | 0 <= i < |piece| {
        block[at + i] := piece[i];
      }
      blockLen := blockLen + |piece|;
      bytes := bytes + piece;
      ChainExtends(mode, old(bytes), piece, counter, blocksCompressed);
    }

    /** The deferred compression of the current block, as the chunk's last. */
    method Out() returns (o: Output)
      requires Valid()
      ensures o == ChunkOutput(mode, bytes, counter)
    {
      hide ChunkChain, Words;
      assert LeadingBlocks(|bytes|) == blocksCompressed;
      o := Output(cv, Words(block[..], 16), counter, blockLen, flags | StartFlag(blocksCompressed) | CHUNK_END);
    }
  }

  lemma {:induction false} ChainExtends(m: Mode, bytes: seq<Byte>, more: seq<Byte>, counter: nat, n: nat)
    requires BLOCK_LEN * n <= |bytes|
    ensures ChunkChain(m, bytes + more, counter, n) == ChunkChain(m, bytes, counter, n)
  {
    if n > 0 {
      ChainExtends(m, bytes, more, counter, n - 1);
      assert (bytes + more)[BLOCK_LEN * (n - 1)..BLOCK_LEN * n] == bytes[BLOCK_LEN * (n - 1)..BLOCK_LEN * n];
    }
  }

  class Hasher {
    ghost const mode: Mode
    ghost var data: seq<Byte>

    const compress: Compress
    const chunk: Chunk
    const cvStack: array<CV>
    var cvStackLen: nat
    const keyWords: CV
    const flags: bv32

    ghost const Repr: set<object> := {this, chunk, chunk.block, cvStack}

    ghost predicate Valid()
      reads Repr
    {
      && Linked()
      && (chunk.counter > 0 ==> |chunk.bytes| > 0)
    }

    /** Everything but laziness: the chunk and the stack together hold the data. */
    ghost predicate Linked()
      reads Repr
    {
      && mode == Mode(compress, keyWords, flags)
      && chunk.mode == mode && chunk.Valid()
      && cvStack.Length == STACK_SLOTS
      && |data| <= INPUT_LIMIT
      && |data| == CHUNK_LEN * chunk.counter + |chunk.bytes|
      && chunk.bytes == data[CHUNK_LEN * chunk.counter..]
      && StackHolds(chunk.counter, 0)
    }

    /** The used part of the stack is the stack of t * 2^k chunks of the data. */
    ghost predicate StackHolds(t: nat, k: nat)
      reads this, cvStack
    {
      && cvStackLen <= cvStack.Length
      && CHUNK_LEN * (t * Pow2(k)) <= |data|
      && cvStack[..cvStackLen] == StackOf(mode, data, t, k)
    }

    constructor Plain(c: Compress, iv: CV)
      ensures Valid() && fresh(Repr) && data == [] && mode == Mode(c, iv, 0)
    {
      mode := Mode(c, iv, 0);
      compress := c;
      keyWords := iv;
      flags := 0;
      chunk := new Chunk(Mode(c, iv, 0), c, iv, 0);
      cvStack := new CV[STACK_SLOTS];
      cvStackLen := 0;
      data := [];
    }

    constructor Keyed(c: Compress, key: seq<Byte>)
      requires |key| == 32
      ensures Valid() && fresh(Repr) && data == [] && mode == Mode(c, Words(key, 8), KEYED_HASH)
    {
      var k: CV := Words(key, 8);
      mode := Mode(c, k, KEYED_HASH);
      compress := c;
      keyWords := k;
      flags := KEYED_HASH;
      chunk := new Chunk(Mode(c, k, KEYED_HASH), c, k, KEYED_HASH);
      cvStack := new CV[STACK_SLOTS];
      cvStackLen := 0;
      data := [];
    }

    /**
     * Merges the chaining value of a completed chunk into the stack: each trailing zero bit of the
     * chunk count marks a subtree that is now complete. The stack never underflows and never
     * outgrows its 54 slots.
     */
    method AddChunkCv(cv: CV, totalChunks: nat)
      requires mode == Mode(compress, keyWords, flags)
      requires cvStack.Length == STACK_SLOTS
      requires totalChunks > 0 && CHUNK_LEN * totalChunks <= |data| && CHUNK_LEN * totalChunks < INPUT_LIMIT
      requires StackHolds(totalChunks - 1, 0)
      requires cv == Subtree(mode, data, totalChunks - 1, 1)
      modifies this`cvStackLen, cvStack
      ensures StackHolds(totalChunks, 0)
    {
      hide TreeOutput, StackOf, ParentOutput, ChainingValue, Subtree, ParentCv;
      var t, merged := totalChunks, cv;
      ghost var k := 0;
      while t % 2 == 0
        invariant t > 0 && t * Pow2(k) == totalChunks
        invariant StackHolds(t - 1, k)
        invariant (t - 1) * Pow2(k) + Pow2(k) == totalChunks
        invariant merged == Subtree(mode, data, (t - 1) * Pow2(k), Pow2(k))
        invariant StackOf(mode, data, t, k) == StackOf(mode, data, totalChunks, 0)
        decreases t
      {
        ghost var a := PopMerge(mode, data, t, k);
        MergeSubtrees(mode, data, a, k);
        cvStackLen := cvStackLen - 1;
        merged := ParentCv(cvStack[cvStackLen], merged);
        t, k := t / 2, k + 1;
      }
      PushLast(mode, data, t, k);
      StackFits(t, k, totalChunks);
      cvStack[cvStackLen] := merged;
      cvStackLen := cvStackLen + 1;
    }

    /** A full chunk goes to the stack once a further byte is known to follow it. */
    method FlushChunk()
      requires Valid() && |chunk.bytes| == CHUNK_LEN && |data| < INPUT_LIMIT
      modifies this`cvStackLen, chunk, chunk.block, cvStack
      ensures Linked() && data == old(data) && chunk.bytes == []
    {
      hide TreeOutput, StackOf, ChunkOutput;
      var total := chunk.counter + 1;
      ghost var c := Chunks(data, chunk.counter, 1);
      assert c == chunk.bytes;
      ChunkIsSubtree(mode, data, chunk.counter);
      var o := chunk.Out();
      var cv := compress(o.inputCv, o.block, o.counter, o.blockLen, o.flags);
      AddChunkCv(cv, total);
      chunk.Init(total, keyWords);
      assert data[CHUNK_LEN * total..] == [];
    }

    /** Hands bytes that fit to the current chunk. */
    method Absorb(piece: seq<Byte>)
      requires Linked() && 0 < |piece| <= CHUNK_LEN - |chunk.bytes|
      requires |data| + |piece| <= INPUT_LIMIT
      modifies this`data, chunk, chunk.block
      ensures Valid() && data == old(data) + piece
    {
      hide TreeOutput, StackOf;
      StackExtends(mode, data, piece, chunk.counter, 0);
      assert (data + piece)[CHUNK_LEN * chunk.counter..] == data[CHUNK_LEN * chunk.counter..] + piece;
      chunk.Update(piece);
      data := data + piece;
    }

    /** One turn of the update loop: takes as much of the input as the current chunk has room for. */
    method Take(input: seq<Byte>) returns (take: nat)
      requires Valid() && |input| > 0 && |data| + |input| <= INPUT_LIMIT
      modifies this`cvStackLen, this`data, chunk, chunk.block, cvStack
      ensures 0 < take <= |input|
      ensures Valid() && data == old(data) + input[..take]
    {
      hide StackOf, ChunkChain, PaddedWords, Words, Zeros;
      if chunk.Length() == CHUNK_LEN {
        FlushChunk();
      }
      var want := CHUNK_LEN - chunk.Length();
      take := if |input| < want then |input| else want;
      Absorb(input[..take]);
    }

    method Update(input: seq<Byte>)
      requires Valid() && |data| + |input| <= INPUT_LIMIT
      modifies this`cvStackLen, this`data, chunk, chunk.block, cvStack
      ensures Valid() && data == old(data) + input
    {
      hide Valid, Chunk.Valid;
      var rest := input;
      while |rest| > 0
        invariant Valid()
        invariant data + rest == old(data) + input
        decreases |rest|
      {
        assert |data + rest| == |old(data) + input|;
        var take := Take(rest);
        assert rest == rest[..take] + rest[take..];
        rest := rest[take..];
      }
    }

    /** The digest of everything absorbed; the hasher itself is left as it was. */
    method Final() returns (out: seq<Byte>)
      requires Valid()
      ensures out == TreeHash(mode, data)
    {
      hide TreeOutput;
      var o := chunk.Out();
      var remaining := cvStackLen;
      ghost var stack := cvStack[..cvStackLen];
      ghost var start := o;
      assert stack[..remaining] == stack;
      while remaining > 0
        invariant remaining <= |stack|
        invariant FoldDown(mode, stack[..remaining], o) == FoldDown(mode, stack, start)
      {
        ghost var was := o;
        ghost var below := stack[..remaining];
        remaining := remaining - 1;
        assert below[..remaining] == stack[..remaining];
        var right := compress(o.inputCv, o.block, o.counter, o.blockLen, o.flags);
        o := ParentOut(cvStack[remaining], right);
        assert o == ParentOutput(mode, stack[remaining], ChainingValue(mode, was));
      }
      RestIsChunk(mode, data, chunk.counter);
      FoldIsTree(mode, data, chunk.counter, 0, chunk.counter);
      out := BytesOfWords(compress(o.inputCv, o.block, 0, o.blockLen, o.flags | ROOT));
    }

    lemma StackFits(t: nat, k: nat, totalChunks: nat)
      requires CHUNK_LEN * (t * Pow2(k)) <= |data|
      requires CHUNK_LEN * totalChunks <= |data| && CHUNK_LEN * totalChunks < INPUT_LIMIT
      requires StackOf(mode, data, t, k) == StackOf(mode, data, totalChunks, 0)
      ensures |StackOf(mode, data, t, k)| <= STACK_SLOTS
    {
      StackLength(mode, data, totalChunks, 0);
      assert Pow2(54) == 0x40_0000_0000_0000 by { Pow2At54(); }
      PopCountBound(totalChunks, 54);
    }

    function ParentOut(left: CV, right: CV): (o: Output)
      requires mode == Mode(compress, keyWords, flags)
      ensures o == ParentOutput(mode, left, right)
    {
      var words: BlockWords := left + right;
      Output(keyWords, words, 0, BLOCK_LEN, flags | PARENT)
    }

    function ParentCv(left: CV, right: CV): (r: CV)
      requires mode == Mode(compress, keyWords, flags)
      ensures r == ChainingValue(mode, ParentOutput(mode, left, right))
    {
      var o := ParentOut(left, right);
      compress(o.inputCv, o.block, o.counter, o.blockLen, o.flags)
    }
  }

  lemma Pow2At54()
    ensures Pow2(54) == 0x40_0000_0000_0000
  {
    assert Pow2(9) == 512;
    assert Pow2(18) == 0x4_0000;
    assert Pow2(27) == 0x800_0000;
    assert Pow2(36) == 0x10_0000_0000;
    assert Pow2(45) == 0x2000_0000_0000;
  }

  lemma ChunkIsSubtree(m: Mode, data: seq<Byte>, a: nat)
    requires CHUNK_LEN * (a + 1) <= |data|
    ensures ChainingValue(m, ChunkOutput(m, Chunks(data, a, 1), a)) == Subtree(m, data, a, 1)
  {}

  lemma RestIsChunk(m: Mode, data: seq<Byte>, r: nat)
    requires CHUNK_LEN * r <= |data| <= CHUNK_LEN * (r + 1)
    ensures RestTree(m, data, r) == ChunkOutput(m, data[CHUNK_LEN * r..], r)
  {}

  /**
   * The stack of a hasher at any moment: one entry per one bit of the chunk count, never more than
   * its 54 slots; entry i is the chaining value of a complete subtree whose size is a power of two,
   * and the sizes decrease towards the top.
   */
  lemma StackShape(h: Hasher, i: nat)
    requires h.Valid() && i < h.cvStackLen
    ensures h.cvStackLen == PopCount(h.chunk.counter) <= STACK_SLOTS
    ensures var sizes := Sizes(h.chunk.counter, 0);
      && |sizes| == h.cvStackLen
      && Sum(sizes) == h.chunk.counter
      && IsPow2(sizes[i])
      && (forall j :: i < j < |sizes| ==> sizes[i] > sizes[j])
      && CHUNK_LEN * (Sum(sizes[..i]) + sizes[i]) <= |h.data|
      && h.cvStack[i] == Subtree(h.mode, h.data, Sum(sizes[..i]), sizes[i])
  {
    var t := h.chunk.counter;
    assert t * Pow2(0) == t;
    StackLength(h.mode, h.data, t, 0);
    StackEntries(h.mode, h.data, t, 0, i);
    SizesShape(t, 0);
    assert h.cvStack[i] == h.cvStack[..h.cvStackLen][i];
  }

  function Concat(pieces: seq<seq<Byte>>): seq<Byte> {
    if pieces == [] then [] else pieces[0] + Concat(pieces[1..])
  }

  method UpdateAll(h: Hasher, pieces: seq<seq<Byte>>)
    requires h.Valid() && |h.data| + |Concat(pieces)| <= INPUT_LIMIT
    modifies h.Repr
    ensures h.Valid() && h.data == old(h.data) + Concat(pieces)
  {
    var i := 0;
    while i < |pieces|
      invariant i <= |pieces| && h.Valid()
      invariant h.data + Concat(pieces[i..]) == old(h.data) + Concat(pieces)
    {
      assert pieces[i..][0] == pieces[i] && pieces[i..][1..] == pieces[i + 1..];
      assert h.data + (pieces[i] + Concat(pieces[i + 1..])) == (h.data + pieces[i]) + Concat(pieces[i + 1..]);
      h.Update(pieces[i]);
      i := i + 1;
    }
    assert h.data + [] == h.data;
  }

  /** One digest over an input that arrives in any pieces: only their concatenation matters. */
  method DigestPieces(c: Compress, iv: CV, pieces: seq<seq<Byte>>) returns (out: seq<Byte>)
    requires |Concat(pieces)| <= INPUT_LIMIT
    ensures out == TreeHash(Mode(c, iv, 0), Concat(pieces))
  {
    hide TreeHash;
    var h := new Hasher.Plain(c, iv);
    UpdateAll(h, pieces);
    assert [] + Concat(pieces) == Concat(pieces);
    out := h.Final();
  }

  /** The keyed mode, likewise. */
  method KeyedDigestPieces(c: Compress, key: seq<Byte>, pieces: seq<seq<Byte>>) returns (out: seq<Byte>)
    requires |key| == 32 && |Concat(pieces)| <= INPUT_LIMIT
    ensures out == TreeHash(Mode(c, Words(key, 8), KEYED_HASH), Concat(pieces))
  {
    hide TreeHash;
    var h := new Hasher.Keyed(c, key);
    UpdateAll(h, pieces);
    assert [] + Concat(pieces) == Concat(pieces);
    out := h.Final();
  }
}
