/**
 * The BLAKE3 tree hash as the BLAKE3 paper defines it (sections 2.1, 2.4 and 2.5): chunks of up
 * to 1024 bytes, combined by a left-balanced binary tree whose left subtrees are full.
 * The compression function is a parameter; nothing is assumed about it.
 */
module Blake3Tree {
  import opened Bytes

  const BLOCK_LEN: nat := 64
  const CHUNK_LEN: nat := 1024

  const CHUNK_START: bv32 := 1
  const CHUNK_END: bv32 := 2
  const PARENT: bv32 := 4
  const ROOT: bv32 := 8
  const KEYED_HASH: bv32 := 16

  type CV = s: seq<U32> | |s| == 8 witness seq(8, _ => 0)
  type BlockWords = s: seq<U32> | |s| == 16 witness seq(16, _ => 0)

  /** Chaining value, block words, counter, block length, flags; the first eight output words. */
  type Compress = (CV, BlockWords, nat, nat, bv32) -> CV

  /** A compression that has been set up but not run. */
  datatype Output = Output(inputCv: CV, block: BlockWords, counter: nat, blockLen: nat, flags: bv32)

  /** What every node of one hash shares. */
  datatype Mode = Mode(compress: Compress, key: CV, flags: bv32)

  function ChainingValue(m: Mode, o: Output): CV {
    m.compress(o.inputCv, o.block, o.counter, o.blockLen, o.flags)
  }

  /** The 32 output bytes: the counter is the output-block counter, which is 0. */
  function RootBytes(m: Mode, o: Output): seq<Byte> {
    BytesOfWords(m.compress(o.inputCv, o.block, 0, o.blockLen, o.flags | ROOT))
  }

  function BytesOfWords(w: seq<U32>): (r: seq<Byte>)
    ensures |r| == 4 * |w|
  {
    if w == [] then [] else LE(w[0], 4) + BytesOfWords(w[1..])
  }

  function Word(b: seq<Byte>): U32
    requires |b| == 4
  {
    Widths();
    FromLE(b)
  }

  function Words(block: seq<Byte>, n: nat): (w: seq<U32>)
    requires |block| == 4 * n
    ensures |w| == n
  {
    seq(n, i requires 0 <= i < n => Word(block[4 * i..4 * i + 4]))
  }

  /** The words of a block of up to 64 bytes, zero-padded. */
  function PaddedWords(b: seq<Byte>): BlockWords
    requires |b| <= BLOCK_LEN
  {
    Words(b + Zeros(BLOCK_LEN - |b|), 16)
  }

  // ---- chunks (section 2.4) ----

  function StartFlag(blocks: nat): bv32 {
    if blocks == 0 then CHUNK_START else 0
  }

  /** The chaining value inside a chunk after its first n full blocks. */
  function ChunkChain(m: Mode, input: seq<Byte>, counter: nat, n: nat): CV
    requires BLOCK_LEN * n <= |input|
  {
    if n == 0 then m.key
    else
      m.compress(ChunkChain(m, input, counter, n - 1),
                 PaddedWords(input[BLOCK_LEN * (n - 1)..BLOCK_LEN * n]),
                 counter, BLOCK_LEN, m.flags | StartFlag(n - 1))
  }

  /** How many blocks of a chunk precede its last one; the last block is empty only when the chunk is. */
  function LeadingBlocks(len: nat): (n: nat)
    ensures BLOCK_LEN * n <= len <= BLOCK_LEN * (n + 1)
    ensures n > 0 ==> BLOCK_LEN * n < len
  {
    if len == 0 then 0 else (len - 1) / BLOCK_LEN
  }

  function ChunkOutput(m: Mode, input: seq<Byte>, counter: nat): Output
    requires |input| <= CHUNK_LEN
  {
    var n := LeadingBlocks(|input|);
    Output(ChunkChain(m, input, counter, n), PaddedWords(input[BLOCK_LEN * n..]), counter,
           |input| - BLOCK_LEN * n, m.flags | StartFlag(n) | CHUNK_END)
  }

  // ---- parents and the tree (sections 2.1 and 2.5) ----

  function ParentOutput(m: Mode, left: CV, right: CV): Output {
    Output(m.key, left + right, 0, BLOCK_LEN, m.flags | PARENT)
  }

  function Pow2(k: nat): (p: nat)
    ensures p > 0
  {
    if k == 0 then 1 else 2 * Pow2(k - 1)
  }

  /** The largest power of two not above n. */
  function Pow2Below(n: nat): (p: nat)
    requires n > 0
    ensures 0 < p <= n < 2 * p
  {
    if n < 2 then 1 else 2 * Pow2Below(n / 2)
  }

  /** How many chunks go left when len bytes are more than one chunk. */
  function LeftChunks(len: nat): (p: nat)
    requires len > CHUNK_LEN
    ensures 0 < CHUNK_LEN * p < len <= CHUNK_LEN * 2 * p
  {
    Pow2Below((len - 1) / CHUNK_LEN)
  }

  function TreeOutput(m: Mode, input: seq<Byte>, first: nat): Output
    decreases |input|
  {
    if |input| <= CHUNK_LEN then ChunkOutput(m, input, first)
    else
      var p := LeftChunks(|input|);
      ParentOutput(m,
                   ChainingValue(m, TreeOutput(m, input[..CHUNK_LEN * p], first)),
                   ChainingValue(m, TreeOutput(m, input[CHUNK_LEN * p..], first + p)))
  }

  /** BLAKE3 of an input in one mode. */
  function TreeHash(m: Mode, input: seq<Byte>): (r: seq<Byte>)
    ensures |r| == 32
  {
    RootBytes(m, TreeOutput(m, input, 0))
  }

  // ---- the left subtree is the one the paper asks for ----

  ghost predicate IsPow2(p: nat) {
    exists k: nat :: p == Pow2(k)
  }

  lemma {:induction false} Pow2BelowIsPow2(n: nat)
    requires n > 0
    ensures IsPow2(Pow2Below(n))
  {
    if n < 2 {
      assert Pow2(0) == 1;
    } else {
      Pow2BelowIsPow2(n / 2);
      var k: nat :| Pow2Below(n / 2) == Pow2(k);
      assert Pow2Below(n) == Pow2(k + 1);
    }
  }

  lemma {:induction false} Pow2BelowUnique(n: nat, k: nat)
    requires Pow2(k) <= n < 2 * Pow2(k)
    ensures Pow2Below(n) == Pow2(k)
  {
    if k > 0 {
      Pow2BelowUnique(n / 2, k - 1);
    }
  }

  lemma {:induction false} Pow2Monotone(i: nat, j: nat)
    requires i < j
    ensures 2 * Pow2(i) <= Pow2(j)
  {
    if i + 1 < j {
      Pow2Monotone(i, j - 1);
    }
  }

  /**
   * Section 2.1: the left subtree holds the largest power of two of full chunks that leaves the right one
   * non-empty.
   */
  lemma LeftSubtreeIsLargestFull(len: nat, q: nat)
    requires len > CHUNK_LEN
    ensures IsPow2(LeftChunks(len)) && CHUNK_LEN * LeftChunks(len) < len
    ensures IsPow2(q) && CHUNK_LEN * q < len ==> q <= LeftChunks(len)
  {
    var p := LeftChunks(len);
    Pow2BelowIsPow2((len - 1) / CHUNK_LEN);
    if IsPow2(q) && CHUNK_LEN * q < len && q > p {
      var i: nat :| p == Pow2(i);
      var j: nat :| q == Pow2(j);
      if i < j {
        Pow2Monotone(i, j);
      } else if j < i {
        Pow2Monotone(j, i);
      }
    }
  }
}
