/** The hash tree of the BLAKE3 specification: chunk chaining values (section 2.4),
    parent nodes (2.5), the left-full tree (2.1) and extendable output (2.6), over an
    arbitrary compression function. */
module Blake3Spec {
  import opened Prelude
  import opened Blake3Bits

  type Word = bv32

  const BLOCK_LEN: nat := 64
  const CHUNK_LEN: nat := 1024
  const MAX_DEPTH: nat := 54

  const CHUNK_START: bv8 := 1
  const CHUNK_END: bv8 := 2
  const PARENT: bv8 := 4
  const ROOT: bv8 := 8

  type Words8 = s: seq<Word> | |s| == 8 witness seq(8, _ => 0)
  type Words16 = s: seq<Word> | |s| == 16 witness seq(16, _ => 0)
  type Block = s: seq<byte> | |s| == 64 witness seq(64, _ => 0)

  /** A chaining value as stored in the CV stack: 32 bytes. */
  type Cv = s: seq<byte> | |s| == 32 witness seq(32, _ => 0)

  /** Chaining value in, block, block length, counter, flags; all 16 words out. */
  type CompressFn = (Words8, Block, nat, nat, bv8) -> Words16

  /** What is fixed for the life of a hasher. */
  datatype Mode = Mode(compress: CompressFn, key: Words8, flags: bv8)

  /** store32(): little-endian bytes of one word. */
  function StoreWord(w: Word): (b: seq<byte>)
    ensures |b| == 4
  {
    [(w & 0xff) as byte, ((w >> 8) & 0xff) as byte, ((w >> 16) & 0xff) as byte, ((w >> 24) & 0xff) as byte]
  }

  function StoreWords(ws: seq<Word>): (b: seq<byte>)
    ensures |b| == 4 * |ws|
  {
    if ws == [] then [] else StoreWord(ws[0]) + StoreWords(ws[1..])
  }

  /** A node before its compression: the operands of the last compression, from which
      either a chaining value or root output is made. */
  datatype Output = Output(cv: Words8, block: Block, blockLen: nat, counter: nat, flags: bv8)

  /** One compression, keeping the first eight words. */
  function Compress(m: Mode, cv: Words8, block: Block, blockLen: nat, counter: nat, flags: bv8): Words8 {
    m.compress(cv, block, blockLen, counter, flags)[..8]
  }

  function ChainingValue(m: Mode, o: Output): Cv {
    StoreWords(Compress(m, o.cv, o.block, o.blockLen, o.counter, o.flags))
  }

  /** A block of the output stream of a root node. */
  function RootBlock(m: Mode, o: Output, counter: nat): Block {
    StoreWords(m.compress(o.cv, o.block, o.blockLen, counter, o.flags | ROOT))
  }

  function RootByte(m: Mode, o: Output, i: nat): byte {
    RootBlock(m, o, i / 64)[i % 64]
  }

  function RootBytes(m: Mode, o: Output, seek: nat, n: nat): (b: seq<byte>)
    ensures |b| == n
  {
    seq(n, i requires 0 <= i < n => RootByte(m, o, seek + i))
  }

  // --------------------------------------------------------------------- chunks

  function Pad(b: seq<byte>): Block
    requires |b| <= BLOCK_LEN
  {
    b + seq(BLOCK_LEN - |b|, _ => 0)
  }

  function StartFlag(first: bool): bv8 { if first then CHUNK_START else 0 }

  /** The rest of a chunk: every block but the last is chained, the last block is the
      node's.  `first` says that no block has been chained yet. */
  function ChunkOutputFrom(m: Mode, cv: Words8, input: seq<byte>, counter: nat, first: bool): Output
    decreases |input|
  {
    if |input| <= BLOCK_LEN then
      Output(cv, Pad(input), |input|, counter, m.flags | StartFlag(first) | CHUNK_END)
    else
      ChunkOutputFrom(m, Compress(m, cv, input[..BLOCK_LEN], BLOCK_LEN, counter, m.flags | StartFlag(first)),
                      input[BLOCK_LEN..], counter, false)
  }

  function ChunkOutput(m: Mode, input: seq<byte>, counter: nat): Output {
    ChunkOutputFrom(m, m.key, input, counter, true)
  }

  function ChunkCv(m: Mode, input: seq<byte>, counter: nat): Cv {
    ChainingValue(m, ChunkOutput(m, input, counter))
  }

  // ----------------------------------------------------------------------- tree

  function ParentOutput(m: Mode, l: Cv, r: Cv): Output {
    Output(m.key, l + r, BLOCK_LEN, 0, m.flags | PARENT)
  }

  function Parent(m: Mode, l: Cv, r: Cv): Cv {
    ChainingValue(m, ParentOutput(m, l, r))
  }

  /** left_len(): the bytes that go to the left subtree of an input of more than one
      chunk.  The left subtree is the largest complete one that leaves something over. */
  function LeftLen(n: nat): (l: nat)
    requires n > CHUNK_LEN
    ensures l % CHUNK_LEN == 0 && IsPow2(l / CHUNK_LEN)
    ensures 0 < l < n <= 2 * l
  {
    TopBit((n - 1) / CHUNK_LEN) * CHUNK_LEN
  }

  /** Section 2.1 leaves no choice for the size of the left subtree. */
  lemma LeftLenUnique(n: nat, l: nat)
    requires n > CHUNK_LEN
    requires l % CHUNK_LEN == 0 && IsPow2(l / CHUNK_LEN) && l < n <= 2 * l
    ensures l == LeftLen(n)
  {
    TopBitUnique((n - 1) / CHUNK_LEN, l / CHUNK_LEN);
  }

  /** The node over `input`, whose first chunk has number `counter`. */
  function NodeOutput(m: Mode, input: seq<byte>, counter: nat): Output
    decreases |input|
  {
    if |input| <= CHUNK_LEN then
      ChunkOutput(m, input, counter)
    else
      var l := LeftLen(|input|);
      ParentOutput(m, ChainingValue(m, NodeOutput(m, input[..l], counter)),
                   ChainingValue(m, NodeOutput(m, input[l..], counter + l / CHUNK_LEN)))
  }

  /** The hash of `input`: `n` bytes of the root's output stream, from `seek` on. */
  function Hash(m: Mode, input: seq<byte>, seek: nat, n: nat): (b: seq<byte>)
    ensures |b| == n
  {
    RootBytes(m, NodeOutput(m, input, 0), seek, n)
  }
}
