/** What the tree of the specification comes down to, byte by byte, with all counters, lengths
    and flags written out. */
module Blake3Words {
  import opened Arithmetic
  import opened Prelude
  import opened Blake3Bits
  import opened Blake3Spec

  // ------------------------------------------------------------------ bytes of words

  function Low(w: Word): byte { (w & 0xff) as byte }

  /** Byte `j` of a word, the lowest first. */
  function ByteOf(w: Word, j: nat): byte
    requires j < 4
  {
    Low(w >> (8 * j))
  }

  lemma FirstByte(w: Word, j: nat)
    requires j == 0
    ensures ByteOf(w, j) == Low(w)
  {
    hide Low;
    assert 8 * j == 0;
  }

  lemma SecondByte(w: Word, j: nat)
    requires j == 1
    ensures ByteOf(w, j) == Low(w >> 8)
  {
    hide Low;
    assert 8 * j == 8;
  }

  lemma ThirdByte(w: Word, j: nat)
    requires j == 2
    ensures ByteOf(w, j) == Low(w >> 16)
  {
    hide Low;
    assert 8 * j == 16;
  }

  lemma FourthByte(w: Word, j: nat)
    requires j == 3
    ensures ByteOf(w, j) == Low(w >> 24)
  {
    hide Low;
    assert 8 * j == 24;
  }

  lemma WordByte(w: Word, j: nat)
    requires j < 4
    ensures StoreWord(w)[j] == ByteOf(w, j)
  {
    hide ByteOf;
    if j == 0 {
      FirstByte(w, j);
    } else if j == 1 {
      SecondByte(w, j);
    } else if j == 2 {
      ThirdByte(w, j);
    } else {
      FourthByte(w, j);
    }
  }

  /** Words are stored four bytes each, one after the other. */
  lemma {:induction false} WordsByte(ws: seq<Word>, i: nat)
    requires i < 4 * |ws|
    ensures StoreWords(ws)[i] == ByteOf(ws[i / 4], i % 4)
  {
    hide ByteOf, StoreWord;
    if i < 4 {
      WordByte(ws[0], i);
    } else {
      WordsByte(ws[1..], i - 4);
      assert (i - 4) / 4 == i / 4 - 1 && (i - 4) % 4 == i % 4;
    }
  }

  /** A chaining value is the first eight words of the node's compression. */
  lemma ChainingValueByte(m: Mode, o: Output, i: nat)
    requires i < 32
    ensures ChainingValue(m, o)[i] == ByteOf(m.compress(o.cv, o.block, o.blockLen, o.counter, o.flags)[i / 4], i % 4)
  {
    hide ByteOf, StoreWords;
    WordsByte(Compress(m, o.cv, o.block, o.blockLen, o.counter, o.flags), i);
  }

  lemma Within(p: nat)
    ensures p % 64 % 4 == p % 4
  {
    var q, r := p / 64, p % 64;
    assert p == 4 * (16 * q + r / 4) + r % 4;
    EuclidUnique(p, 4, 16 * q + r / 4, r % 4);
  }

  lemma RootBytesAt(m: Mode, o: Output, seek: nat, n: nat, i: nat)
    requires i < n
    ensures var p := seek + i;
            RootBytes(m, o, seek, n)[i]
            == StoreWords(m.compress(o.cv, o.block, o.blockLen, p / 64, o.flags | 8))[p % 64]
  {
    hide StoreWords;
    assert RootBytes(m, o, seek, n)[i] == RootByte(m, o, seek + i);
  }

  /** The output stream of a root: block `k` is the sixteen words of the node's compression with
      the counter `k` instead of the node's own, and with the root flag. */
  lemma RootBytesByte(m: Mode, o: Output, seek: nat, n: nat, i: nat)
    requires i < n
    ensures var p := seek + i;
            RootBytes(m, o, seek, n)[i]
            == ByteOf(m.compress(o.cv, o.block, o.blockLen, p / 64, o.flags | 8)[p % 64 / 4], p % 4)
  {
    hide ByteOf, StoreWords, RootBytes;
    var p := seek + i;
    RootBytesAt(m, o, seek, n, i);
    WordsByte(m.compress(o.cv, o.block, o.blockLen, p / 64, o.flags | 8), p % 64);
    Within(p);
  }

  // ------------------------------------------------------------------------- chunks

  lemma ChunkFlags(flags: bv8)
    ensures flags | 1 | 2 == flags | 3 && flags | 3 | 8 == flags | 11
    ensures flags | 0 == flags && flags | 2 | 8 == flags | 10 && flags | 4 | 8 == flags | 12
  {
  }

  function Zeros(n: nat): seq<byte> { seq(n, _ => 0) }

  /** The chaining value after the first `j` blocks of a chunk, all of them full. */
  function After(m: Mode, input: seq<byte>, counter: nat, j: nat): Words8
    requires 64 * j <= |input|
  {
    if j == 0 then m.key
    else
      m.compress(After(m, input, counter, j - 1), input[64 * j - 64..64 * j], 64, counter,
                 if j == 1 then m.flags | 1 else m.flags)[..8]
  }

  /** `j` is the last block of the input; an empty input has one block as well. */
  predicate LastBlock(input: seq<byte>, j: nat) {
    64 * j <= |input| <= 64 * j + 64 && (j > 0 ==> 64 * j < |input|)
  }

  function LastOf(input: seq<byte>, j: nat): Block
    requires LastBlock(input, j)
  {
    input[64 * j..] + Zeros(64 * j + 64 - |input|)
  }

  lemma FromBlock(m: Mode, input: seq<byte>, counter: nat, i: nat, j: nat)
    requires i < j && LastBlock(input, j)
    ensures ChunkOutputFrom(m, After(m, input, counter, i), input[64 * i..], counter, i == 0)
            == ChunkOutputFrom(m, After(m, input, counter, i + 1), input[64 * (i + 1)..], counter, false)
  {
    hide After;
    var rest := input[64 * i..];
    assert rest[..64] == input[64 * i..64 * i + 64] && rest[64..] == input[64 * (i + 1)..];
    ChunkFlags(m.flags);
    AfterOne(m, input, counter, i);
  }

  lemma AfterOne(m: Mode, input: seq<byte>, counter: nat, i: nat)
    requires 64 * i + 64 <= |input|
    ensures After(m, input, counter, i + 1)
            == m.compress(After(m, input, counter, i), input[64 * i..64 * i + 64], 64, counter,
                          if i == 0 then m.flags | 1 else m.flags)[..8]
  {
  }

  lemma {:induction false} ChunkFrom(m: Mode, input: seq<byte>, counter: nat, i: nat, j: nat)
    requires i <= j && LastBlock(input, j)
    ensures ChunkOutputFrom(m, After(m, input, counter, i), input[64 * i..], counter, i == 0)
            == Output(After(m, input, counter, j), LastOf(input, j), |input| - 64 * j, counter,
                      if j == 0 then m.flags | 3 else m.flags | 2)
    decreases j - i
  {
    hide After;
    if i < j {
      FromBlock(m, input, counter, i, j);
      ChunkFrom(m, input, counter, i + 1, j);
    } else {
      ChunkFlags(m.flags);
      assert Pad(input[64 * j..]) == LastOf(input, j);
    }
  }

  /** A chunk: all blocks are compressed with the chunk's number, the first one from the key
      and with flag 1, the last one with its length, padding and flag 2. */
  lemma ChunkNode(m: Mode, input: seq<byte>, counter: nat, j: nat)
    requires LastBlock(input, j)
    ensures ChunkOutput(m, input, counter)
            == Output(After(m, input, counter, j), LastOf(input, j), |input| - 64 * j, counter,
                      if j == 0 then m.flags | 3 else m.flags | 2)
  {
    hide LastOf, LastBlock;
    ChunkFrom(m, input, counter, 0, j);
    assert input[64 * 0..] == input;
  }

  // -------------------------------------------------------------------- whole inputs

  /** The hash of at most one block. */
  lemma HashOfBlock(m: Mode, input: seq<byte>, seek: nat, n: nat, i: nat)
    requires |input| <= 64 && i < n
    ensures var p := seek + i;
            Hash(m, input, seek, n)[i]
            == ByteOf(m.compress(m.key, input + Zeros(64 - |input|), |input|, p / 64, m.flags | 11)[p % 64 / 4], p % 4)
  {
    hide ByteOf, RootBytes;
    RootBytesByte(m, NodeOutput(m, input, 0), seek, n, i);
    ChunkNode(m, input, 0, 0);
    ChunkFlags(m.flags);
    assert LastOf(input, 0) == input + Zeros(64 - |input|);
  }

  /** The hash of several blocks of one chunk, `j` being the last of them. */
  lemma HashOfChunk(m: Mode, input: seq<byte>, seek: nat, n: nat, i: nat, j: nat)
    requires 64 < |input| <= 1024 && i < n && 64 * j < |input| <= 64 * j + 64
    ensures var p := seek + i;
            Hash(m, input, seek, n)[i]
            == ByteOf(m.compress(After(m, input, 0, j), LastOf(input, j), |input| - 64 * j, p / 64,
                                 m.flags | 10)[p % 64 / 4], p % 4)
  {
    hide ByteOf, RootBytes, After, LastOf;
    RootBytesByte(m, NodeOutput(m, input, 0), seek, n, i);
    ChunkNode(m, input, 0, j);
    ChunkFlags(m.flags);
  }

  /** A node over more than one chunk, `l` being the largest power of two of chunks that leaves
      something over: key, both chaining values, length 64, counter 0 and flag 4. */
  lemma InnerNode(m: Mode, input: seq<byte>, counter: nat, l: nat)
    requires |input| > 1024 && l % 1024 == 0 && IsPow2(l / 1024) && l < |input| <= 2 * l
    ensures NodeOutput(m, input, counter)
            == Output(m.key, ChainingValue(m, NodeOutput(m, input[..l], counter))
                             + ChainingValue(m, NodeOutput(m, input[l..], counter + l / 1024)),
                      64, 0, m.flags | 4)
  {
    hide ChainingValue, IsPow2, LeftLen, ChunkOutput;
    LeftLenUnique(|input|, l);
  }

  /** The hash of more than one chunk. */
  lemma HashOfTree(m: Mode, input: seq<byte>, seek: nat, n: nat, i: nat, l: nat)
    requires |input| > 1024 && l % 1024 == 0 && IsPow2(l / 1024) && l < |input| <= 2 * l && i < n
    ensures var p := seek + i;
            var left := ChainingValue(m, NodeOutput(m, input[..l], 0));
            var right := ChainingValue(m, NodeOutput(m, input[l..], l / 1024));
            Hash(m, input, seek, n)[i]
            == ByteOf(m.compress(m.key, left + right, 64, p / 64, m.flags | 12)[p % 64 / 4], p % 4)
  {
    hide ByteOf, RootBytes, ChainingValue, IsPow2, NodeOutput;
    RootBytesByte(m, NodeOutput(m, input, 0), seek, n, i);
    InnerNode(m, input, 0, l);
    ChunkFlags(m.flags);
  }
}
