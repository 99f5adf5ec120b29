/** The block-buffered chunk state. */
module Blake3Chunk {
  import opened Prelude
  import opened Blake3Spec

  /** The chaining value after the blocks of `p`, none of which is a chunk's last. */
  function Absorb(m: Mode, cv: Words8, p: seq<byte>, counter: nat, first: bool): Words8
    requires |p| % BLOCK_LEN == 0
    decreases |p|
  {
    if p == [] then cv
    else Absorb(m, Compress(m, cv, p[..BLOCK_LEN], BLOCK_LEN, counter, m.flags | StartFlag(first)),
                p[BLOCK_LEN..], counter, false)
  }

  lemma {:induction false} AbsorbBlock(m: Mode, cv: Words8, p: seq<byte>, b: Block, counter: nat, first: bool)
    requires |p| % BLOCK_LEN == 0
    ensures Absorb(m, cv, p + b, counter, first)
            == Compress(m, Absorb(m, cv, p, counter, first), b, BLOCK_LEN, counter,
                        m.flags | StartFlag(first && p == []))
    decreases |p|
  {
    hide Compress, StartFlag;
    if p == [] {
      assert p + b == b && b[..BLOCK_LEN] == b && b[BLOCK_LEN..] == [];
    } else {
      assert (p + b)[..BLOCK_LEN] == p[..BLOCK_LEN];
      assert (p + b)[BLOCK_LEN..] == p[BLOCK_LEN..] + b;
      AbsorbBlock(m, Compress(m, cv, p[..BLOCK_LEN], BLOCK_LEN, counter, m.flags | StartFlag(first)),
                  p[BLOCK_LEN..], b, counter, false);
    }
  }

  lemma AbsorbNothing(m: Mode, counter: nat)
    ensures Absorb(m, m.key, [], counter, true) == m.key
  {
  }

  /** Absorbing whole blocks early does not change the chunk's node, as long as something
      follows them. */
  lemma {:induction false} AbsorbThenOutput(
    m: Mode, cv: Words8, p: seq<byte>, x: seq<byte>, counter: nat, first: bool)
    requires |p| % BLOCK_LEN == 0 && (p == [] || x != [])
    ensures ChunkOutputFrom(m, cv, p + x, counter, first)
            == ChunkOutputFrom(m, Absorb(m, cv, p, counter, first), x, counter, first && p == [])
    decreases |p|
  {
    if p == [] {
      assert p + x == x;
    } else {
      assert (p + x)[..BLOCK_LEN] == p[..BLOCK_LEN];
      assert (p + x)[BLOCK_LEN..] == p[BLOCK_LEN..] + x;
      AbsorbThenOutput(m, Compress(m, cv, p[..BLOCK_LEN], BLOCK_LEN, counter, m.flags | StartFlag(first)),
                       p[BLOCK_LEN..], x, counter, false);
    }
  }

  lemma ThreeParts(x: seq<byte>, input: seq<byte>, start: nat, i: nat)
    requires start <= i <= |input|
    ensures x + input[..start] + input[start..i] + input[i..] == x + input
  {
  }

  /** blake3_chunk_state.  `bytes` is the part of the chunk seen so far. */
  class ChunkState {
    const mode: Mode
    const buf: array<byte>
    var cv: Words8
    var chunkCounter: nat
    var bufLen: nat
    var blocksCompressed: nat
    ghost var bytes: seq<byte>

    /** `bytes` split into what is in `cv` and what is in the buffer, which is padded with
        zeros. */
    ghost predicate Split()
      reads this, buf
      ensures Split() ==> |bytes| <= CHUNK_LEN && bufLen <= BLOCK_LEN && buf.Length == BLOCK_LEN
    {
      && buf.Length == BLOCK_LEN
      && bufLen <= BLOCK_LEN
      && |bytes| == BLOCK_LEN * blocksCompressed + bufLen <= CHUNK_LEN
      && buf[..] == Pad(bytes[|bytes| - bufLen..])
      && cv == Absorb(mode, mode.key, bytes[..|bytes| - bufLen], chunkCounter, true)
    }

    /** The last block stays in the buffer until more input shows that it is not the
        chunk's last. */
    ghost predicate Valid()
      reads this, buf
      ensures Valid() ==> |bytes| <= CHUNK_LEN && buf.Length == BLOCK_LEN
    {
      Split() && (bytes != [] ==> bufLen > 0)
    }

    /** chunk_state_init() */
    constructor (mode: Mode)
      ensures Valid() && fresh(buf)
      ensures this.mode == mode && chunkCounter == 0 && bytes == []
    {
      this.mode := mode;
      this.buf := new byte[BLOCK_LEN](_ => 0);
      this.cv := mode.key;
      this.chunkCounter := 0;
      this.bufLen := 0;
      this.blocksCompressed := 0;
      this.bytes := [];
      new;
      assert buf[..] == Pad([]);
    }

    /** chunk_state_reset() */
    method Reset(counter: nat)
      requires Valid()
      modifies this, buf
      ensures Valid() && chunkCounter == counter && bytes == []
    {
      hide Valid, Pad;
      cv := mode.key;
      chunkCounter := counter;
      blocksCompressed := 0;
      ClearBuf();
      bytes := [];
      Emptied();
    }

    lemma Emptied()
      requires buf.Length == BLOCK_LEN && buf[..] == Pad([]) && bufLen == 0
      requires bytes == [] && blocksCompressed == 0 && cv == mode.key
      ensures Valid()
    {
      hide Absorb, Pad;
      assert bytes[..0] == [] && bytes[0..] == [];
      AbsorbNothing(mode, chunkCounter);
    }

    /** The memset() of the buffer. */
    method ClearBuf()
      requires buf.Length == BLOCK_LEN
      modifies this`bufLen, buf
      ensures bufLen == 0 && buf[..] == Pad([])
    {
      for i := 0 to BLOCK_LEN
        invariant forall j | 0 <= j < i :: buf[j] == 0
      {
        buf[i] := 0;
      }
      bufLen := 0;
    }

    /** A chunk that does not start the input is numbered before it gets any. */
    method SetCounter(counter: nat)
      requires Valid() && bytes == []
      modifies this`chunkCounter
      ensures Valid() && chunkCounter == counter
    {
      chunkCounter := counter;
    }

    /** chunk_state_len() */
    function Len(): (n: nat)
      requires Valid()
      reads this, buf
      ensures n == |bytes|
    {
      BLOCK_LEN * blocksCompressed + bufLen
    }

    /** chunk_state_fill_buf() */
    method FillBuf(input: seq<byte>) returns (take: nat)
      requires Split() && |bytes| + |input| <= CHUNK_LEN
      modifies this`bufLen, this`bytes, buf
      ensures Split()
      ensures take == |input| || bufLen == BLOCK_LEN
      ensures take <= |input| && bufLen == old(bufLen) + take
      ensures bytes == old(bytes) + input[..take]
    {
      hide Absorb;
      var at := bufLen;
      take := BLOCK_LEN - at;
      if take > |input| {
        take := |input|;
      }
      ghost var before := buf[..];
      for i := 0 to take
        invariant forall j | 0 <= j < BLOCK_LEN ::
            buf[j] == if at <= j < at + i then input[j - at] else before[j]
        invariant bufLen == at && bytes == old(bytes)
      {
        buf[at + i] := input[i];
      }
      ghost var done := |bytes| - at;
      ghost var held := bytes[done..];
      bytes := bytes + input[..take];
      bufLen := at + take;
      assert bytes[..done] == old(bytes)[..done] && bytes[done..] == held + input[..take];
      assert buf[..] == Pad(held + input[..take]);
    }

    /** Compresses one block, either the buffer's or the caller's, into `cv`. */
    method CompressBlock(block: Block)
      requires |bytes| == BLOCK_LEN * blocksCompressed
      requires cv == Absorb(mode, mode.key, bytes, chunkCounter, true)
      modifies this`cv, this`blocksCompressed, this`bytes
      ensures bytes == old(bytes) + block && |bytes| == BLOCK_LEN * blocksCompressed
      ensures cv == Absorb(mode, mode.key, bytes, chunkCounter, true)
    {
      AbsorbBlock(mode, mode.key, bytes, block, chunkCounter, true);
      cv := Compress(mode, cv, block, BLOCK_LEN, chunkCounter, mode.flags | StartFlag(blocksCompressed == 0));
      blocksCompressed := blocksCompressed + 1;
      bytes := bytes + block;
    }

    /** The full buffer is compressed as soon as more input follows it. */
    method FlushBuf()
      requires Split() && bufLen == BLOCK_LEN
      modifies this, buf
      ensures Split() && bufLen == 0
      ensures bytes == old(bytes) && chunkCounter == old(chunkCounter)
    {
      ghost var all := bytes;
      var block := buf[..];
      bytes := bytes[..|bytes| - BLOCK_LEN];
      assert all == bytes + block;
      CompressBlock(block);
      ClearBuf();
      assert bytes[..|bytes|] == bytes && bytes[|bytes|..] == [];
    }

    /** chunk_state_update() */
    method Update(input: seq<byte>)
      requires Valid() && |bytes| + |input| <= CHUNK_LEN
      modifies this, buf
      ensures Valid() && bytes == old(bytes) + input && chunkCounter == old(chunkCounter)
    {
      hide Split;
      var start := FinishBlock(input);
      var i := UpdateBlocks(input, start);
      ThreeParts(old(bytes), input, start, i);
      var take := FillBuf(input[i..]);
      assert input[i..][..take] == input[i..];
    }

    /** The first part of chunk_state_update(): tops up a buffer that is not empty. */
    method FinishBlock(input: seq<byte>) returns (i: nat)
      requires Valid() && |bytes| + |input| <= CHUNK_LEN
      modifies this, buf
      ensures Split() && i <= |input|
      ensures bytes == old(bytes) + input[..i] && chunkCounter == old(chunkCounter)
      ensures i < |input| ==> bufLen == 0
      ensures i == |input| && bytes != [] ==> bufLen > 0
    {
      hide Absorb, Pad;
      i := 0;
      if bufLen > 0 {
        i := FillBuf(input);
        if i < |input| {
          FlushBuf();
        }
      }
    }

    /** The loop of chunk_state_update(): whole blocks straight from the input, but never
        the last. */
    method UpdateBlocks(input: seq<byte>, start: nat) returns (i: nat)
      requires Split() && start <= |input| && |bytes| + |input| - start <= CHUNK_LEN
      requires start < |input| ==> bufLen == 0
      modifies this`cv, this`blocksCompressed, this`bytes
      ensures Split() && start <= i <= |input|
      ensures i < |input| ==> |input| - i <= BLOCK_LEN
      ensures i == |input| ==> i == start
      ensures bytes == old(bytes) + input[start..i]
    {
      i := start;
      assert bytes == old(bytes) + input[start..i];
      while |input| - i > BLOCK_LEN
        invariant start <= i <= |input| && (i == |input| ==> i == start)
        invariant Split()
        invariant bytes == old(bytes) + input[start..i]
      {
        assert bytes[..|bytes|] == bytes;
        CompressBlock(input[i..i + BLOCK_LEN]);
        assert input[start..i + BLOCK_LEN] == input[start..i] + input[i..i + BLOCK_LEN];
        i := i + BLOCK_LEN;
        assert bytes[..|bytes|] == bytes && bytes[|bytes|..] == [];
      }
    }

    /** chunk_state_output(): the node of the chunk seen so far. */
    method Output() returns (o: Output)
      requires Valid()
      ensures o == ChunkOutput(mode, bytes, chunkCounter)
    {
      var flags := mode.flags | StartFlag(blocksCompressed == 0) | CHUNK_END;
      o := Blake3Spec.Output(cv, buf[..], bufLen, chunkCounter, flags);
      ghost var done, held := bytes[..|bytes| - bufLen], bytes[|bytes| - bufLen..];
      assert bytes == done + held;
      AbsorbThenOutput(mode, mode.key, done, held, chunkCounter, true);
    }
  }
}
