/** The incremental hasher, and its refinement of the tree hash. */
module Blake3Hasher {
  import opened Prelude
  import opened Arithmetic
  import opened Blake3Bits
  import opened Blake3Spec
  import opened Blake3Tree
  import opened Blake3Chunk
  import opened Blake3Wide

  /** The hash is defined for fewer than 2^64 bytes, which are 2^54 chunks. */
  const INPUT_LIMIT: nat := 0x1_0000_0000_0000_0000
  const CHUNK_LIMIT: nat := 0x40_0000_0000_0000

  // -------------------------------------------------------------- lemmas on stacks

  /** MAX_DEPTH entries are enough for a merged stack. */
  lemma StackDepth(n: nat)
    requires n < CHUNK_LIMIT
    ensures PopCount(n) <= MAX_DEPTH
  {
    hide Pow2, PopCount;
    Pow2Values();
    PopCountBound(n, 54);
  }

  lemma OddCarry(q: nat)
    requires q % 2 == 1
    ensures PopCount(q + 1) <= PopCount(q)
  {
    PopCountSuccessor(q / 2);
    assert (q + 1) / 2 == q / 2 + 1;
  }

  lemma NoBits(n: nat)
    ensures PopCount(n) == 0 <==> n == 0
  {
  }

  /** A stack that may or may not have been merged after its last push. */
  ghost predicate Pending(m: Mode, leaves: seq<Cv>, stack: seq<Cv>, t: nat, q: nat) {
    stack == Stack(m, leaves) || Lazy(m, leaves, stack, t, q)
  }

  /** The comparison with the population count tells merged from unmerged. */
  lemma MergeWanted(m: Mode, leaves: seq<Cv>, stack: seq<Cv>, t: nat, q: nat)
    requires Pending(m, leaves, stack, t, q)
    ensures |stack| > PopCount(|leaves|) ==> Lazy(m, leaves, stack, t, q) && q % 2 == 1
    ensures |stack| <= PopCount(|leaves|) ==> stack == Stack(m, leaves)
  {
    hide Stack, Lazy, PopCount;
    if Lazy(m, leaves, stack, t, q) {
      LazyLength(m, leaves, stack, t, q);
      if q % 2 == 0 {
        LazyEven(m, leaves, stack, t, q);
      } else {
        OddCarry(q);
      }
    }
  }

  /** A subtree whose size divides the number of leaves may be put on a merged stack. */
  lemma PushLazy(m: Mode, leaves: seq<Cv>, sub: seq<Cv>, t: nat, q: nat)
    requires IsPow2(t) && |sub| == t && |leaves| == t * q
    ensures Lazy(m, leaves + sub, Stack(m, leaves) + [TreeCv(m, sub)], t, q)
  {
    hide Stack, TreeCv;
    assert (leaves + sub)[..t * q] == leaves && (leaves + sub)[t * q..] == sub;
  }

  // ------------------------------------------------------------------- output

  /** output_root_bytes() */
  method OutputRootBytes(m: Mode, o: Output, seek: nat, out: array<byte>)
    modifies out
    ensures out[..] == RootBytes(m, o, seek, out.Length)
  {
    hide RootBlock;
    var block, offset, done := seek / 64, seek % 64, 0;
    while done < out.Length
      invariant done <= out.Length
      invariant done < out.Length ==> 0 <= block && 0 <= offset < 64 && 64 * block + offset == seek + done
      invariant forall i | 0 <= i < done :: out[i] == RootByte(m, o, seek + i)
    {
      var wide := RootBlock(m, o, block);
      var len := 64 - offset;
      if out.Length - done < len {
        len := out.Length - done;
      }
      forall i | 0 <= i < len {
        out[done + i] := wide[offset + i];
      }
      forall i | done <= i < done + len ensures out[i] == RootByte(m, o, seek + i) {
        assert seek + i == 64 * block + (offset + (i - done));
      }
      done := done + len;
      block := block + 1;
      offset := 0;
    }
  }

  // -------------------------------------------------------------- subtree size

  /** A power of two that is not smaller than another is a multiple of it. */
  lemma {:induction false} Pow2Multiple(s: nat, c: nat)
    requires IsPow2(s) && IsPow2(c) && s >= c
    ensures c > 0 && s % c == 0 && IsPow2(s / c) && s == c * (s / c)
  {
    if c > 1 {
      Pow2Multiple(s / 2, c / 2);
      var d := (s / 2) / (c / 2);
      assert s == c * d + 0;
      EuclidUnique(s, c, d, 0);
    }
  }

  predicate Divides(d: nat, n: nat) {
    d > 0 && n % d == 0
  }

  /** The subtree size taken by the loop of blake3_hasher_update(): the largest power of
      two that fits into the input and divides what was hashed before. */
  method SubtreeLen(rest: nat, count: nat) returns (s: nat)
    requires rest > CHUNK_LEN && Divides(CHUNK_LEN, count)
    ensures IsPow2(s) && CHUNK_LEN <= s <= rest && Divides(s, count)
    ensures forall p: nat | IsPow2(p) && p <= rest && Divides(p, count) :: p <= s
  {
    hide And, TopBit, IsPow2, Divides;
    s := TopBit(rest);
    AtLeastChunk(rest, s);
    while And(s - 1, count) != 0
      invariant IsPow2(s) && CHUNK_LEN <= s <= rest
      invariant rest < 2 * s || !Divides(2 * s, count)
      decreases s
    {
      MaskDivides(s, count);
      Halve(s, count);
      s := s / 2;
    }
    MaskDivides(s, count);
    forall p: nat | IsPow2(p) && p <= rest && Divides(p, count) ensures p <= s {
      Largest(p, s, rest, count);
    }
  }

  lemma MaskDivides(s: nat, count: nat)
    requires IsPow2(s)
    ensures s > 0 && (And(s - 1, count) == 0 <==> Divides(s, count))
  {
    hide And, IsPow2;
    Positive(s);
    MaskIsRemainder(s, count);
  }

  /** A larger power of two is a multiple of `2 * s`, and what it divides `2 * s` divides. */
  lemma Largest(p: nat, s: nat, rest: nat, count: nat)
    requires IsPow2(p) && IsPow2(s) && p <= rest && Divides(p, count)
    requires rest < 2 * s || !Divides(2 * s, count)
    ensures p <= s
  {
    hide IsPow2, Divides;
    if p > s {
      Twice(s);
      Pow2Apart(s, p);
      Pow2Multiple(p, 2 * s);
      DividesThrough(2 * s, p / (2 * s), p, count);
    }
  }

  lemma DividesThrough(c: nat, d: nat, p: nat, n: nat)
    requires c > 0 && p == c * d && Divides(p, n)
    ensures Divides(c, n)
  {
    var e := n / p;
    assert n == p * e;
    assert p * e == c * (d * e) by {
      assert (c * d) * e == c * (d * e);
    }
    EuclidUnique(n, c, d * e, 0);
  }

  lemma ChunkIsPow2()
    ensures IsPow2(CHUNK_LEN)
  {
    assert Pow2(10) == CHUNK_LEN;
  }

  /** A size that does not divide a multiple of the chunk size is above the chunk size. */
  lemma Halve(s: nat, count: nat)
    requires IsPow2(s) && s >= CHUNK_LEN && Divides(CHUNK_LEN, count) && !Divides(s, count)
    ensures IsPow2(s / 2) && s == 2 * (s / 2) && CHUNK_LEN <= s / 2
  {
    ChunkIsPow2();
    Pow2Apart(CHUNK_LEN, s);
  }

  lemma NotAbove(p: nat, s: nat, rest: nat)
    requires IsPow2(p) && IsPow2(s) && p <= rest < 2 * s
    ensures p <= s
  {
    if p > s {
      Pow2Apart(s, p);
    }
  }

  lemma AtLeastChunk(rest: nat, s: nat)
    requires IsPow2(s) && CHUNK_LEN < rest < 2 * s
    ensures CHUNK_LEN <= s
  {
    ChunkIsPow2();
    NotAbove(CHUNK_LEN, s, rest);
  }

  // -------------------------------------------------------------------- hasher

  /** blake3_hasher.  `absorbed` is the input so far; `top` and `below` describe the last
      subtree pushed, while it is unmerged. */
  class Hasher {
    const mode: Mode
    const plat: Platform
    const chunk: ChunkState
    const cvStack: array<Cv>
    var cvStackLen: nat
    ghost var absorbed: seq<byte>
    ghost var top: nat
    ghost var below: nat

    ghost predicate Shape()
      reads this, cvStack
    {
      && cvStack as object != chunk.buf
      && cvStack.Length == MAX_DEPTH + 1 && cvStackLen <= cvStack.Length
    }

    ghost function Entries(): seq<Cv>
      requires Shape()
      reads this, cvStack
    {
      cvStack[..cvStackLen]
    }

    /** The chaining values of the chunks that are no longer in the chunk state. */
    ghost function Leaves(): seq<Cv>
      requires CHUNK_LEN * chunk.chunkCounter <= |absorbed|
      reads this, chunk
    {
      ChunkCvs(mode, absorbed[..CHUNK_LEN * chunk.chunkCounter], 0)
    }

    /** The input so far is made of the chunks below the counter and of the chunk state. */
    ghost predicate Numbered()
      reads this, chunk, chunk.buf, cvStack
    {
      && plat.Valid() && Shape()
      && chunk.Valid() && chunk.mode == mode
      && |absorbed| == CHUNK_LEN * chunk.chunkCounter + |chunk.bytes| < INPUT_LIMIT
      && chunk.bytes == absorbed[CHUNK_LEN * chunk.chunkCounter..]
    }

    /** Between calls: with bytes in the chunk state the stack is merged.  Without, the
        last subtree pushed is unmerged, and there is one for it to be merged with. */
    ghost predicate Valid()
      reads this, chunk, chunk.buf, cvStack
    {
      && Numbered()
      && (if chunk.bytes != [] then Entries() == Stack(mode, Leaves())
          else if absorbed == [] then cvStackLen == 0
          else below > 0 && Lazy(mode, Leaves(), Entries(), top, below))
    }

    /** Inside blake3_hasher_update(), with the chunk state empty. */
    ghost predicate Between()
      reads this, chunk, chunk.buf, cvStack
    {
      Numbered() && chunk.bytes == [] && Pending(mode, Leaves(), Entries(), top, below)
    }

    /** hasher_init_base() */
    constructor (mode: Mode, plat: Platform)
      requires plat.Valid()
      ensures Valid() && absorbed == [] && this.mode == mode
      ensures fresh(chunk) && fresh(chunk.buf) && fresh(cvStack)
    {
      hide Stack, Lazy, ChunkCvs, ChunkState.Valid, Platform.Valid;
      this.mode := mode;
      this.plat := plat;
      this.chunk := new ChunkState(mode);
      this.cvStack := new Cv[MAX_DEPTH + 1];
      this.cvStackLen := 0;
      this.absorbed := [];
      new;
      assert chunk.bytes == absorbed[0..];
    }

    /** hasher_merge_cv_stack() */
    method MergeCvStack(total: nat, ghost leaves: seq<Cv>)
      requires Shape() && total == |leaves| && Pending(mode, leaves, Entries(), top, below)
      modifies this`cvStackLen, this`top, this`below, cvStack
      ensures Shape() && Entries() == Stack(mode, leaves)
    {
      hide Stack, Lazy, Parent, PopCount, Pending;
      var post := Popcnt(total);
      while cvStackLen > post
        invariant Shape() && Pending(mode, leaves, Entries(), top, below)
      {
        MergeWanted(mode, leaves, Entries(), top, below);
        LazyMerge(mode, leaves, Entries(), top, below);
        ghost var was := Entries();
        var at := cvStackLen - 2;
        cvStack[at] := Parent(mode, cvStack[at], cvStack[at + 1]);
        cvStackLen := cvStackLen - 1;
        top, below := 2 * top, below / 2;
        assert Entries() == was[..at] + [Parent(mode, was[at], was[at + 1])];
        LazyIsPending(mode, leaves, Entries(), top, below);
      }
      MergeWanted(mode, leaves, Entries(), top, below);
    }

    /** hasher_push_cv() */
    method PushCv(cv: Cv, total: nat, ghost leaves: seq<Cv>)
      requires Shape() && total == |leaves| && Pending(mode, leaves, Entries(), top, below)
      requires total < CHUNK_LIMIT
      modifies this`cvStackLen, this`top, this`below, cvStack
      ensures Shape() && Entries() == Stack(mode, leaves) + [cv]
    {
      hide Stack, Pending, PopCount, Pow2;
      MergeCvStack(total, leaves);
      ghost var was := Entries();
      StackDepth(total);
      cvStack[cvStackLen] := cv;
      cvStackLen := cvStackLen + 1;
      assert Entries() == was + [cv];
    }

    /** The first part of blake3_hasher_update(): finishes a chunk that has been begun. */
    method FinishChunk(input: seq<byte>) returns (i: nat)
      requires Valid() && input != [] && |absorbed| + |input| < INPUT_LIMIT
      modifies this, chunk, chunk.buf, cvStack
      ensures i <= |input| && absorbed == old(absorbed) + input[..i]
      ensures if i == |input| then Valid() else Between()
    {
      hide Stack, Lazy, ChunkCvs, Pow2, Platform.Valid, ChainingValue, ChunkOutput, ChunkState.Valid;
      i := 0;
      if chunk.Len() == 0 {
        EmptyStack(mode);
        return;
      }
      i := CHUNK_LEN - chunk.Len();
      if i > |input| {
        i := |input|;
      }
      ghost var leaves := Leaves();
      chunk.Update(input[..i]);
      absorbed := absorbed + input[..i];
      assert Leaves() == leaves by {
        assert absorbed[..CHUNK_LEN * chunk.chunkCounter] == old(absorbed)[..CHUNK_LEN * chunk.chunkCounter];
      }
      assert Valid();
      if i < |input| {
        PushChunk(leaves);
      }
    }

    /** The full chunk of the chunk state goes to the stack. */
    method PushChunk(ghost leaves: seq<Cv>)
      requires Numbered() && |chunk.bytes| == CHUNK_LEN
      requires leaves == Leaves() && Entries() == Stack(mode, leaves)
      modifies this`cvStackLen, this`top, this`below, chunk, chunk.buf, cvStack
      ensures Between() && absorbed == old(absorbed)
    {
      hide Stack, Lazy, ChunkCvs, Pow2, Platform.Valid, ChainingValue, ChunkOutput, ChunkState.Valid;
      var o := chunk.Output();
      var cv := ChainingValue(mode, o);
      ghost var counter := chunk.chunkCounter;
      FullLeaves(mode, absorbed, counter, leaves, cv);
      PushCv(cv, chunk.chunkCounter, leaves);
      top, below := 1, counter;
      chunk.Reset(chunk.chunkCounter + 1);
    }

    /** Moves the counter past chunks that went straight from the input to the stack. */
    method Advance(part: seq<byte>, chunks: nat)
      requires Numbered() && chunk.bytes == [] && |part| == CHUNK_LEN * chunks
      requires |absorbed| + |part| < INPUT_LIMIT
      modifies this`absorbed, chunk`chunkCounter
      ensures Numbered() && chunk.bytes == [] && absorbed == old(absorbed) + part
      ensures Leaves() == old(Leaves()) + ChunkCvs(mode, part, old(chunk.chunkCounter))
    {
      hide ChunkCvs, Pow2, Platform.Valid, ChunkState.Valid;
      ghost var done := absorbed;
      assert done[..|done|] == done;
      ChunkCvsConcat(mode, done, part, 0);
      chunk.SetCounter(chunk.chunkCounter + chunks);
      absorbed := absorbed + part;
      assert absorbed[..|absorbed|] == absorbed;
    }

    /** A subtree of one chunk. */
    method AddChunk(part: seq<byte>)
      requires Between() && |part| == CHUNK_LEN && |absorbed| + |part| < INPUT_LIMIT
      modifies this, chunk`chunkCounter, cvStack
      ensures Between() && absorbed == old(absorbed) + part
    {
      hide Stack, Lazy, ChunkCvs, Pow2, Platform.Valid, ChainingValue, ChunkOutput, ChunkState.Valid;
      ghost var leaves, counter := Leaves(), chunk.chunkCounter;
      var cv := HashChunk(mode, part, chunk.chunkCounter);
      PushCv(cv, chunk.chunkCounter, leaves);
      Advance(part, 1);
      OneLeaf(mode, part, counter);
      PushLazy(mode, leaves, [cv], 1, counter);
      top, below := 1, counter;
    }

    /** A larger subtree, of which both halves are pushed. */
    method AddSubtree(part: seq<byte>, chunks: nat, ghost quotient: nat)
      requires Between() && |part| == CHUNK_LEN * chunks && |absorbed| + |part| < INPUT_LIMIT
      requires IsPow2(chunks) && chunks > 1 && chunk.chunkCounter == chunks * quotient
      modifies this, chunk`chunkCounter, cvStack
      ensures Numbered() && chunk.bytes == [] && absorbed == old(absorbed) + part
      ensures below > 0 && Lazy(mode, Leaves(), Entries(), top, below)
    {
      hide Stack, Lazy, ChunkCvs, Platform.Valid, ChunkState.Valid, TreeCv, TreePair, IsPow2;
      ghost var leaves := Leaves();
      ghost var sub, half := ChunkCvs(mode, part, chunk.chunkCounter), chunks / 2;
      TwoPushes(mode, leaves, sub, half, quotient);
      var l, r := SubtreeToParentNode(mode, plat, part, chunk.chunkCounter);
      PushCv(l, chunk.chunkCounter, leaves);
      top, below := half, 2 * quotient;
      PushCv(r, chunk.chunkCounter + chunks / 2, leaves + sub[..half]);
      top, below := half, 2 * quotient + 1;
      Advance(part, chunks);
    }

    /** One turn of the loop of blake3_hasher_update(): all input can be used up only by a
        subtree that leaves something to merge. */
    method AddNext(rest: seq<byte>) returns (s: nat)
      requires Between() && |rest| > CHUNK_LEN && |absorbed| + |rest| < INPUT_LIMIT
      modifies this, chunk`chunkCounter, cvStack
      ensures 0 < s <= |rest| && absorbed == old(absorbed) + rest[..s] && Between()
      ensures s == |rest| ==> Valid()
    {
      hide Stack, Lazy, ChunkCvs, Pow2, Platform.Valid, ChunkState.Valid, IsPow2, Divides, Numbered, Leaves;
      WholeChunks(chunk.chunkCounter);
      s := SubtreeLen(|rest|, chunk.chunkCounter * CHUNK_LEN);
      ghost var q := ChunkNumbers(s, chunk.chunkCounter);
      if s <= CHUNK_LEN {
        AddChunk(rest[..s]);
      } else {
        AddSubtree(rest[..s], s / CHUNK_LEN, q);
      }
    }

    /** blake3_hasher_update() */
    method Update(input: seq<byte>)
      requires Valid() && |absorbed| + |input| < INPUT_LIMIT
      modifies this, chunk, chunk.buf, cvStack
      ensures Valid() && absorbed == old(absorbed) + input
    {
      hide Pow2, Valid, Between;
      if input == [] {
        return;
      }
      var i := FinishChunk(input);
      if i == |input| {
        return;
      }
      while |input| - i > CHUNK_LEN
        invariant i <= |input| && absorbed == old(absorbed) + input[..i]
        invariant Between()
        invariant i == |input| ==> Valid()
      {
        var s := AddNext(input[i..]);
        TakeMore(input, i, s);
        i := i + s;
      }
      if i < |input| {
        AddRest(input[i..]);
        assert input == input[..i] + input[i..];
      }
    }

    /** The last part of blake3_hasher_update(). */
    method AddRest(rest: seq<byte>)
      requires Between() && 0 < |rest| <= CHUNK_LEN && |absorbed| + |rest| < INPUT_LIMIT
      modifies this, chunk, chunk.buf, cvStack
      ensures Valid() && absorbed == old(absorbed) + rest
    {
      hide Stack, Lazy, ChunkCvs, Pow2, Platform.Valid, ChunkState.Valid;
      ghost var leaves := Leaves();
      chunk.Update(rest);
      MergeCvStack(chunk.chunkCounter, leaves);
      absorbed := absorbed + rest;
      assert absorbed[..CHUNK_LEN * chunk.chunkCounter] == old(absorbed)[..CHUNK_LEN * chunk.chunkCounter];
    }

    /** The merges of blake3_hasher_finalize_seek(), from a node over the leaves from `a`
        on to the root. */
    method RollUp(first: Output, remaining: nat, ghost all: seq<Cv>, ghost a: nat, ghost t: nat, ghost q: nat)
      returns (o: Output)
      requires Shape() && remaining <= cvStackLen && a < |all| && NodeFrom(mode, all, a, first)
      requires IsPow2(t) && a == t * q && |all| <= a + t && cvStack[..remaining] == Stack(mode, all[..a])
      ensures NodeFrom(mode, all, 0, o)
    {
      hide Stack, NodeFrom, ParentOutput, ChainingValue, TreeCv, TreePair, IsPow2, PopCount;
      o := first;
      var left: nat := remaining;
      ghost var b: nat, u: nat, h: nat := a, t, q;
      while left > 0
        invariant left <= remaining && b <= a < |all| && NodeFrom(mode, all, b, o)
        invariant IsPow2(u) && b == u * h && |all| <= b + u && cvStack[..left] == Stack(mode, all[..b])
      {
        b, u, h := RollOne(mode, all, b, u, h, cvStack[..left], o);
        left := left - 1;
        assert cvStack[..left + 1][..left] == cvStack[..left];
        o := ParentOutput(mode, cvStack[left], ChainingValue(mode, o));
      }
      Exhausted(mode, all, b);
    }

    /** blake3_hasher_finalize_seek(); blake3_hasher_finalize() is `seek` 0. */
    method FinalizeSeek(seek: nat, out: array<byte>)
      requires Valid() && out != chunk.buf && out as object != cvStack
      modifies out
      ensures Valid() && out[..] == Hash(mode, absorbed, seek, out.Length)
    {
      hide Valid, Stack, RootBytes, NodeOutput;
      if out.Length == 0 {
        assert out[..] == Hash(mode, absorbed, seek, 0);
        return;
      }
      var o := RootNode();
      OutputRootBytes(mode, o, seek, out);
    }

    /** Its choice of the node to start from. */
    method RootNode() returns (o: Output)
      requires Valid()
      ensures o == NodeOutput(mode, absorbed, 0)
    {
      hide Stack, NodeFrom, ChunkOutput, ParentOutput, ChainingValue, TreeCv, TreePair, IsPow2, PopCount;
      hide NodeOutput, ChunkCvs, ChunkState.Valid, Pow2, Platform.Valid;
      if cvStackLen == 0 {
        NoBits(|Leaves()|);
        o := chunk.Output();
        OnlyChunk(mode, absorbed);
        assert chunk.bytes == absorbed;
        return;
      }
      ghost var all := ChunkCvs(mode, absorbed, 0);
      if chunk.Len() > 0 {
        var first := chunk.Output();
        ghost var n := chunk.chunkCounter;
        LastLeaf(mode, absorbed, n, Leaves(), first);
        NoBits(n);
        UnitPow2(n);
        o := RollUp(first, cvStackLen, all, n, 1, n);
      } else {
        assert absorbed[..|absorbed|] == absorbed;
        ghost var b, u, h := LazyPair(mode, all, Entries(), top, below);
        var at := cvStackLen - 2;
        assert Entries()[..at] == cvStack[..at];
        o := ParentOutput(mode, cvStack[at], cvStack[at + 1]);
        o := RollUp(o, at, all, b, u, h);
      }
      RootFrom(mode, absorbed, o);
    }
  }

  lemma TakeMore(input: seq<byte>, i: nat, s: nat)
    requires i + s <= |input|
    ensures input[..i + s] == input[..i] + input[i..][..s]
  {
  }

  lemma LazyIsPending(m: Mode, leaves: seq<Cv>, stack: seq<Cv>, t: nat, q: nat)
    requires Lazy(m, leaves, stack, t, q)
    ensures Pending(m, leaves, stack, t, q)
  {
  }

  lemma EmptyStack(m: Mode)
    ensures Stack(m, ChunkCvs(m, [], 0)) == []
  {
  }

  /** The leaves of an input whose last chunk is full. */
  lemma FullLeaves(m: Mode, input: seq<byte>, n: nat, leaves: seq<Cv>, cv: Cv)
    requires |input| == CHUNK_LEN * n + CHUNK_LEN && leaves == ChunkCvs(m, input[..CHUNK_LEN * n], 0)
    requires cv == ChainingValue(m, ChunkOutput(m, input[CHUNK_LEN * n..], n))
    ensures input[..CHUNK_LEN * (n + 1)] == input && ChunkCvs(m, input, 0) == leaves + [cv] && |leaves| == n
    ensures Lazy(m, leaves + [cv], Stack(m, leaves) + [cv], 1, n)
  {
    hide Stack, Lazy, ChunkCvs, ChainingValue, ChunkOutput;
    var done, last := input[..CHUNK_LEN * n], input[CHUNK_LEN * n..];
    assert input == done + last;
    ChunkCvsConcat(m, done, last, 0);
    OneLeaf(m, last, n);
    PushLazy(m, leaves, [cv], 1, n);
  }

  lemma OneLeaf(m: Mode, part: seq<byte>, counter: nat)
    requires |part| == CHUNK_LEN
    ensures var cv := ChainingValue(m, ChunkOutput(m, part, counter));
            ChunkCvs(m, part, counter) == [cv] && TreeCv(m, [cv]) == cv
  {
  }

  lemma WholeChunks(n: nat)
    ensures Divides(CHUNK_LEN, n * CHUNK_LEN)
  {
  }

  /** Subtree and bytes before it, counted in chunks. */
  lemma ChunkNumbers(s: nat, counter: nat) returns (q: nat)
    requires IsPow2(s) && s >= CHUNK_LEN && Divides(s, counter * CHUNK_LEN)
    ensures s == CHUNK_LEN * (s / CHUNK_LEN) && IsPow2(s / CHUNK_LEN) && counter == (s / CHUNK_LEN) * q
  {
    ChunkIsPow2();
    Pow2Multiple(s, CHUNK_LEN);
    q := (counter * CHUNK_LEN) / s;
    assert counter * CHUNK_LEN == s * q;
    assert s * q == CHUNK_LEN * ((s / CHUNK_LEN) * q);
  }

  /** Pushing the halves of a subtree one after the other keeps the stack unmerged on top. */
  lemma TwoPushes(m: Mode, leaves: seq<Cv>, sub: seq<Cv>, half: nat, q: nat)
    requires IsPow2(|sub|) && |sub| > 1 && half == |sub| / 2 && |leaves| == |sub| * q
    ensures TreePair(m, sub) == (TreeCv(m, sub[..half]), TreeCv(m, sub[half..]))
    ensures Pending(m, leaves + sub[..half], Stack(m, leaves) + [TreeCv(m, sub[..half])], half, 2 * q)
    ensures Lazy(m, leaves + sub, Stack(m, leaves + sub[..half]) + [TreeCv(m, sub[half..])], half, 2 * q + 1)
  {
    hide Stack, Lazy, TreeCv, TreePair, IsPow2, Pending;
    EvenSplit(m, sub, half, q, |leaves|);
    PushLazy(m, leaves, sub[..half], half, 2 * q);
    LazyIsPending(m, leaves + sub[..half], Stack(m, leaves) + [TreeCv(m, sub[..half])], half, 2 * q);
    PushLazy(m, leaves + sub[..half], sub[half..], half, 2 * q + 1);
    assert leaves + sub[..half] + sub[half..] == leaves + sub;
  }

  lemma EvenSplit(m: Mode, sub: seq<Cv>, half: nat, q: nat, counter: nat)
    requires IsPow2(|sub|) && |sub| > 1 && half == |sub| / 2 && counter == |sub| * q
    ensures IsPow2(half) && |sub| == 2 * half && counter == half * (2 * q) && counter + half == half * (2 * q + 1)
    ensures TreePair(m, sub) == (TreeCv(m, sub[..half]), TreeCv(m, sub[half..]))
  {
    hide TreeCv;
    SplitPointUnique(|sub|, half);
    TwoHalves(half, q, 0);
    OneMore(half, 2 * q);
  }

  // ------------------------------------------------------------------- roll-up

  /** `o` is the node over the leaves from `a` on. */
  ghost predicate NodeFrom(m: Mode, all: seq<Cv>, a: nat, o: Output) {
    && a < |all| && ChainingValue(m, o) == TreeCv(m, all[a..])
    && (|all| >= a + 2 ==> var c := TreePair(m, all[a..]); o == ParentOutput(m, c.0, c.1))
  }

  lemma Exhausted(m: Mode, all: seq<Cv>, b: nat)
    requires b <= |all| && |Stack(m, all[..b])| == 0
    ensures b == 0
  {
    NoBits(b);
  }

  /** One entry off the stack, and the node reaches that much further to the left. */
  lemma RollOne(m: Mode, all: seq<Cv>, a: nat, t: nat, q: nat, entries: seq<Cv>, o: Output)
    returns (b: nat, u: nat, h: nat)
    requires IsPow2(t) && a == t * q && |all| <= a + t && NodeFrom(m, all, a, o)
    requires entries == Stack(m, all[..a]) && entries != []
    ensures b < a && IsPow2(u) && b == u * h && |all| <= b + u
    ensures Stack(m, all[..b]) == entries[..|entries| - 1]
    ensures NodeFrom(m, all, b, ParentOutput(m, entries[|entries| - 1], ChainingValue(m, o)))
  {
    hide Stack, ParentOutput, ChainingValue, TreeCv, TreePair, IsPow2, PopCount;
    NoBits(a);
    b, u, h := Peel(m, all, a, t, q);
    NodeOfPair(m, all, b, entries[|entries| - 1], ChainingValue(m, o));
  }

  lemma NodeOfPair(m: Mode, all: seq<Cv>, b: nat, l: Cv, r: Cv)
    requires b + 2 <= |all| && TreePair(m, all[b..]) == (l, r)
    ensures NodeFrom(m, all, b, ParentOutput(m, l, r))
  {
    hide ChainingValue, TreePair, TreeCv;
    Halves(m, all[b..]);
  }

  /** With nothing in the chunk state the two entries on top are the first node. */
  lemma LazyPair(m: Mode, all: seq<Cv>, entries: seq<Cv>, t: nat, q: nat) returns (b: nat, u: nat, h: nat)
    requires q > 0 && Lazy(m, all, entries, t, q)
    ensures |entries| >= 2 && |all| >= 2 && b < |all| && IsPow2(u) && b == u * h && |all| <= b + u
    ensures Stack(m, all[..b]) == entries[..|entries| - 2]
    ensures NodeFrom(m, all, b, ParentOutput(m, entries[|entries| - 2], entries[|entries| - 1]))
  {
    hide Stack, ParentOutput, ChainingValue, TreeCv, TreePair, IsPow2, PopCount, NodeFrom;
    Positive(t);
    Multiply(t, 0, q);
    b, u, h := Peel(m, all, t * q, t, q);
    NodeOfPair(m, all, b, entries[|entries| - 2], entries[|entries| - 1]);
  }

  /** With bytes in the chunk state that chunk is the first node. */
  lemma LastLeaf(m: Mode, input: seq<byte>, n: nat, leaves: seq<Cv>, o: Output)
    requires CHUNK_LEN * n < |input| <= CHUNK_LEN * n + CHUNK_LEN
    requires leaves == ChunkCvs(m, input[..CHUNK_LEN * n], 0) && o == ChunkOutput(m, input[CHUNK_LEN * n..], n)
    ensures var all := ChunkCvs(m, input, 0); |all| == n + 1 && all[..n] == leaves && NodeFrom(m, all, n, o)
  {
    hide ChunkOutput, ChainingValue;
    var done, last := input[..CHUNK_LEN * n], input[CHUNK_LEN * n..];
    assert input == done + last;
    ChunkCvsConcat(m, done, last, 0);
    assert ChunkCvs(m, last, n) == [ChunkCv(m, last, n)];
    assert ChunkCvs(m, input, 0)[n..] == [ChunkCv(m, last, n)];
  }

  lemma UnitPow2(n: nat)
    ensures IsPow2(1) && n == 1 * n
  {
  }

  lemma OnlyChunk(m: Mode, input: seq<byte>)
    ensures |input| <= CHUNK_LEN ==> NodeOutput(m, input, 0) == ChunkOutput(m, input, 0)
  {
  }

  lemma RootFrom(m: Mode, input: seq<byte>, o: Output)
    requires var all := ChunkCvs(m, input, 0); |all| >= 2 && NodeFrom(m, all, 0, o)
    ensures o == NodeOutput(m, input, 0)
  {
    hide ChunkCvs, NodeOutput, TreePair, TreeCv, ChainingValue;
    NodeIsTree(m, input, 0);
    var all := ChunkCvs(m, input, 0);
    assert all[0..] == all;
  }

  // ------------------------------------------------------------------ whole runs

  /** However the input is cut into update() calls, and whatever the SIMD degree, the
      output is the hash of the whole input. */
  method HashPieces(mode: Mode, plat: Platform, pieces: seq<seq<byte>>, seek: nat, n: nat) returns (r: seq<byte>)
    requires plat.Valid() && |Concat(pieces)| < INPUT_LIMIT
    ensures r == Hash(mode, Concat(pieces), seek, n)
  {
    hide Hasher.Valid, Hash, Pow2, Platform.Valid, Concat;
    ConcatStart(pieces);
    var hasher := new Hasher(mode, plat);
    for i := 0 to |pieces|
      invariant hasher.Valid() && hasher.absorbed == Concat(pieces[..i])
      invariant fresh(hasher) && fresh(hasher.chunk) && fresh(hasher.chunk.buf) && fresh(hasher.cvStack)
    {
      ConcatStep(pieces, i);
      ConcatPrefix(pieces, i + 1);
      hasher.Update(pieces[i]);
    }
    assert pieces[..|pieces|] == pieces;
    var out := new byte[n](_ => 0);
    hasher.FinalizeSeek(seek, out);
    r := out[..];
  }
}
