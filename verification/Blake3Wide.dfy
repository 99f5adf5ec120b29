/** Hashing of whole subtrees: many nodes per call, level by level. */
module Blake3Wide {
  import opened Prelude
  import opened Blake3Bits
  import opened Blake3Spec
  import opened Blake3Tree
  import opened Blake3Chunk

  /** blake3_simd_degree() and MAX_SIMD_DEGREE. */
  datatype Platform = Platform(degree: nat, max: nat) {
    predicate Valid() {
      IsPow2(degree) && IsPow2(max) && degree <= max
    }

    /** The most values a subtree is reduced to. */
    function Wide(): nat { if degree < 2 then 2 else degree }

    /** MAX_SIMD_DEGREE_OR_2 */
    function MaxOr2(): nat { if max < 2 then 2 else max }
  }

  // ---------------------------------------------------------------- hash_many

  /** Whether or not the end flag is set, as the code and as the chain have it. */
  function BlockFlags(m: Mode, start: bv8, end: bv8, last: bool): bv8 {
    m.flags | start | (if last then end else 0)
  }

  /** The chaining value of whole blocks, with flags for the first and the last. */
  function ChainBlocks(m: Mode, cv: Words8, input: seq<byte>, counter: nat, start: bv8, end: bv8): Words8
    requires |input| % BLOCK_LEN == 0
    decreases |input|
  {
    if input == [] then cv
    else
      var flags := BlockFlags(m, start, end, |input| == BLOCK_LEN);
      ChainBlocks(m, Compress(m, cv, input[..BLOCK_LEN], BLOCK_LEN, counter, flags),
                  input[BLOCK_LEN..], counter, 0, end)
  }

  /** A full chunk is one such chain. */
  lemma {:induction false} ChunkIsChain(m: Mode, cv: Words8, input: seq<byte>, counter: nat, first: bool)
    requires |input| % BLOCK_LEN == 0 && input != []
    ensures StoreWords(ChainBlocks(m, cv, input, counter, StartFlag(first), CHUNK_END))
            == ChainingValue(m, ChunkOutputFrom(m, cv, input, counter, first))
    decreases |input|
  {
    hide Compress, StoreWords;
    if |input| == BLOCK_LEN {
      assert input[..BLOCK_LEN] == input && input[BLOCK_LEN..] == [];
      assert Pad(input) == input;
    } else {
      var flags := m.flags | StartFlag(first);
      assert flags | 0 == flags;
      ChunkIsChain(m, Compress(m, cv, input[..BLOCK_LEN], BLOCK_LEN, counter, flags),
                   input[BLOCK_LEN..], counter, false);
    }
  }

  lemma FullChunk(m: Mode, input: seq<byte>, counter: nat)
    requires |input| == CHUNK_LEN
    ensures StoreWords(ChainBlocks(m, m.key, input, counter, CHUNK_START, CHUNK_END)) == ChunkCv(m, input, counter)
  {
    hide StoreWords, ChainBlocks;
    ChunkIsChain(m, m.key, input, counter, true);
  }

  /** Two neighbouring chaining values, as one block. */
  function ParentBlock(l: Cv, r: Cv): Block {
    l + r
  }

  /** A parent block is a chain of one block without start or end flag. */
  lemma ParentIsChain(m: Mode, l: Cv, r: Cv)
    ensures StoreWords(ChainBlocks(m.(flags := m.flags | PARENT), m.key, ParentBlock(l, r), 0, 0, 0))
            == Parent(m, l, r)
  {
    hide StoreWords;
    var p := m.(flags := m.flags | PARENT);
    assert p.flags | 0 | 0 == p.flags;
    var b := ParentBlock(l, r);
    assert b[..BLOCK_LEN] == b && b[BLOCK_LEN..] == [];
  }

  /** hash_one_portable() */
  method HashOne(m: Mode, input: seq<byte>, counter: nat, start: bv8, end: bv8) returns (out: Cv)
    requires |input| % BLOCK_LEN == 0
    ensures out == StoreWords(ChainBlocks(m, m.key, input, counter, start, end))
  {
    hide Compress, StoreWords, ChainBlocks;
    var cv := m.key;
    var flags := m.flags | start;
    var rest := input;
    ghost var first := start;
    while |rest| > 0
      invariant |rest| % BLOCK_LEN == 0 && flags == m.flags | first
      invariant ChainBlocks(m, cv, rest, counter, first, end) == ChainBlocks(m, m.key, input, counter, start, end)
    {
      if |rest| == BLOCK_LEN {
        flags := flags | end;
      }
      ChainStep(m, cv, rest, counter, first, end, flags);
      cv := Compress(m, cv, rest[..BLOCK_LEN], BLOCK_LEN, counter, flags);
      rest := rest[BLOCK_LEN..];
      flags := m.flags;
      first := 0;
      NoFlag(flags);
    }
    ChainEnd(m, cv, rest, counter, first, end);
    out := StoreWords(cv);
  }

  lemma NoFlag(flags: bv8)
    ensures flags | 0 == flags
  {
  }

  lemma ChainEnd(m: Mode, cv: Words8, input: seq<byte>, counter: nat, start: bv8, end: bv8)
    requires input == []
    ensures ChainBlocks(m, cv, input, counter, start, end) == cv
  {
  }

  lemma BlockFlagsOf(m: Mode, start: bv8, end: bv8)
    ensures BlockFlags(m, start, end, true) == m.flags | start | end
    ensures BlockFlags(m, start, end, false) == m.flags | start
  {
    NoFlag(m.flags | start);
  }

  lemma ChainStep(m: Mode, cv: Words8, input: seq<byte>, counter: nat, start: bv8, end: bv8, flags: bv8)
    requires |input| % BLOCK_LEN == 0 && input != []
    requires flags == if |input| == BLOCK_LEN then m.flags | start | end else m.flags | start
    ensures ChainBlocks(m, cv, input, counter, start, end)
            == ChainBlocks(m, Compress(m, cv, input[..BLOCK_LEN], BLOCK_LEN, counter, flags),
                           input[BLOCK_LEN..], counter, 0, end)
  {
    hide Compress, BlockFlags;
    BlockFlagsOf(m, start, end);
  }

  /** blake3_hash_many(), writing into `out` from slot `at` on. */
  method HashMany(m: Mode, inputs: seq<seq<byte>>, counter: nat, increment: bool, start: bv8, end: bv8,
                  out: array<Cv>, at: nat)
    requires forall i | 0 <= i < |inputs| :: |inputs[i]| % BLOCK_LEN == 0
    requires at + |inputs| <= out.Length
    modifies out
    ensures forall i | 0 <= i < |inputs| ::
        out[at + i] == StoreWords(ChainBlocks(m, m.key, inputs[i], if increment then counter + i else counter,
                                              start, end))
    ensures forall j | 0 <= j < out.Length && !(at <= j < at + |inputs|) :: out[j] == old(out[j])
  {
    hide ChainBlocks, StoreWords;
    var c := counter;
    for i := 0 to |inputs|
      invariant c == if increment then counter + i else counter
      invariant forall k | 0 <= k < i ::
          out[at + k] == StoreWords(ChainBlocks(m, m.key, inputs[k], if increment then counter + k else counter,
                                                start, end))
      invariant forall j | 0 <= j < out.Length && !(at <= j < at + i) :: out[j] == old(out[j])
    {
      var cv := HashOne(m, inputs[i], c, start, end);
      out[at + i] := cv;
      if increment {
        c := c + 1;
      }
    }
  }

  // -------------------------------------------------------------------- chunks

  lemma {:induction false} ChunkCvAt(m: Mode, input: seq<byte>, counter: nat, i: nat)
    requires CHUNK_LEN * i + CHUNK_LEN <= |input|
    ensures ChunkCvs(m, input, counter)[i]
            == ChunkCv(m, input[CHUNK_LEN * i..CHUNK_LEN * i + CHUNK_LEN], counter + i)
    decreases i
  {
    hide ChunkCv, ChunkCvs;
    ChunkCvsUnfold(m, input, counter);
    if i > 0 {
      var rest := input[CHUNK_LEN..];
      ChunkCvAt(m, rest, counter + 1, i - 1);
      assert rest[CHUNK_LEN * (i - 1)..CHUNK_LEN * i] == input[CHUNK_LEN * i..CHUNK_LEN * i + CHUNK_LEN];
    }
  }

  /** compress_chunks_parallel(): exactly the chaining values of the chunks. */
  method CompressChunks(m: Mode, plat: Platform, input: seq<byte>, counter: nat, out: array<Cv>, at: nat)
    returns (n: nat)
    requires 0 < |input| <= plat.max * CHUNK_LEN
    requires at + |ChunkCvs(m, input, counter)| <= out.Length
    modifies out
    ensures n == |ChunkCvs(m, input, counter)| && out[at..at + n] == ChunkCvs(m, input, counter)
    ensures forall j | 0 <= j < out.Length && !(at <= j < at + n) :: out[j] == old(out[j])
  {
    hide ChunkCv, ChunkCvs, StoreWords, ChainBlocks;
    var chunks := new seq<byte>[plat.max](_ => []);
    var k, pos := 0, 0;
    while |input| - pos >= CHUNK_LEN
      invariant pos == CHUNK_LEN * k <= |input|
      modifies chunks
      invariant forall i | 0 <= i < k :: chunks[i] == input[CHUNK_LEN * i..CHUNK_LEN * i + CHUNK_LEN]
    {
      chunks[k] := input[pos..pos + CHUNK_LEN];
      pos := pos + CHUNK_LEN;
      k := k + 1;
    }
    HashMany(m, chunks[..k], counter, true, CHUNK_START, CHUNK_END, out, at);
    forall i | 0 <= i < k ensures out[at + i] == ChunkCvs(m, input, counter)[i] {
      FullChunk(m, chunks[i], counter + i);
      ChunkCvAt(m, input, counter, i);
    }
    n := k;
    if |input| > pos {
      var last := HashChunk(m, input[pos..], counter + k);
      out[at + k] := last;
      LastChunk(m, input, counter, k);
      n := k + 1;
    }
    assert out[at..at + n] == ChunkCvs(m, input, counter);
  }

  /** A chunk hashed on its own by a fresh chunk state. */
  method HashChunk(m: Mode, input: seq<byte>, counter: nat) returns (cv: Cv)
    requires |input| <= CHUNK_LEN
    ensures cv == ChunkCv(m, input, counter)
  {
    hide ChunkOutput, ChainingValue, Absorb, Pad;
    var chunk := new ChunkState(m);
    chunk.SetCounter(counter);
    chunk.Update(input);
    assert chunk.bytes == input;
    var o := chunk.Output();
    cv := ChainingValue(m, o);
  }

  lemma LastChunk(m: Mode, input: seq<byte>, counter: nat, k: nat)
    requires CHUNK_LEN * k < |input| < CHUNK_LEN * k + CHUNK_LEN
    ensures |ChunkCvs(m, input, counter)| == k + 1
    ensures ChunkCvs(m, input, counter)[k] == ChunkCv(m, input[CHUNK_LEN * k..], counter + k)
  {
    hide ChunkCv;
    var a, b := input[..CHUNK_LEN * k], input[CHUNK_LEN * k..];
    assert input == a + b;
    ChunkCvsConcat(m, a, b, counter);
  }

  // ------------------------------------------------------------------- parents

  lemma {:induction false} PairUpAt(m: Mode, cvs: seq<Cv>, i: nat)
    requires i < (|cvs| + 1) / 2
    ensures PairUp(m, cvs)[i] == if 2 * i + 1 < |cvs| then Parent(m, cvs[2 * i], cvs[2 * i + 1]) else cvs[2 * i]
  {
    hide Parent;
    if i > 0 {
      PairUpAt(m, cvs[2..], i - 1);
    }
  }

  /** compress_parents_parallel(): one level of the tree. */
  method CompressParents(m: Mode, plat: Platform, children: array<Cv>, num: nat, out: array<Cv>, at: nat)
    returns (n: nat)
    requires plat.Valid() && children != out
    requires 2 <= num <= children.Length && num <= 2 * plat.MaxOr2()
    requires at + (num + 1) / 2 <= out.Length
    modifies out
    ensures n == (num + 1) / 2 && out[at..at + n] == PairUp(m, children[..num])
    ensures forall j | 0 <= j < out.Length && !(at <= j < at + n) :: out[j] == old(out[j])
  {
    hide PairUp, Parent, StoreWords, ChainBlocks, ParentBlock, IsPow2;
    ghost var cvs := children[..num];
    var parents := new seq<byte>[plat.MaxOr2()](_ => []);
    var k := 0;
    while num - 2 * k >= 2
      invariant 2 * k <= num
      modifies parents
      invariant forall i | 0 <= i < k :: parents[i] == ParentBlock(cvs[2 * i], cvs[2 * i + 1])
    {
      parents[k] := ParentBlock(children[2 * k], children[2 * k + 1]);
      k := k + 1;
    }
    HashMany(m.(flags := m.flags | PARENT), parents[..k], 0, false, 0, 0, out, at);
    forall i | 0 <= i < k ensures out[at + i] == PairUp(m, cvs)[i] {
      ParentAt(m, cvs, i);
    }
    n := k;
    if num > 2 * k {
      out[at + k] := children[2 * k];
      PairUpAt(m, cvs, k);
      n := k + 1;
    }
    assert out[at..at + n] == PairUp(m, cvs);
  }

  lemma ParentAt(m: Mode, cvs: seq<Cv>, i: nat)
    requires 2 * i + 1 < |cvs|
    ensures StoreWords(ChainBlocks(m.(flags := m.flags | PARENT), m.key, ParentBlock(cvs[2 * i], cvs[2 * i + 1]),
                                   0, 0, 0))
            == PairUp(m, cvs)[i]
  {
    hide PairUp, Parent, StoreWords, ChainBlocks, ParentBlock;
    ParentIsChain(m, cvs[2 * i], cvs[2 * i + 1]);
    PairUpAt(m, cvs, i);
  }

  // ------------------------------------------------------------------ subtrees

  /** `w` is a level of the tree over `chunks`, reduced as far as the degree wants but
      never to the root: same chaining value and same children of the root. */
  predicate Reduced(m: Mode, plat: Platform, chunks: seq<Cv>, w: seq<Cv>)
    requires chunks != []
  {
    && 0 < |w| <= plat.Wide()
    && TreeCv(m, w) == TreeCv(m, chunks)
    && (|chunks| <= plat.degree ==> w == chunks)
    && (|chunks| == 1 ==> |w| == 1)
    && (|chunks| >= 2 ==> |w| >= 2 && TreePair(m, w) == TreePair(m, chunks))
    && (IsPow2(|chunks|) && |chunks| > plat.degree ==> |w| == plat.Wide())
  }

  lemma {:induction false} Pow2Apart(p: nat, d: nat)
    requires IsPow2(p) && IsPow2(d) && p < d
    ensures 2 * p <= d
  {
    if p > 1 {
      Pow2Apart(p / 2, d / 2);
    }
  }

  /** Halves of a power of two. */
  lemma EqualHalves(a: nat, b: nat)
    requires IsPow2(a) && 0 < b <= a && IsPow2(a + b)
    ensures a == b
  {
    SplitPointUnique(a + b, a);
    SplitPointUnique(a + b, (a + b) / 2);
  }

  /** How many values the left half leaves, which is where the right half's are put. */
  function LeftSlots(plat: Platform, chunks: nat): nat {
    if chunks > 1 && plat.degree == 1 then 2 else plat.degree
  }

  /** The left half fills its slots exactly and the right half does not leave more. */
  lemma HalvesFit(m: Mode, plat: Platform, a: seq<Cv>, b: seq<Cv>, wl: seq<Cv>, wr: seq<Cv>)
    requires plat.Valid() && IsPow2(|a|) && 0 < |b| <= |a| && |a| + |b| > plat.degree
    requires Reduced(m, plat, a, wl) && Reduced(m, plat, b, wr)
    ensures |a| >= plat.degree && |wl| == LeftSlots(plat, |a|) && 0 < |wr| <= |wl|
    ensures |wl| == 1 ==> |wr| == 1 && plat.degree == 1
    ensures IsPow2(|wl|) && (|a| == |b| ==> |wr| == |wl|) && (|wl| != 1 ==> |wl| == plat.Wide())
  {
    hide TreeCv, TreePair;
    if |a| < plat.degree {
      Pow2Apart(|a|, plat.degree);
    }
  }

  lemma Combine(m: Mode, plat: Platform, a: seq<Cv>, b: seq<Cv>, wl: seq<Cv>, wr: seq<Cv>)
    requires plat.Valid() && IsPow2(|a|) && 0 < |b| <= |a| && |a| + |b| > plat.degree
    requires Reduced(m, plat, a, wl) && Reduced(m, plat, b, wr)
    ensures Reduced(m, plat, a + b, if |wl| == 1 then wl + wr else PairUp(m, wl + wr))
  {
    hide TreeCv, TreePair, PairUp, Parent, IsPow2;
    HalvesFit(m, plat, a, b, wl, wr);
    Join(m, a, b);
    Join(m, wl, wr);
    if IsPow2(|a + b|) {
      EqualHalves(|a|, |b|);
    }
    if |wl| != 1 {
      PairUpTree(m, wl + wr);
      PairUpPair(m, wl + wr);
    }
  }

  /** blake3_compress_subtree_wide() */
  method SubtreeWide(m: Mode, plat: Platform, input: seq<byte>, counter: nat, out: array<Cv>, at: nat)
    returns (n: nat)
    requires plat.Valid() && input != [] && at + plat.Wide() <= out.Length
    modifies out
    ensures n <= plat.Wide() && Reduced(m, plat, ChunkCvs(m, input, counter), out[at..at + n])
    ensures forall j | 0 <= j < out.Length && !(at <= j < at + n) :: out[j] == old(out[j])
    decreases |input|, 1
  {
    hide TreeCv, TreePair, PairUp, Parent, IsPow2, ChunkCvs, Reduced;
    if |input| <= plat.degree * CHUNK_LEN {
      n := CompressChunks(m, plat, input, counter, out, at);
      FewChunks(m, plat, ChunkCvs(m, input, counter));
    } else {
      var cvs := new Cv[2 * plat.MaxOr2()];
      var leftN, rightN := SubtreeHalves(m, plat, input, counter, cvs);
      if leftN == 1 {
        out[at], out[at + 1] := cvs[0], cvs[1];
        n := 2;
        assert out[at..at + n] == cvs[..2];
      } else {
        n := CompressParents(m, plat, cvs, leftN + rightN, out, at);
      }
    }
  }

  /** Its two recursive calls: the values of both halves end up next to each other. */
  method SubtreeHalves(m: Mode, plat: Platform, input: seq<byte>, counter: nat, cvs: array<Cv>)
    returns (leftN: nat, rightN: nat)
    requires plat.Valid() && |input| > plat.degree * CHUNK_LEN && cvs.Length == 2 * plat.MaxOr2()
    modifies cvs
    ensures 0 < rightN <= leftN <= plat.Wide()
    ensures Reduced(m, plat, ChunkCvs(m, input, counter),
                    if leftN == 1 then cvs[..2] else PairUp(m, cvs[..leftN + rightN]))
    decreases |input|, 0
  {
    hide TreeCv, TreePair, PairUp, Parent, IsPow2, ChunkCvs, LeftLen, Reduced;
    Positive(plat.degree);
    var l := LeftLen(|input|);
    var left, right, next := input[..l], input[l..], counter + l / CHUNK_LEN;
    assert input == left + right;
    var slots := LeftSlots(plat, l / CHUNK_LEN);
    leftN := SubtreeWide(m, plat, left, counter, cvs, 0);
    ghost var wl := cvs[..leftN];
    assert wl == cvs[0..0 + leftN];
    rightN := SubtreeWide(m, plat, right, next, cvs, slots);
    ghost var wr := cvs[slots..slots + rightN];
    ChunkCvsConcat(m, left, right, counter);
    ghost var a, b := ChunkCvs(m, left, counter), ChunkCvs(m, right, next);
    HalvesFit(m, plat, a, b, wl, wr);
    ghost var all := cvs[..];
    Neighbours(all, leftN, rightN);
    assert all[..leftN] == wl && all[leftN..leftN + rightN] == wr && all[..leftN + rightN] == cvs[..leftN + rightN];
    Combine(m, plat, a, b, wl, wr);
  }

  lemma Neighbours(s: seq<Cv>, n: nat, k: nat)
    requires n + k <= |s|
    ensures s[..n + k] == s[..n] + s[n..n + k]
  {
  }

  lemma FewChunks(m: Mode, plat: Platform, chunks: seq<Cv>)
    requires 0 < |chunks| <= plat.degree
    ensures Reduced(m, plat, chunks, chunks)
  {
  }

  /** compress_subtree_to_parent_node(): the children of the root, whatever the degree. */
  method SubtreeToParentNode(m: Mode, plat: Platform, input: seq<byte>, counter: nat) returns (l: Cv, r: Cv)
    requires plat.Valid() && |input| > CHUNK_LEN
    ensures (l, r) == TreePair(m, ChunkCvs(m, input, counter))
  {
    hide TreeCv, TreePair, PairUp, Parent, IsPow2, ChunkCvs;
    var cvs := new Cv[plat.MaxOr2()];
    var half := new Cv[plat.MaxOr2() / 2];
    var n := SubtreeWide(m, plat, input, counter, cvs, 0);
    assert cvs[..n] == cvs[0..0 + n];
    EvenMax(plat);
    while n > 2
      invariant 2 <= n <= plat.Wide()
      invariant TreePair(m, cvs[..n]) == TreePair(m, ChunkCvs(m, input, counter))
    {
      ghost var was := cvs[..n];
      PairUpPair(m, was);
      n := CompressParents(m, plat, cvs, n, half, 0);
      assert half[..n] == half[0..0 + n];
      for i := 0 to n
        modifies cvs
        invariant cvs[..i] == half[..i]
      {
        cvs[i] := half[i];
      }
      assert cvs[..n] == PairUp(m, was);
    }
    l, r := cvs[0], cvs[1];
    TwoLeaves(m, cvs[..n]);
  }

  lemma TwoLeaves(m: Mode, w: seq<Cv>)
    requires |w| == 2
    ensures TreePair(m, w) == (w[0], w[1])
  {
    SplitPointUnique(2, 1);
    assert w[..1] == [w[0]] && w[1..] == [w[1]];
  }

  lemma EvenMax(plat: Platform)
    requires plat.Valid()
    ensures plat.MaxOr2() % 2 == 0
  {
  }
}
