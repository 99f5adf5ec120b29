/** The left-full tree over a sequence of chaining values, and the two ways the code
    builds it: level by level, and as a stack of complete subtrees. */
module Blake3Tree {
  import opened Prelude
  import opened Blake3Bits
  import opened Blake3Spec

  // ------------------------------------------------------------ tree over leaves

  /** How many of `n` leaves go to the left: the largest power of two below `n`. */
  function SplitPoint(n: nat): (p: nat)
    requires n >= 2
    ensures IsPow2(p) && 0 < p < n <= 2 * p
  {
    TopBit(n - 1)
  }

  lemma SplitPointUnique(n: nat, p: nat)
    requires n >= 2 && IsPow2(p) && p < n <= 2 * p
    ensures SplitPoint(n) == p
  {
    TopBitUnique(n - 1, p);
  }

  function TreeCv(m: Mode, leaves: seq<Cv>): Cv
    requires |leaves| > 0
    decreases |leaves|
  {
    if |leaves| == 1 then leaves[0]
    else var p := SplitPoint(|leaves|); Parent(m, TreeCv(m, leaves[..p]), TreeCv(m, leaves[p..]))
  }

  /** The two children of the root. */
  function TreePair(m: Mode, leaves: seq<Cv>): (Cv, Cv)
    requires |leaves| >= 2
  {
    var p := SplitPoint(|leaves|); (TreeCv(m, leaves[..p]), TreeCv(m, leaves[p..]))
  }

  /** A left part of a power of two leaves, and a right part not longer. */
  lemma Join(m: Mode, a: seq<Cv>, b: seq<Cv>)
    requires IsPow2(|a|) && 0 < |b| <= |a|
    ensures TreePair(m, a + b) == (TreeCv(m, a), TreeCv(m, b))
    ensures TreeCv(m, a + b) == Parent(m, TreeCv(m, a), TreeCv(m, b))
  {
    SplitPointUnique(|a + b|, |a|);
    assert (a + b)[..|a|] == a && (a + b)[|a|..] == b;
  }

  // ------------------------------------------------------------- level by level

  /** One level of parents; an odd value at the end is carried over. */
  function PairUp(m: Mode, cvs: seq<Cv>): (r: seq<Cv>)
    ensures |r| == (|cvs| + 1) / 2
  {
    if |cvs| <= 1 then cvs else [Parent(m, cvs[0], cvs[1])] + PairUp(m, cvs[2..])
  }

  lemma {:induction false} PairUpConcat(m: Mode, a: seq<Cv>, b: seq<Cv>)
    requires |a| % 2 == 0
    ensures PairUp(m, a + b) == PairUp(m, a) + PairUp(m, b)
  {
    if a == [] {
      assert a + b == b;
    } else {
      assert (a + b)[2..] == a[2..] + b;
      PairUpConcat(m, a[2..], b);
    }
  }

  /** A level of parents has the same tree. */
  lemma {:induction false} PairUpTree(m: Mode, cvs: seq<Cv>)
    requires |cvs| > 0
    ensures TreeCv(m, PairUp(m, cvs)) == TreeCv(m, cvs)
    decreases |cvs|
  {
    if |cvs| == 2 {
      assert PairUp(m, cvs) == [Parent(m, cvs[0], cvs[1])];
    } else if |cvs| > 2 {
      PairUpPair(m, cvs);
      Halves(m, cvs);
      Halves(m, PairUp(m, cvs));
    }
  }

  lemma Halves(m: Mode, leaves: seq<Cv>)
    requires |leaves| >= 2
    ensures TreeCv(m, leaves) == Parent(m, TreePair(m, leaves).0, TreePair(m, leaves).1)
  {
  }

  /** With more than two values it has the same children of the root, too. */
  lemma {:induction false} PairUpPair(m: Mode, cvs: seq<Cv>)
    requires |cvs| > 2
    ensures TreePair(m, PairUp(m, cvs)) == TreePair(m, cvs)
    decreases |cvs|, 0
  {
    hide TreeCv, TreePair, PairUp, Parent, SplitPoint;
    var p := SplitPoint(|cvs|);
    var a, b := cvs[..p], cvs[p..];
    assert cvs == a + b;
    assert p > 1 && p % 2 == 0 && IsPow2(p / 2);
    PairUpConcat(m, a, b);
    PairUpTree(m, a);
    PairUpTree(m, b);
    Join(m, a, b);
    Join(m, PairUp(m, a), PairUp(m, b));
  }

  // ------------------------------------------------------------------ the stack

  /** Complete subtrees, largest first, one for every set bit of the number of leaves. */
  function Stack(m: Mode, leaves: seq<Cv>): (s: seq<Cv>)
    ensures |s| == PopCount(|leaves|)
    decreases |leaves|
  {
    hide PopCount, TopBit, IsPow2, TreeCv;
    if leaves == [] then PopCountNone(|leaves|); []
    else
      PopCountTop(|leaves|);
      var p := TopBit(|leaves|);
      [TreeCv(m, leaves[..p])] + Stack(m, leaves[p..])
  }

  /** The stack of `u * q + b` leaves with `b < u`: the stack of the first `u * q`, and
      on top of it the stack of the rest. */
  lemma {:induction false} StackConcat(m: Mode, leaves: seq<Cv>, u: nat, q: nat, a: nat)
    requires IsPow2(u) && a == u * q && a <= |leaves| < a + u
    ensures Stack(m, leaves) == Stack(m, leaves[..a]) + Stack(m, leaves[a..])
    decreases |leaves|
  {
    hide Stack, TopBit, IsPow2, PopCount;
    if q == 0 {
      StackNoPrefix(m, leaves);
    } else {
      var t := TopBit(q);
      var p := u * t;
      TopParts(u, q, a, |leaves|);
      StackConcat(m, leaves[p..], u, q - t, a - p);
      StackStep(m, leaves, p, a);
    }
  }

  lemma StackNoPrefix(m: Mode, leaves: seq<Cv>)
    ensures Stack(m, leaves) == Stack(m, leaves[..0]) + Stack(m, leaves[0..])
  {
    assert leaves[..0] == [] && leaves[0..] == leaves;
    assert Stack(m, []) == [];
  }

  lemma TopParts(u: nat, q: nat, a: nat, n: nat)
    requires IsPow2(u) && q > 0 && a == u * q && a <= n < a + u
    ensures var p := u * TopBit(q);
            0 < p <= a && TopBit(n) == p && TopBit(a) == p && u * (q - TopBit(q)) == a - p
  {
    hide TopBit, IsPow2;
    TopBitScaled(u, q);
    ScaledTop(u, q, n);
    var t := TopBit(q);
    Multiply(u, t, q);
    Distribute(u, q, t);
    Positive(u);
    Multiply(u, 1, t);
  }

  lemma Distribute(u: nat, q: nat, t: nat)
    requires t <= q
    ensures u * (q - t) == u * q - u * t
  {
  }

  lemma StackUnfold(m: Mode, leaves: seq<Cv>)
    requires leaves != []
    ensures var p := TopBit(|leaves|);
            Stack(m, leaves) == [TreeCv(m, leaves[..p])] + Stack(m, leaves[p..])
  {
  }

  /** One entry off the bottom of both sides. */
  lemma StackStep(m: Mode, leaves: seq<Cv>, p: nat, a: nat)
    requires 0 < p <= a <= |leaves| && TopBit(|leaves|) == p && TopBit(a) == p
    requires Stack(m, leaves[p..]) == Stack(m, leaves[p..][..a - p]) + Stack(m, leaves[p..][a - p..])
    ensures Stack(m, leaves) == Stack(m, leaves[..a]) + Stack(m, leaves[a..])
  {
    hide Stack, TreeCv, PopCount, TopBit;
    StackUnfold(m, leaves);
    StackUnfold(m, leaves[..a]);
    assert leaves[..a][..p] == leaves[..p];
    assert leaves[..a][p..] == leaves[p..][..a - p];
    assert leaves[p..][a - p..] == leaves[a..];
  }

  /** The top bit of `u * q + b` is that of `u * q`. */
  lemma ScaledTop(u: nat, q: nat, n: nat)
    requires IsPow2(u) && q > 0 && u * q <= n < u * q + u
    ensures TopBit(n) == u * TopBit(q)
  {
    var t := TopBit(q);
    Pow2Product(u, t);
    ScaledBounds(u, q, t);
    TopBitUnique(n, u * t);
  }

  lemma ScaledBounds(u: nat, q: nat, t: nat)
    requires t <= q < 2 * t
    ensures u * t <= u * q && u * q + u <= 2 * (u * t)
  {
    var d, e := q - t, 2 * t - q - 1;
    assert u * q == u * t + u * d;
    assert 2 * (u * t) == u * q + u + u * e;
  }

  /** A power of two of leaves is one entry. */
  lemma StackComplete(m: Mode, leaves: seq<Cv>)
    requires IsPow2(|leaves|)
    ensures Stack(m, leaves) == [TreeCv(m, leaves)]
  {
    TopBitUnique(|leaves|, |leaves|);
    assert leaves[..|leaves|] == leaves;
    assert Stack(m, leaves[|leaves|..]) == [];
  }

  /** A stack that has not been merged after its last push: the stack of the first
      `t * q` leaves, and on top one subtree of the remaining `t`. */
  predicate Lazy(m: Mode, leaves: seq<Cv>, stack: seq<Cv>, t: nat, q: nat) {
    && IsPow2(t) && |leaves| == t * q + t
    && stack == Stack(m, leaves[..t * q]) + [TreeCv(m, leaves[t * q..])]
  }

  lemma LazyLength(m: Mode, leaves: seq<Cv>, stack: seq<Cv>, t: nat, q: nat)
    requires Lazy(m, leaves, stack, t, q)
    ensures |stack| == PopCount(q) + 1
    ensures PopCount(|leaves|) == PopCount(q + 1)
  {
    hide IsPow2, PopCount, Stack, TreeCv;
    PopCountScaled(t, q);
    PopCountScaled(t, q + 1);
    OneMore(t, q);
  }

  lemma OneMore(t: nat, q: nat)
    ensures t * (q + 1) == t * q + t
  {
  }

  /** If the quotient is even there is nothing to merge. */
  lemma LazyEven(m: Mode, leaves: seq<Cv>, stack: seq<Cv>, t: nat, q: nat)
    requires Lazy(m, leaves, stack, t, q) && q % 2 == 0
    ensures stack == Stack(m, leaves)
  {
    hide Stack, TreeCv, IsPow2, Lazy;
    var a := t * q;
    LazyParts(m, leaves, stack, t, q, a);
    Double(t, q);
    StackConcat(m, leaves, 2 * t, q / 2, a);
    StackComplete(m, leaves[a..]);
  }

  /** The last entry of the stack of an odd multiple of `t`. */
  lemma StackOddTop(m: Mode, leaves: seq<Cv>, t: nat, h: nat)
    requires IsPow2(t) && |leaves| == t * (2 * h + 1)
    ensures (2 * t) * h + t == |leaves|
    ensures Stack(m, leaves) == Stack(m, leaves[..(2 * t) * h]) + [TreeCv(m, leaves[(2 * t) * h..])]
  {
    hide Stack, TreeCv, IsPow2;
    TwoHalves(t, h, 1);
    Twice(t);
    StackConcat(m, leaves, 2 * t, h, (2 * t) * h);
    StackComplete(m, leaves[(2 * t) * h..]);
  }

  /** If it is odd, merging the two entries on top gives a lazy stack whose top is twice
      as large. */
  lemma LazyMerge(m: Mode, leaves: seq<Cv>, stack: seq<Cv>, t: nat, q: nat)
    requires Lazy(m, leaves, stack, t, q) && q % 2 == 1
    ensures |stack| >= 2
    ensures var n := |stack|;
            Lazy(m, leaves, stack[..n - 2] + [Parent(m, stack[n - 2], stack[n - 1])], 2 * t, q / 2)
  {
    hide Stack, TreeCv, TreePair, Parent, IsPow2, Lazy;
    var a, b := t * q, (2 * t) * (q / 2);
    LazyParts(m, leaves, stack, t, q, a);
    Double(t, q);
    PeelOdd(m, leaves, a, b, t, q / 2);
    Halves(m, leaves[b..]);
    TopTwo(stack, Stack(m, leaves[..b]), TreeCv(m, leaves[b..a]), TreeCv(m, leaves[a..]));
    MakeLazy(m, leaves, Stack(m, leaves[..b]), 2 * t, q / 2, b);
  }

  lemma LazyParts(m: Mode, leaves: seq<Cv>, stack: seq<Cv>, t: nat, q: nat, a: nat)
    requires Lazy(m, leaves, stack, t, q) && a == t * q
    ensures IsPow2(t) && |leaves| == a + t && stack == Stack(m, leaves[..a]) + [TreeCv(m, leaves[a..])]
  {
  }

  lemma TopTwo(stack: seq<Cv>, below: seq<Cv>, x: Cv, y: Cv)
    requires stack == below + [x] + [y]
    ensures var n := |stack|; n >= 2 && stack[..n - 2] == below && stack[n - 2] == x && stack[n - 1] == y
  {
  }

  lemma MakeLazy(m: Mode, leaves: seq<Cv>, entries: seq<Cv>, t: nat, q: nat, a: nat)
    requires IsPow2(t) && t > 0 && a == t * q && |leaves| == a + t && entries == Stack(m, leaves[..a])
    ensures Lazy(m, leaves, entries + [TreeCv(m, leaves[a..])], t, q)
  {
    hide Stack, TreeCv, IsPow2;
  }

  /** Takes the top entry off the stack of the first `a` leaves, where not more than `t`
      leaves follow: entry and followers are the children of one node. */
  lemma {:induction false} Peel(m: Mode, leaves: seq<Cv>, a: nat, t: nat, q: nat)
    returns (b: nat, u: nat, h: nat)
    requires IsPow2(t) && q > 0 && a == t * q && a < |leaves| <= a + t
    ensures b < a && IsPow2(u) && b == u * h && |leaves| <= b + u
    ensures Stack(m, leaves[..a]) == Stack(m, leaves[..b]) + [TreeCv(m, leaves[b..a])]
    ensures TreePair(m, leaves[b..]) == (TreeCv(m, leaves[b..a]), TreeCv(m, leaves[a..]))
    decreases q
  {
    hide Stack, TreeCv, TreePair, IsPow2;
    Double(t, q);
    if q % 2 == 0 {
      b, u, h := Peel(m, leaves, a, 2 * t, q / 2);
    } else {
      u, h := 2 * t, q / 2;
      b := u * h;
      PeelOdd(m, leaves, a, b, t, h);
    }
  }

  lemma Double(t: nat, q: nat)
    requires IsPow2(t)
    ensures IsPow2(2 * t) && t > 0
    ensures q % 2 == 0 ==> t * q == (2 * t) * (q / 2)
    ensures q % 2 == 1 ==> t * q == (2 * t) * (q / 2) + t
  {
    hide IsPow2;
    Twice(t);
    Positive(t);
    TwoHalves(t, q / 2, q % 2);
  }

  lemma TwoHalves(t: nat, h: nat, r: nat)
    ensures t * (2 * h + r) == (2 * t) * h + t * r
  {
    assert t * (2 * h) == (2 * t) * h;
  }

  lemma PeelOdd(m: Mode, leaves: seq<Cv>, a: nat, b: nat, t: nat, h: nat)
    requires IsPow2(t) && b == (2 * t) * h && a == b + t && a < |leaves| <= a + t
    ensures Stack(m, leaves[..a]) == Stack(m, leaves[..b]) + [TreeCv(m, leaves[b..a])]
    ensures TreePair(m, leaves[b..]) == (TreeCv(m, leaves[b..a]), TreeCv(m, leaves[a..]))
  {
    hide Stack, TreeCv, TreePair, IsPow2;
    assert a == t * (2 * h + 1);
    StackOddTop(m, leaves[..a], t, h);
    assert leaves[..a][..b] == leaves[..b] && leaves[..a][b..] == leaves[b..a];
    var x, y := leaves[b..a], leaves[a..];
    assert leaves[b..] == x + y;
    Join(m, x, y);
  }

  // ------------------------------------------------------------- stack, entry by entry

  /** The sizes of the subtrees in the stack of `n` leaves. */
  function Sizes(n: nat): (s: seq<nat>)
    ensures |s| == PopCount(n)
  {
    if n == 0 then [] else PopCountTop(n); [TopBit(n)] + Sizes(n - TopBit(n))
  }

  function Total(s: seq<nat>): nat {
    if s == [] then 0 else s[0] + Total(s[1..])
  }

  /** Powers of two, largest first, adding up to `n`: the set bits of `n`. */
  lemma {:induction false} SizesAreBits(n: nat)
    ensures Total(Sizes(n)) == n
    ensures forall i: nat | i < |Sizes(n)| :: IsPow2(Sizes(n)[i]) && Sizes(n)[i] <= n
    ensures forall i: nat, j: nat | i < j < |Sizes(n)| :: Sizes(n)[j] < Sizes(n)[i]
  {
    if n > 0 {
      SizesAreBits(n - TopBit(n));
    }
  }

  /** Entry `i` of the stack is the subtree over the leaves that follow those of the
      entries below it. */
  lemma {:induction false} StackEntry(m: Mode, leaves: seq<Cv>, i: nat)
    requires i < |Stack(m, leaves)|
    ensures var sizes := Sizes(|leaves|);
            var from := Total(sizes[..i]);
            && from + sizes[i] <= |leaves| && sizes[i] > 0
            && Stack(m, leaves)[i] == TreeCv(m, leaves[from..from + sizes[i]])
    decreases |leaves|
  {
    hide Stack, TreeCv, TopBit, PopCount;
    NonEmpty(leaves, i, Stack(m, leaves));
    var p := TopBit(|leaves|);
    var sizes := Sizes(|leaves|);
    StackUnfold(m, leaves);
    var rest := leaves[p..];
    assert sizes == [p] + Sizes(|rest|);
    if i > 0 {
      StackEntry(m, rest, i - 1);
      var from := Total(Sizes(|rest|)[..i - 1]);
      TotalPrefix(p, Sizes(|rest|), i);
      assert rest[from..from + sizes[i]] == leaves[p + from..p + from + sizes[i]];
    }
  }

  lemma NonEmpty(leaves: seq<Cv>, i: nat, stack: seq<Cv>)
    requires i < |stack| == PopCount(|leaves|)
    ensures leaves != []
  {
  }

  lemma TotalPrefix(p: nat, s: seq<nat>, i: nat)
    requires 0 < i <= |s| + 1
    ensures Total(([p] + s)[..i]) == p + Total(s[..i - 1])
  {
    assert ([p] + s)[..i] == [p] + s[..i - 1];
  }

  /** In an unmerged stack only the two entries on top can be equally large: the new top
      is not larger than any entry below it. */
  lemma {:induction false} LazyTop(t: nat, q: nat, n: nat, i: nat)
    requires IsPow2(t) && n == t * q && i < |Sizes(n)|
    ensures t <= Sizes(n)[i]
    decreases q
  {
    hide IsPow2, TopBit, PopCount;
    assert q > 0 && n > 0 by {
      assert q == 0 ==> n == 0;
    }
    Positive(t);
    TopBitScaled(t, q);
    Multiply(t, 1, TopBit(q));
    if i > 0 {
      Distribute(t, q, TopBit(q));
      LazyTop(t, q - TopBit(q), n - TopBit(n), i - 1);
    }
  }

  // -------------------------------------------------------------------- chunks

  /** The chaining values of the chunks of `input`, numbered from `counter`. */
  function ChunkCvs(m: Mode, input: seq<byte>, counter: nat): (r: seq<Cv>)
    ensures |r| == (|input| + CHUNK_LEN - 1) / CHUNK_LEN
    decreases |input|
  {
    if input == [] then []
    else if |input| <= CHUNK_LEN then [ChunkCv(m, input, counter)]
    else [ChunkCv(m, input[..CHUNK_LEN], counter)] + ChunkCvs(m, input[CHUNK_LEN..], counter + 1)
  }

  lemma ChunkCvsUnfold(m: Mode, input: seq<byte>, counter: nat)
    requires |input| >= CHUNK_LEN
    ensures ChunkCvs(m, input, counter)
            == [ChunkCv(m, input[..CHUNK_LEN], counter)] + ChunkCvs(m, input[CHUNK_LEN..], counter + 1)
  {
    if |input| == CHUNK_LEN {
      assert input[..CHUNK_LEN] == input && input[CHUNK_LEN..] == [];
    }
  }

  lemma {:induction false} ChunkCvsConcat(m: Mode, a: seq<byte>, b: seq<byte>, counter: nat)
    requires |a| % CHUNK_LEN == 0
    ensures ChunkCvs(m, a + b, counter) == ChunkCvs(m, a, counter) + ChunkCvs(m, b, counter + |a| / CHUNK_LEN)
    decreases |a|
  {
    hide ChunkCv, ChunkCvs;
    if a == [] {
      assert a + b == b;
    } else {
      ChunkCvsUnfold(m, a, counter);
      ChunkCvsUnfold(m, a + b, counter);
      assert (a + b)[..CHUNK_LEN] == a[..CHUNK_LEN];
      assert (a + b)[CHUNK_LEN..] == a[CHUNK_LEN..] + b;
      ChunkCvsConcat(m, a[CHUNK_LEN..], b, counter + 1);
    }
  }

  /** The tree of the specification is the tree over the chunks. */
  lemma {:induction false} NodeIsTree(m: Mode, input: seq<byte>, counter: nat)
    requires |input| > 0
    ensures ChainingValue(m, NodeOutput(m, input, counter)) == TreeCv(m, ChunkCvs(m, input, counter))
    ensures |input| > CHUNK_LEN ==>
              var c := TreePair(m, ChunkCvs(m, input, counter));
              NodeOutput(m, input, counter) == ParentOutput(m, c.0, c.1)
    decreases |input|
  {
    hide TreeCv, TreePair, ChunkCvs, ChunkOutput, ChainingValue, Parent, LeftLen, IsPow2, NodeOutput;
    if |input| <= CHUNK_LEN {
      NodeIsChunk(m, input, counter);
    } else {
      var l := LeftLen(|input|);
      var a, b := input[..l], input[l..];
      assert input == a + b;
      NodeIsTree(m, a, counter);
      NodeIsTree(m, b, counter + l / CHUNK_LEN);
      ChunkCvsConcat(m, a, b, counter);
      Join(m, ChunkCvs(m, a, counter), ChunkCvs(m, b, counter + l / CHUNK_LEN));
      NodeIsParent(m, input, counter);
    }
  }

  lemma NodeIsChunk(m: Mode, input: seq<byte>, counter: nat)
    requires 0 < |input| <= CHUNK_LEN
    ensures ChainingValue(m, NodeOutput(m, input, counter)) == TreeCv(m, ChunkCvs(m, input, counter))
  {
    assert ChunkCvs(m, input, counter) == [ChunkCv(m, input, counter)];
  }

  lemma NodeIsParent(m: Mode, input: seq<byte>, counter: nat)
    requires |input| > CHUNK_LEN
    ensures var l := LeftLen(|input|);
            var x := ChainingValue(m, NodeOutput(m, input[..l], counter));
            var y := ChainingValue(m, NodeOutput(m, input[l..], counter + l / CHUNK_LEN));
            && NodeOutput(m, input, counter) == ParentOutput(m, x, y)
            && ChainingValue(m, NodeOutput(m, input, counter)) == Parent(m, x, y)
  {
  }
}
