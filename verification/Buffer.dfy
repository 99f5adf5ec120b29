/** Buffers made of views of shared blocks, and the byte sequence they stand for. */
module Buffer {
  import opened Prelude

  /** PolymorphicBuffer: a part of a block that may be shared with other buffers. */
  datatype View = View(block: array<byte>, start: nat, size: nat) {
    predicate InBlock() { start + size <= block.Length }

    function Skip(n: nat): View
      requires n < size
    {
      View(block, start + n, size - n)
    }

    function Bytes(): seq<byte>
      requires InBlock()
      reads block
    {
      block[start..start + size]
    }
  }

  /** No view of a buffer is empty. */
  predicate Proper(views: seq<View>) {
    forall i | 0 <= i < |views| :: views[i].InBlock() && views[i].size > 0
  }

  ghost function Blocks(views: seq<View>): set<array<byte>> {
    set i | 0 <= i < |views| :: views[i].block
  }

  function Size(views: seq<View>): nat {
    if views == [] then 0 else views[0].size + Size(views[1..])
  }

  ghost function Flat(views: seq<View>): (s: seq<byte>)
    requires Proper(views)
    reads Blocks(views)
    ensures |s| == Size(views)
  {
    if views == [] then [] else views[0].Bytes() + Flat(views[1..])
  }

  lemma {:induction false} FlatAppend(a: seq<View>, b: seq<View>)
    requires Proper(a) && Proper(b)
    ensures Proper(a + b) && Flat(a + b) == Flat(a) + Flat(b) && Size(a + b) == Size(a) + Size(b)
    decreases |a|
  {
    hide Flat, Size;
    if a == [] {
      NoViews();
      assert a + b == b;
    } else {
      FlatHead(a);
      FlatHead(a + b);
      assert (a + b)[1..] == a[1..] + b;
      FlatAppend(a[1..], b);
    }
  }

  lemma BlocksAppend(a: seq<View>, b: seq<View>)
    ensures Blocks(a + b) == Blocks(a) + Blocks(b)
  {
    forall x | x in Blocks(a) + Blocks(b) ensures x in Blocks(a + b) {
      if x in Blocks(a) {
        var i :| 0 <= i < |a| && a[i].block == x;
        assert (a + b)[i].block == x;
      } else {
        var i :| 0 <= i < |b| && b[i].block == x;
        assert (a + b)[|a| + i].block == x;
      }
    }
  }

  lemma FlatHead(views: seq<View>)
    requires Proper(views) && views != []
    ensures Proper(views[1..]) && Flat(views) == views[0].Bytes() + Flat(views[1..])
    ensures Size(views) == views[0].size + Size(views[1..])
  {
  }

  lemma EmptyIsNoViews(views: seq<View>)
    requires Proper(views)
    ensures views == [] <==> Size(views) == 0
  {
  }

  /** The views without their first `n` bytes, which all belong to the first view. */
  function SkipInFirst(views: seq<View>, n: nat): seq<View>
    requires views != [] && n <= views[0].size
  {
    if n == views[0].size then views[1..] else [views[0].Skip(n)] + views[1..]
  }

  lemma FlatSkip(views: seq<View>, n: nat)
    requires Proper(views) && views != [] && n <= views[0].size
    ensures var rest := SkipInFirst(views, n);
            && Proper(rest) && Flat(rest) == Flat(views)[n..] && Size(rest) == Size(views) - n
            && Blocks(rest) <= Blocks(views)
  {
    hide Flat, Size;
    FlatHead(views);
    if n < views[0].size {
      var rest := SkipInFirst(views, n);
      FlatHead(rest);
      assert rest[1..] == views[1..];
      SkipBytes(views[0], n, Flat(views[1..]));
    }
  }

  lemma SkipBytes(v: View, n: nat, rest: seq<byte>)
    requires v.InBlock() && n < v.size
    ensures v.Skip(n).Bytes() + rest == (v.Bytes() + rest)[n..]
  {
  }

  lemma FlatStep(views: seq<View>, i: nat)
    requires Proper(views) && i < |views|
    ensures Flat(views[..i + 1]) == Flat(views[..i]) + views[i].Bytes()
  {
    hide Flat, Size;
    assert views[..i + 1] == views[..i] + [views[i]];
    FlatAppend(views[..i], [views[i]]);
    OneView(views[i]);
  }

  lemma Around(views: seq<View>, i: nat)
    requires Proper(views) && i < |views|
    ensures views[i].InBlock() && Proper(views[..i]) && Proper(views[..i + 1]) && Proper(views[i + 1..])
    ensures Flat(views) == Flat(views[..i]) + views[i].Bytes() + Flat(views[i + 1..])
    ensures Flat(views[..i + 1]) == Flat(views[..i]) + views[i].Bytes()
  {
    hide Flat, Size;
    FlatStep(views, i);
    assert views == views[..i + 1] + views[i + 1..];
    FlatAppend(views[..i + 1], views[i + 1..]);
  }

  /** NoncontiguousBuffer */
  class NoncontiguousBuffer {
    var byteSize: nat
    var buffers: seq<View>

    ghost predicate Valid()
      reads this
    {
      Proper(buffers) && byteSize == Size(buffers)
    }

    ghost function Contents(): (s: seq<byte>)
      requires Valid()
      reads this, Blocks(buffers)
      ensures |s| == byteSize
    {
      Flat(buffers)
    }

    constructor ()
      ensures Valid() && buffers == []
    {
      byteSize, buffers := 0, [];
    }

    /** The copy constructor: both buffers share the blocks from now on. */
    constructor Copy(nb: NoncontiguousBuffer)
      requires nb.Valid()
      ensures Valid() && Contents() == nb.Contents() && Blocks(buffers) == Blocks(nb.buffers)
    {
      byteSize, buffers := nb.byteSize, [];
      new;
      for i := 0 to |nb.buffers|
        modifies this
        invariant byteSize == nb.byteSize && buffers == nb.buffers[..i]
      {
        buffers := buffers + [nb.buffers[i]];
      }
      assert nb.buffers[..|nb.buffers|] == nb.buffers;
    }

    /** The move constructor. */
    constructor Move(nb: NoncontiguousBuffer)
      requires nb.Valid()
      modifies nb
      ensures Valid() && Contents() == old(nb.Contents()) && nb.Valid() && nb.buffers == []
      ensures buffers == old(nb.buffers)
    {
      byteSize, buffers := nb.byteSize, nb.buffers;
      new;
      nb.NotABlock(buffers);
      NotABlock(buffers);
      nb.byteSize, nb.buffers := 0, [];
    }

    /** operator=(const NoncontiguousBuffer&) */
    method Assign(nb: NoncontiguousBuffer)
      requires Valid() && nb.Valid()
      modifies this
      ensures Valid() && nb.Valid() && Contents() == old(nb.Contents()) && nb.Contents() == old(nb.Contents())
    {
      hide Flat, Size;
      if nb == this {
        return;
      }
      NotABlock(nb.buffers);
      Clear();
      byteSize := nb.byteSize;
      for i := 0 to |nb.buffers|
        modifies this
        invariant byteSize == nb.byteSize && buffers == nb.buffers[..i]
      {
        buffers := buffers + [nb.buffers[i]];
      }
      assert buffers == nb.buffers && Contents() == nb.Contents();
    }

    /** Changing a buffer changes no block. */
    lemma NotABlock(views: seq<View>)
      ensures forall o: object | o in Blocks(views) :: o != this
    {
    }

    /** Clear() and ClearSlow() */
    method Clear()
      requires Valid()
      modifies this
      ensures Valid() && buffers == []
    {
      if byteSize != 0 {
        byteSize := 0;
        while buffers != []
          modifies this
          invariant byteSize == 0
          decreases |buffers|
        {
          buffers := buffers[1..];
        }
      }
      EmptyIsNoViews(buffers);
    }

    method FirstContiguous() returns (v: View)
      requires Valid() && byteSize > 0
      ensures v.InBlock() && 0 < v.size <= byteSize && v.block in Blocks(buffers)
      ensures v.Bytes() == Contents()[..v.size]
    {
      EmptyIsNoViews(buffers);
      v := buffers[0];
    }

    method Skip(bytes: nat)
      requires Valid() && bytes <= byteSize
      modifies this
      ensures Valid() && Contents() == old(Contents())[bytes..]
      ensures Blocks(buffers) <= old(Blocks(buffers))
    {
      hide Flat, Size;
      EmptyIsNoViews(buffers);
      if bytes == 0 {
        assert Contents()[0..] == Contents();
      } else if bytes < buffers[0].size {
        FlatSkip(buffers, bytes);
        buffers := [buffers[0].Skip(bytes)] + buffers[1..];
        byteSize := byteSize - bytes;
      } else {
        SkipSlow(bytes);
      }
    }

    method SkipSlow(bytes: nat)
      requires Valid() && bytes <= byteSize
      modifies this
      ensures Valid() && Contents() == old(Contents())[bytes..]
      ensures Blocks(buffers) <= old(Blocks(buffers))
    {
      hide Flat, Size;
      byteSize := byteSize - bytes;
      var left: nat := bytes;
      while left > 0
        invariant Proper(buffers) && Size(buffers) == byteSize + left && left <= bytes
        invariant byteSize == old(byteSize) - bytes
        invariant Blocks(buffers) <= old(Blocks(buffers))
        invariant Flat(buffers) == old(Contents())[bytes - left..]
      {
        EmptyIsNoViews(buffers);
        var first := buffers[0];
        var os := if left < first.size then left else first.size;
        FlatSkip(buffers, os);
        if os == first.size {
          buffers := buffers[1..];
        } else {
          buffers := [first.Skip(os)] + buffers[1..];
        }
        assert old(Contents())[bytes - left..][os..] == old(Contents())[bytes - left + os..];
        left := left - os;
      }
    }

    /** Cut() */
    method Cut(bytes: nat) returns (rc: NoncontiguousBuffer)
      requires Valid() && bytes <= byteSize
      modifies this
      ensures fresh(rc) && Valid() && rc.Valid()
      ensures rc.Contents() == old(Contents())[..bytes] && Contents() == old(Contents())[bytes..]
      ensures Blocks(buffers) <= old(Blocks(buffers)) && Blocks(rc.buffers) <= old(Blocks(buffers))
    {
      hide Flat, Size, Proper, Parted;
      ghost var all := buffers;
      NotABlock(all);
      rc := new NoncontiguousBuffer();
      rc.NotABlock(all);
      StartParted(all);
      var left := CutWhole(rc, bytes, all);
      CutPart(rc, left, all);
      PartedAt(all, rc.buffers, buffers, bytes);
      NotABlock(rc.buffers + buffers);
      rc.NotABlock(rc.buffers + buffers);
      BlocksAppend(rc.buffers, buffers);
      rc.byteSize := bytes;
      byteSize := byteSize - bytes;
    }

    /** The loop of Cut(): whole views change hands. */
    method CutWhole(rc: NoncontiguousBuffer, bytes: nat, ghost all: seq<View>) returns (left: nat)
      requires rc != this && Proper(all) && Parted(all, rc.buffers, buffers)
      requires Size(rc.buffers) == 0 && bytes <= Size(buffers)
      modifies this`buffers, rc`buffers
      ensures Parted(all, rc.buffers, buffers) && left <= bytes && Size(rc.buffers) == bytes - left
      ensures left > 0 ==> buffers != [] && left < buffers[0].size
    {
      hide Flat, Size;
      NotABlock(all);
      rc.NotABlock(all);
      left := bytes;
      EmptyIsNoViews(buffers);
      while left > 0 && left >= buffers[0].size
        invariant Parted(all, rc.buffers, buffers)
        invariant left <= bytes && Size(rc.buffers) == bytes - left && left <= Size(buffers)
        invariant left > 0 ==> buffers != []
      {
        MoveFirst(all, rc.buffers, buffers);
        FlatHead(buffers);
        left := left - buffers[0].size;
        rc.buffers := rc.buffers + [buffers[0]];
        buffers := buffers[1..];
        EmptyIsNoViews(buffers);
      }
    }

    /** Its last step: both buffers have a part of the same view. */
    method CutPart(rc: NoncontiguousBuffer, left: nat, ghost all: seq<View>)
      requires rc != this && Proper(all) && Parted(all, rc.buffers, buffers)
      requires left > 0 ==> buffers != [] && left < buffers[0].size
      modifies this`buffers, rc`buffers
      ensures Parted(all, rc.buffers, buffers) && Size(rc.buffers) == old(Size(rc.buffers)) + left
    {
      hide Flat, Size;
      NotABlock(all);
      rc.NotABlock(all);
      if left > 0 {
        MovePart(all, rc.buffers, buffers, left);
        rc.buffers := rc.buffers + [buffers[0].(size := left)];
        buffers := [buffers[0].Skip(left)] + buffers[1..];
      }
    }

    /** Append(PolymorphicBuffer) */
    method AppendView(v: View)
      requires Valid() && v.InBlock()
      modifies this
      ensures Valid() && Contents() == old(Contents()) + v.Bytes()
      ensures buffers == old(buffers) + if v.size == 0 then [] else [v]
      ensures Blocks(buffers) <= old(Blocks(buffers)) + {v.block}
    {
      hide Flat, Size;
      if v.size == 0 {
        return;
      }
      BlocksAppend(buffers, [v]);
      NotABlock(buffers + [v]);
      FlatAppend(buffers, [v]);
      OneView(v);
      byteSize := byteSize + v.size;
      buffers := buffers + [v];
    }

    /** Append(NoncontiguousBuffer), which takes the views away from `nb`. */
    method AppendBuffer(nb: NoncontiguousBuffer)
      requires Valid() && nb.Valid() && nb != this
      modifies this, nb
      ensures Valid() && Contents() == old(Contents()) + old(nb.Contents())
      ensures nb.Valid() && nb.buffers == [] && buffers == old(buffers) + old(nb.buffers)
      ensures Blocks(buffers) == old(Blocks(buffers)) + old(Blocks(nb.buffers))
    {
      hide Flat, Size;
      BlocksAppend(buffers, nb.buffers);
      NotABlock(buffers + nb.buffers);
      nb.NotABlock(buffers + nb.buffers);
      FlatAppend(buffers, nb.buffers);
      NoViews();
      byteSize := byteSize + nb.byteSize;
      nb.byteSize := 0;
      buffers := buffers + nb.buffers;
      nb.buffers := [];
    }
  }

  lemma NoViews()
    ensures Proper([]) && Flat([]) == [] && Size([]) == 0
  {
  }

  lemma OneView(v: View)
    requires v.InBlock() && v.size > 0
    ensures Proper([v]) && Flat([v]) == v.Bytes() && Size([v]) == v.size
  {
  }

  /** `a` and then `b` have the bytes of `all`. */
  ghost predicate Parted(all: seq<View>, a: seq<View>, b: seq<View>)
    requires Proper(all)
    reads Blocks(all), Blocks(a), Blocks(b)
  {
    && Proper(a) && Proper(b) && Flat(a) + Flat(b) == Flat(all)
    && Blocks(a) <= Blocks(all) && Blocks(b) <= Blocks(all)
  }

  lemma StartParted(all: seq<View>)
    requires Proper(all)
    ensures Parted(all, [], all) && Size([]) == 0
  {
    NoViews();
  }

  lemma PartedAt(all: seq<View>, a: seq<View>, b: seq<View>, n: nat)
    requires Proper(all) && Parted(all, a, b) && Size(a) == n
    ensures Proper(a) && Proper(b) && n <= Size(all) && Size(b) == Size(all) - n
    ensures Flat(a) == Flat(all)[..n] && Flat(b) == Flat(all)[n..]
    ensures Blocks(a) <= Blocks(all) && Blocks(b) <= Blocks(all)
  {
    hide Flat, Size;
    assert |Flat(a)| == n && |Flat(b)| == Size(b) && |Flat(all)| == Size(all);
  }

  lemma MoveFirst(all: seq<View>, a: seq<View>, b: seq<View>)
    requires Proper(all) && Parted(all, a, b) && b != []
    ensures Parted(all, a + [b[0]], b[1..]) && Size(a + [b[0]]) == Size(a) + b[0].size
  {
    hide Flat, Size;
    FlatAppend(a, [b[0]]);
    BlocksAppend(a, [b[0]]);
    OneView(b[0]);
    FlatHead(b);
  }

  lemma MovePart(all: seq<View>, a: seq<View>, b: seq<View>, n: nat)
    requires Proper(all) && Parted(all, a, b) && b != [] && 0 < n < b[0].size
    ensures var v := b[0].(size := n);
            Parted(all, a + [v], [b[0].Skip(n)] + b[1..]) && Size(a + [v]) == Size(a) + n
  {
    hide Flat, Size, Blocks;
    var v := b[0].(size := n);
    FlatAppend(a, [v]);
    PartBlocks(all, a, b, n);
    OneView(v);
    FlatHead(b);
    FlatSkip(b, n);
    TakeBytes(b[0], n, Flat(b[1..]));
    Regroup(Flat(a), Flat(b), n);
  }

  lemma PartBlocks(all: seq<View>, a: seq<View>, b: seq<View>, n: nat)
    requires b != [] && 0 < n < b[0].size && Blocks(a) <= Blocks(all) && Blocks(b) <= Blocks(all)
    ensures Blocks(a + [b[0].(size := n)]) <= Blocks(all) && Blocks([b[0].Skip(n)] + b[1..]) <= Blocks(all)
  {
    BlocksAppend(a, [b[0].(size := n)]);
    BlocksAppend([b[0].Skip(n)], b[1..]);
    assert b[0].block in Blocks(b);
  }

  lemma Regroup(x: seq<byte>, y: seq<byte>, n: nat)
    requires n <= |y|
    ensures (x + y[..n]) + y[n..] == x + y
  {
  }

  lemma TakeBytes(v: View, n: nat, rest: seq<byte>)
    requires v.InBlock() && n < v.size
    ensures v.(size := n).Bytes() == (v.Bytes() + rest)[..n]
  {
  }

  // ---------------------------------------------------------------- round trips

  /** What was cut off, followed by what is left, is the original. */
  method CutAndRejoin(nb: NoncontiguousBuffer, n: nat) returns (rc: NoncontiguousBuffer)
    requires nb.Valid() && n <= nb.byteSize
    modifies nb
    ensures rc.Valid() && rc.Contents() == old(nb.Contents())
  {
    hide Flat, Size;
    rc := nb.Cut(n);
    rc.AppendBuffer(nb);
  }

  // ------------------------------------------------------------ writing in place

  /** Bytes `at..at + n` of `block` are shown by view `i`, and no other view shows any of
      that block. */
  predicate Placed(views: seq<View>, i: nat, block: array<byte>, at: nat, n: nat) {
    && i < |views| && views[i].block == block && views[i].start <= at && at + n <= views[i].start + views[i].size
    && forall j: nat | j < |views| && j != i :: views[j].block != block
  }

  /** Where they are in the contents. */
  function Place(views: seq<View>, i: nat, at: nat): int
    requires i < |views|
  {
    Size(views[..i]) + at - views[i].start
  }

  function Patched(s: seq<byte>, p: nat, data: seq<byte>): seq<byte>
    requires p + |data| <= |s|
  {
    s[..p] + data + s[p + |data|..]
  }

  /** memcpy() into a block. */
  method CopyTo(block: array<byte>, at: nat, data: seq<byte>)
    requires at + |data| <= block.Length
    modifies block
    ensures block[..] == Patched(old(block[..]), at, data)
  {
    ghost var was := block[..];
    for i := 0 to |data|
      invariant forall j: nat | j < block.Length ::
          block[j] == if at <= j < at + i then data[j - at] else was[j]
    {
      block[at + i] := data[i];
    }
    assert block[..] == Patched(was, at, data);
  }

  /** Writing to a block that one view shows changes the contents in that place and nowhere
      else. */
  method Overwrite(ghost views: seq<View>, ghost i: nat, block: array<byte>, at: nat, data: seq<byte>)
    requires Proper(views) && Placed(views, i, block, at, |data|)
    modifies block
    ensures 0 <= Place(views, i, at) && Place(views, i, at) + |data| <= Size(views)
    ensures Flat(views) == Patched(old(Flat(views)), Place(views, i, at), data)
  {
    hide Flat, Size, Patched;
    Around(views, i);
    ghost var v, before, after := views[i], Flat(views[..i]), Flat(views[i + 1..]);
    ghost var was, all := v.Bytes(), block[..];
    assert block !in Blocks(views[..i]) && block !in Blocks(views[i + 1..]);
    assert was == all[v.start..v.start + v.size];
    CopyTo(block, at, data);
    Around(views, i);
    assert v.Bytes() == block[..][v.start..v.start + v.size];
    PatchedSlice(all, at, data, v.start, v.start + v.size);
    PatchedMiddle(before, was, after, at - v.start, data);
  }

  lemma PatchedSlice(s: seq<byte>, p: nat, data: seq<byte>, from: nat, to: nat)
    requires from <= p && p + |data| <= to <= |s|
    ensures |Patched(s, p, data)| == |s|
    ensures Patched(s, p, data)[from..to] == Patched(s[from..to], p - from, data)
  {
  }

  lemma PatchedMiddle(x: seq<byte>, y: seq<byte>, z: seq<byte>, p: nat, data: seq<byte>)
    requires p + |data| <= |y|
    ensures Patched(x + y + z, |x| + p, data) == x + Patched(y, p, data) + z
  {
  }

  /** A buffer of the given views. */
  method Gather(views: seq<View>) returns (b: NoncontiguousBuffer)
    requires Proper(views)
    ensures fresh(b) && b.Valid() && b.Contents() == Flat(views) && Blocks(b.buffers) <= Blocks(views)
  {
    hide Flat, Size;
    b := new NoncontiguousBuffer();
    NoViews();
    for i := 0 to |views|
      invariant b.Valid() && b.Contents() == Flat(views[..i]) && Blocks(b.buffers) <= Blocks(views)
    {
      FlatStep(views, i);
      b.NotABlock(views[..i + 1]);
      b.AppendView(views[i]);
    }
    assert views[..|views|] == views;
  }
}
