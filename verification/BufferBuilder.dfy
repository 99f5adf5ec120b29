/** The builder that fills private blocks and hands them over when they are full. */
module BufferBuilder {
  import opened Prelude
  import opened Buffer

  const APPEND_VIA_COPY_THRESHOLD: nat := 128
  const MAX_RESERVE: nat := 1024

  /** NoncontiguousBufferBuilder.  `current` is null only between flushing a block and
      allocating the next one. */
  class Builder {
    const blockSize: nat
    const nb: NoncontiguousBuffer
    var used: nat
    var current: array?<byte>

    /** No finished view is in the current block, so that writing there changes none. */
    ghost predicate Private()
      reads this, nb
    {
      && blockSize >= MAX_RESERVE && nb.Valid()
      && (current == null ==> used == 0)
      && (current != null ==> current.Length == blockSize && current !in Blocks(nb.buffers))
    }

    /** The current block is never left full. */
    ghost predicate Valid()
      reads this, nb
      ensures Valid() ==> Private() && used < blockSize && current != null
    {
      Private() && current != null && used < blockSize
    }

    ghost function Contents(): seq<byte>
      requires Private() && used <= blockSize
      reads this, nb, Blocks(nb.buffers), current
    {
      nb.Contents() + (if current == null then [] else current[..used])
    }

    /** Finished views and the used part of the current block. */
    ghost function Views(): seq<View>
      reads this, nb
    {
      ViewsOf(nb.buffers, current, used)
    }

    constructor (blockSize: nat)
      requires blockSize >= MAX_RESERVE
      ensures Valid() && Contents() == [] && fresh(nb) && fresh(current)
    {
      this.blockSize := blockSize;
      this.nb := new NoncontiguousBuffer();
      this.used := 0;
      this.current := null;
      new;
      InitializeNextBlock();
    }

    method InitializeNextBlock()
      requires Private() && used < blockSize
      modifies this
      ensures Valid() && Contents() == old(Contents()) && Views() == old(Views())
      ensures if old(current) == null then fresh(current) else current == old(current)
    {
      nb.NotABlock(nb.buffers);
      NotABlock(nb.buffers);
      if current != null {
        return;
      }
      current := new byte[blockSize](_ => 0);
      used := 0;
    }

    lemma NotABlock(views: seq<View>)
      ensures forall o: object | o in Blocks(views) :: o != this
    {
    }

    method FlushCurrentBlock()
      requires Private() && used <= blockSize
      modifies this, nb
      ensures Private() && used == 0 && current == if old(used) > 0 then null else old(current)
      ensures Contents() == nb.Contents() == old(Contents()) && Views() == old(Views())
    {
      hide Flat, Size;
      if used == 0 {
        return;
      }
      NotABlock(nb.buffers);
      nb.AppendView(View(current, 0, used));
      current := null;
      used := 0;
    }

    /** The bytes are already in the block. */
    method MarkWritten(bytes: nat)
      requires Valid() && used + bytes <= blockSize
      modifies this, nb
      ensures Valid() && Contents() == old(nb.Contents() + current[..used + bytes])
      ensures current == old(current) || fresh(current)
      ensures Views() == old(ViewsOf(nb.buffers, current, used + bytes)) && Extends(old(Views()), Views(), {})
    {
      hide Flat, Size, ViewsOf, Extends;
      NotABlock(nb.buffers);
      UsedGrows(nb.buffers, current, used, used + bytes);
      used := used + bytes;
      if used == blockSize {
        FlushCurrentBlock();
        InitializeNextBlock();
      }
    }

    /** Append(const void*, size_t), with its speculative change of `used`. */
    method Append(bytes: seq<byte>)
      requires Valid()
      modifies this, nb, current
      ensures Valid() && Contents() == old(Contents()) + bytes
      ensures current == old(current) || fresh(current)
      ensures Extends(old(Views()), Views(), {})
    {
      hide Flat, Size, ViewsOf, Extends;
      NotABlock(nb.buffers);
      UsedGrows(nb.buffers, current, used, used + |bytes|);
      var at := used;
      used := used + |bytes|;
      if used < blockSize {
        CopyTo(current, at, bytes);
        assert current[..used] == old(current[..used]) + bytes;
        return;
      }
      used := used - |bytes|;
      AppendSlow(bytes);
    }

    /** AppendSlow() */
    method AppendSlow(bytes: seq<byte>)
      requires Valid()
      modifies this, nb, current
      ensures Valid() && Contents() == old(Contents()) + bytes
      ensures current == old(current) || fresh(current)
      ensures Extends(old(Views()), Views(), {})
    {
      hide Flat, Size, Views, Extends, Valid, Private, Contents;
      ExtendsSelf(Views());
      var done := 0;
      while done < |bytes|
        invariant 0 <= done <= |bytes| && Valid() && Contents() == old(Contents()) + bytes[..done]
        invariant current == old(current) || fresh(current)
        invariant Extends(old(Views()), Views(), {})
      {
        ghost var between := Views();
        var n := if |bytes| - done < blockSize - used then |bytes| - done else blockSize - used;
        Fill(bytes[done..done + n]);
        ExtendsOn(old(Views()), between, Views(), {});
        assert bytes[..done + n] == bytes[..done] + bytes[done..done + n];
        done := done + n;
      }
      assert bytes[..done] == bytes;
    }

    /** One turn of its loop: memcpy() and MarkWritten(). */
    method Fill(bytes: seq<byte>)
      requires Valid() && used + |bytes| <= blockSize
      modifies this, nb, current
      ensures Valid() && Contents() == old(Contents()) + bytes
      ensures current == old(current) || fresh(current)
      ensures Extends(old(Views()), Views(), {})
    {
      hide Flat, Size, ViewsOf, Extends;
      CopyTo(current, used, bytes);
      assert current[..used + |bytes|] == old(current[..used]) + bytes;
      MarkWritten(|bytes|);
    }

    /** Append(unsigned char) */
    method AppendChar(c: byte)
      requires Valid()
      modifies this, nb, current
      ensures Valid() && Contents() == old(Contents()) + [c]
      ensures current == old(current) || fresh(current)
      ensures Extends(old(Views()), Views(), {})
    {
      hide Flat, Size, ViewsOf, Extends;
      current[used] := c;
      assert current[..used + 1] == old(current[..used]) + [c];
      MarkWritten(1);
    }

    /** Append(const Ts&...) */
    method AppendParts(parts: seq<seq<byte>>)
      requires Valid()
      modifies this, nb, current
      ensures Valid() && Contents() == old(Contents()) + Concat(parts)
      ensures current == old(current) || fresh(current)
      ensures Extends(old(Views()), Views(), {})
    {
      hide Flat, Size, Concat, ViewsOf, Extends;
      NotABlock(nb.buffers);
      var at := used;
      var total := TotalSize(parts);
      UsedGrows(nb.buffers, current, used, used + total);
      used := used + total;
      if used < blockSize {
        UncheckedAppend(at, parts);
        assert current[..used] == old(current[..used]) + Concat(parts);
        return;
      }
      used := used - total;
      AppendEach(parts);
    }

    /** Its slow path. */
    method AppendEach(parts: seq<seq<byte>>)
      requires Valid()
      modifies this, nb, current
      ensures Valid() && Contents() == old(Contents()) + Concat(parts)
      ensures current == old(current) || fresh(current)
      ensures Extends(old(Views()), Views(), {})
    {
      hide Flat, Size, Concat, Views, Extends, Valid, Contents;
      ConcatStart(parts);
      ExtendsSelf(Views());
      for i := 0 to |parts|
        invariant Valid() && Contents() == old(Contents()) + Concat(parts[..i])
        invariant current == old(current) || fresh(current)
        invariant Extends(old(Views()), Views(), {})
      {
        ghost var between := Views();
        ConcatStep(parts, i);
        Append(parts[i]);
        ExtendsOn(old(Views()), between, Views(), {});
      }
      assert parts[..|parts|] == parts;
    }

    /** UncheckedAppend() */
    method UncheckedAppend(at: nat, parts: seq<seq<byte>>)
      requires current != null && at + |Concat(parts)| <= current.Length
      modifies current
      ensures current[..at + |Concat(parts)|] == old(current[..at]) + Concat(parts)
    {
      hide Concat;
      ConcatStart(parts);
      var to := at;
      for i := 0 to |parts|
        invariant to == at + |Concat(parts[..i])| <= at + |Concat(parts)|
        invariant current[..to] == old(current[..at]) + Concat(parts[..i])
      {
        ConcatStep(parts, i);
        ConcatPrefix(parts, i + 1);
        CopyTo(current, to, parts[i]);
        to := to + |parts[i]|;
        assert current[..to] == old(current[..at]) + Concat(parts[..i]) + parts[i];
      }
      assert parts[..|parts|] == parts;
    }

    /** Append(PolymorphicBuffer): a small one is copied if it fits, any other is shared. */
    method AppendView(v: View)
      requires Valid() && v.InBlock() && v.block != current
      modifies this, nb, current
      ensures Valid() && Contents() == old(Contents()) + v.Bytes()
      ensures current == old(current) || fresh(current)
      ensures Extends(old(Views()), Views(), {v.block})
      ensures if v.size < 128 && v.size <= blockSize - old(used) then Extends(old(Views()), Views(), {})
              else Views() == old(Views()) + [v]
    {
      hide Flat, Size, Views, Extends, Contents;
      if v.size < APPEND_VIA_COPY_THRESHOLD && blockSize - used >= v.size {
        Append(v.Bytes());
        ExtendsWith(old(Views()), Views(), {}, {v.block});
        return;
      }
      ShareView(v);
      SharesViews(old(Views()), [v], {v.block});
    }

    /** Its slow path: the view itself is put at the end. */
    method ShareView(v: View)
      requires Valid() && v.InBlock() && v.size > 0 && v.block != current
      modifies this, nb
      ensures Valid() && Contents() == old(Contents()) + v.Bytes()
      ensures current == old(current) || fresh(current)
      ensures Views() == old(Views()) + [v]
    {
      hide Flat, Size, ViewsOf;
      if used > 0 {
        FlushCurrentBlock();
        InitializeNextBlock();
      }
      AllFinished(nb.buffers, current);
      nb.AppendView(v);
      AllFinished(nb.buffers, current);
    }

    /** Append(NoncontiguousBuffer), which uses `b` up. */
    method AppendBuffer(b: NoncontiguousBuffer)
      requires Valid() && b.Valid() && b != nb && current !in Blocks(b.buffers)
      modifies this, nb, current, b
      ensures Valid() && Contents() == old(Contents()) + old(b.Contents())
      ensures current == old(current) || fresh(current)
      ensures Extends(old(Views()), Views(), old(Blocks(b.buffers)))
      ensures if old(b.byteSize < 128 && b.byteSize <= blockSize - used) then Extends(old(Views()), Views(), {})
              else Views() == old(Views()) + old(b.buffers) && b.buffers == []
    {
      hide Flat, Size, Views, Extends, Contents;
      if b.byteSize < APPEND_VIA_COPY_THRESHOLD && blockSize - used >= b.byteSize {
        AppendCopy(b);
        ExtendsWith(old(Views()), Views(), {}, old(Blocks(b.buffers)));
        return;
      }
      TakeViews(b);
      SharesViews(old(Views()), old(b.buffers), old(Blocks(b.buffers)));
    }

    /** Its slow path: the views themselves are taken over. */
    method TakeViews(b: NoncontiguousBuffer)
      requires Valid() && b.Valid() && b != nb && current !in Blocks(b.buffers)
      modifies this, nb, b
      ensures Valid() && Contents() == old(Contents()) + old(b.Contents())
      ensures current == old(current) || fresh(current)
      ensures Views() == old(Views()) + old(b.buffers) && b.buffers == []
    {
      hide Flat, Size, ViewsOf;
      NotABlock(b.buffers);
      nb.NotABlock(b.buffers);
      if used > 0 {
        FlushCurrentBlock();
        InitializeNextBlock();
      }
      AllFinished(nb.buffers, current);
      nb.AppendBuffer(b);
      AllFinished(nb.buffers, current);
    }

    /** AppendCopy() */
    method AppendCopy(b: NoncontiguousBuffer)
      requires Valid() && b.Valid() && b != nb && current !in Blocks(b.buffers)
      modifies this, nb, current
      ensures Valid() && Contents() == old(Contents()) + old(b.Contents())
      ensures current == old(current) || fresh(current)
      ensures Extends(old(Views()), Views(), {})
    {
      hide Flat, Size, Views, Extends, Valid, Private, Contents;
      NotABlock(b.buffers);
      nb.NotABlock(b.buffers);
      NoViews();
      ExtendsSelf(Views());
      for i := 0 to |b.buffers|
        invariant Valid() && Flat(b.buffers) == old(b.Contents())
        invariant Contents() == old(Contents()) + Flat(b.buffers[..i])
        invariant current == old(current) || fresh(current)
        invariant Extends(old(Views()), Views(), {})
      {
        ghost var between := Views();
        FlatStep(b.buffers, i);
        PrefixBlocks(b.buffers, i + 1);
        Append(b.buffers[i].Bytes());
        ExtendsOn(old(Views()), between, Views(), {});
      }
      assert b.buffers[..|b.buffers|] == b.buffers;
    }

    /** Reserve(): a contiguous place for bytes to be written later. */
    method Reserve(bytes: nat) returns (block: array<byte>, at: nat)
      requires Valid() && bytes <= MAX_RESERVE
      modifies this, nb
      ensures Valid() && at + bytes <= block.Length && (block == old(current) || fresh(block))
      ensures Contents() == old(Contents()) + block[at..at + bytes]
      ensures current == old(current) || fresh(current)
      ensures bytes > 0 ==>
                var k := |Views()| - 1;
                k >= 0 && Placed(Views(), k, block, at, bytes) && Place(Views(), k, at) == |old(Contents())|
    {
      hide Flat, Size, Blocks, ViewsOf, Extends, Placed, Place;
      MakeRoom(bytes);
      if bytes > 0 {
        UsedIsPlaced(nb.buffers, current, used, bytes);
      }
      block, at := current, used;
      ghost var x, s := nb.Contents(), block[..at + bytes];
      assert s[..at] == block[..at] && s[at..] == block[at..at + bytes];
      SplitAt(x, s, at);
      MarkWritten(bytes);
    }

    /** Begins a new block if `bytes` do not fit into the current one. */
    method MakeRoom(bytes: nat)
      requires Valid() && bytes <= MAX_RESERVE
      modifies this, nb
      ensures Valid() && Contents() == old(Contents()) && Views() == old(Views()) && used + bytes <= blockSize
      ensures current == old(current) || fresh(current)
    {
      hide Flat, Size, Blocks, ViewsOf;
      if blockSize - used < bytes {
        FlushCurrentBlock();
        InitializeNextBlock();
      }
    }

    /** DestructiveGet() */
    method DestructiveGet() returns (rc: NoncontiguousBuffer)
      requires Valid()
      modifies this, nb
      ensures fresh(rc) && rc.Valid() && rc.Contents() == old(Contents()) && rc.buffers == old(Views())
    {
      hide Flat, Size;
      FlushCurrentBlock();
      rc := new NoncontiguousBuffer.Move(nb);
    }
  }

  // --------------------------------------------------------------------- views

  ghost function ViewsOf(finished: seq<View>, current: array?<byte>, used: nat): seq<View> {
    if current == null || used == 0 then finished else finished + [View(current, 0, used)]
  }

  /** `b` is `a`, with its last view possibly longer and with views after it that show only
      blocks of `given` and blocks `a` does not show. */
  ghost predicate Extends(a: seq<View>, b: seq<View>, given: set<array<byte>>) {
    && |a| <= |b| && (forall i: nat | i + 1 < |a| :: b[i] == a[i])
    && (a != [] ==> var k := |a| - 1; b[k] == a[k].(size := b[k].size) && a[k].size <= b[k].size)
    && (forall j: nat | |a| <= j < |b| :: b[j].block in given || b[j].block !in Blocks(a))
  }

  lemma ExtendsSelf(a: seq<View>)
    ensures Extends(a, a, {})
  {
  }

  lemma ExtendsWith(a: seq<View>, b: seq<View>, given: set<array<byte>>, more: set<array<byte>>)
    requires Extends(a, b, given) && given <= more
    ensures Extends(a, b, more)
  {
  }

  lemma ExtendsOn(a: seq<View>, b: seq<View>, c: seq<View>, given: set<array<byte>>)
    requires Extends(a, b, given) && Extends(b, c, given)
    ensures Extends(a, c, given)
  {
    forall x | x in Blocks(a) ensures x in Blocks(b) {
      var i: nat :| i < |a| && a[i].block == x;
      assert b[i].block == x;
    }
    forall j: nat | |a| <= j < |c| ensures c[j].block in given || c[j].block !in Blocks(a) {
      if j < |b| {
        assert c[j].block == b[j].block;
      }
    }
  }

  lemma UsedGrows(finished: seq<View>, current: array<byte>, used: nat, more: nat)
    requires used <= more && current !in Blocks(finished)
    ensures Extends(ViewsOf(finished, current, used), ViewsOf(finished, current, more), {})
  {
  }

  lemma AllFinished(finished: seq<View>, current: array<byte>)
    ensures ViewsOf(finished, current, 0) == finished
  {
  }

  lemma SharesViews(a: seq<View>, more: seq<View>, given: set<array<byte>>)
    requires Blocks(more) <= given
    ensures Extends(a, a + more, given)
  {
    forall j: nat | |a| <= j < |a + more| ensures (a + more)[j].block in given {
      assert more[j - |a|].block in Blocks(more);
    }
  }

  lemma UsedIsPlaced(finished: seq<View>, current: array<byte>, used: nat, n: nat)
    requires current !in Blocks(finished) && n > 0
    ensures var views := ViewsOf(finished, current, used + n);
            var k := |views| - 1;
            k >= 0 && Placed(views, k, current, used, n) && Place(views, k, used) == Size(finished) + used
  {
    assert ViewsOf(finished, current, used + n)[..|finished|] == finished;
  }

  lemma SplitAt(x: seq<byte>, s: seq<byte>, n: nat)
    requires n <= |s|
    ensures x + s == x + s[..n] + s[n..]
  {
  }

  lemma PrefixBlocks(views: seq<View>, i: nat)
    requires i <= |views|
    ensures Blocks(views[..i]) <= Blocks(views)
  {
  }

  method TotalSize(parts: seq<seq<byte>>) returns (n: nat)
    ensures n == |Concat(parts)|
  {
    hide Concat;
    ConcatStart(parts);
    n := 0;
    for i := 0 to |parts|
      invariant n == |Concat(parts[..i])|
    {
      ConcatStep(parts, i);
      n := n + |parts[i]|;
    }
    assert parts[..|parts|] == parts;
  }
}
