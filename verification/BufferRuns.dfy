/** Whole sequences of calls to a builder. */
module BufferRuns {
  import opened Prelude
  import opened Buffer
  import opened BufferBuilder

  /** One call of an Append() overload. */
  datatype Op =
    | Raw(bytes: seq<byte>)
    | Char(c: byte)
    | Parts(parts: seq<seq<byte>>)
    | Shared(view: View)
    | Whole(views: seq<View>)
  {
    predicate Ok() {
      (Shared? ==> view.InBlock()) && (Whole? ==> Proper(views))
    }

    ghost function Frame(): set<array<byte>> {
      match this
      case Shared(view) => {view.block}
      case Whole(views) => Blocks(views)
      case _ => {}
    }

    ghost function Text(): seq<byte>
      requires Ok()
      reads Frame()
    {
      match this
      case Raw(bytes) => bytes
      case Char(c) => [c]
      case Parts(parts) => Concat(parts)
      case Shared(view) => view.Bytes()
      case Whole(views) => Flat(views)
    }
  }

  ghost function Frames(ops: seq<Op>): set<array<byte>> {
    set i, b | 0 <= i < |ops| && b in ops[i].Frame() :: b
  }

  ghost function Texts(ops: seq<Op>): (t: seq<seq<byte>>)
    requires forall i | 0 <= i < |ops| :: ops[i].Ok()
    reads Frames(ops)
    ensures |t| == |ops| && forall i | 0 <= i < |ops| :: t[i] == ops[i].Text()
  {
    if ops == [] then [] else [ops[0].Text()] + Texts(ops[1..])
  }

  method Perform(builder: Builder, op: Op)
    requires builder.Valid() && op.Ok() && builder.current !in op.Frame()
    modifies builder, builder.nb, builder.current
    ensures builder.Valid() && builder.Contents() == old(builder.Contents()) + old(op.Text())
    ensures builder.current == old(builder.current) || fresh(builder.current)
    ensures Extends(old(builder.Views()), builder.Views(), op.Frame())
  {
    hide Flat, Size, Concat, Extends, ViewsOf;
    match op
    case Raw(bytes) => builder.Append(bytes);
    case Char(c) => builder.AppendChar(c);
    case Parts(parts) => builder.AppendParts(parts);
    case Shared(view) => builder.AppendView(view);
    case Whole(views) =>
      var b := Gather(views);
      ghost var given := Blocks(b.buffers);
      builder.AppendBuffer(b);
      ExtendsWith(old(builder.Views()), builder.Views(), given, Blocks(views));
  }

  method PerformAll(builder: Builder, ops: seq<Op>)
    requires builder.Valid() && builder.current !in Frames(ops)
    requires forall i | 0 <= i < |ops| :: ops[i].Ok()
    modifies builder, builder.nb, builder.current
    ensures builder.Valid() && builder.Contents() == old(builder.Contents()) + Concat(old(Texts(ops)))
    ensures builder.current == old(builder.current) || fresh(builder.current)
    ensures Extends(old(builder.Views()), builder.Views(), Frames(ops))
  {
    hide Flat, Size, Concat, Texts, Extends, Builder.Views, Builder.Valid, Builder.Contents;
    ghost var texts, given := Texts(ops), Frames(ops);
    NotInFrames(builder, builder.nb, ops);
    assert forall b | b in given :: allocated(b);
    ConcatStart(texts);
    ExtendsSelf(builder.Views());
    ExtendsWith(builder.Views(), builder.Views(), {}, given);
    for i := 0 to |ops|
      invariant builder.Valid() && builder.Contents() == old(builder.Contents()) + Concat(texts[..i])
      invariant builder.current == old(builder.current) || fresh(builder.current)
      invariant Texts(ops) == texts && Extends(old(builder.Views()), builder.Views(), given)
    {
      ConcatStep(texts, i);
      FrameOf(ops, i);
      ghost var between := builder.Views();
      Perform(builder, ops[i]);
      ExtendsWith(between, builder.Views(), ops[i].Frame(), given);
      ExtendsOn(old(builder.Views()), between, builder.Views(), given);
    }
    assert texts[..|texts|] == texts;
  }

  lemma FrameOf(ops: seq<Op>, i: nat)
    requires i < |ops|
    ensures ops[i].Frame() <= Frames(ops)
  {
  }

  lemma NotInFrames(builder: Builder, nb: NoncontiguousBuffer, ops: seq<Op>)
    ensures forall o: object | o in Frames(ops) :: o != builder && o != nb
  {
  }

  /** Whatever is appended, and however, the buffer holds the concatenation. */
  method BuildAll(ops: seq<Op>, blockSize: nat) returns (rc: NoncontiguousBuffer)
    requires blockSize >= MAX_RESERVE && forall i | 0 <= i < |ops| :: ops[i].Ok()
    ensures rc.Valid() && rc.Contents() == Concat(Texts(ops))
  {
    hide Flat, Size, Concat, Texts, Extends, ViewsOf;
    ghost var texts := Texts(ops);
    assert forall b | b in Frames(ops) :: allocated(b);
    var builder := new Builder(blockSize);
    PerformAll(builder, ops);
    rc := builder.DestructiveGet();
    assert Texts(ops) == texts;
  }

  /** A place is reserved, anything is appended after it, and then the place is written: the
      buffer holds what was built before, the data, and what was appended. */
  method ReserveAndFill(builder: Builder, data: seq<byte>, ops: seq<Op>) returns (rc: NoncontiguousBuffer)
    requires builder.Valid() && |data| <= MAX_RESERVE && builder.current !in Frames(ops)
    requires forall i | 0 <= i < |ops| :: ops[i].Ok()
    modifies builder, builder.nb, builder.current
    ensures rc.Valid() && rc.Contents() == old(builder.Contents()) + data + Concat(old(Texts(ops)))
  {
    hide Flat, Size, Concat, Texts, Extends, Builder.Views, Builder.Valid, Builder.Contents, Placed, Place, Patched;
    ghost var start, texts := builder.Contents(), Texts(ops);
    NotInFrames(builder, builder.nb, ops);
    assert forall b | b in Frames(ops) :: allocated(b);
    var block, at := builder.Reserve(|data|);
    assert Texts(ops) == texts;
    ghost var views, place := builder.Views(), block[at..at + |data|];
    PerformAll(builder, ops);
    ghost var after := builder.Views();
    rc := builder.DestructiveGet();
    assert rc.Contents() == start + place + Concat(texts);
    if |data| > 0 {
      ghost var i: nat := |views| - 1;
      StaysPlaced(views, after, i, block, at, |data|, Frames(ops));
      Overwrite(rc.buffers, i, block, at, data);
      PatchedWhole(start, place, Concat(texts), data);
    }
  }

  lemma PatchedWhole(x: seq<byte>, y: seq<byte>, z: seq<byte>, data: seq<byte>)
    requires |data| == |y|
    ensures Patched(x + y + z, |x|, data) == x + data + z
  {
  }

  /** Views that come later do not move or share what was placed before. */
  lemma StaysPlaced(a: seq<View>, b: seq<View>, i: nat, block: array<byte>, at: nat, n: nat, given: set<array<byte>>)
    requires Placed(a, i, block, at, n) && i == |a| - 1 && Extends(a, b, given) && block !in given
    ensures Placed(b, i, block, at, n) && Place(b, i, at) == Place(a, i, at)
  {
    assert block in Blocks(a);
    assert a[..i] == b[..i];
  }
}
