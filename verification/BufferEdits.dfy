/** Whole sequences of changes to a buffer and to a copy that shares its blocks. */
module BufferEdits {
  import opened Prelude
  import opened Buffer

  /** A change to a buffer: Skip(), Cut() with what was cut off thrown away, the two
      overloads of Append(), or Clear(). */
  datatype Edit = Drop(n: nat) | CutOff(n: nat) | Add(view: View) | AddAll(views: seq<View>) | Reset
  {
    predicate Ok() {
      (Add? ==> view.InBlock()) && (AddAll? ==> Proper(views))
    }

    ghost function Frame(): set<array<byte>> {
      match this case Add(view) => {view.block} case AddAll(views) => Blocks(views) case _ => {}
    }

    ghost function Meaning(): Change
      requires Ok()
      reads Frame()
    {
      match this
      case Drop(n) => Without(n)
      case CutOff(n) => Without(n)
      case Add(view) => With(view.Bytes())
      case AddAll(views) => With(Flat(views))
      case Reset => Nothing
    }
  }

  /** What an edit means for the bytes. */
  datatype Change = Without(n: nat) | With(bytes: seq<byte>) | Nothing

  predicate Fits(s: seq<byte>, c: Change) { c.Without? ==> c.n <= |s| }

  function Changed(s: seq<byte>, c: Change): seq<byte> {
    match c
    case Without(n) => if n <= |s| then s[n..] else []
    case With(bytes) => s + bytes
    case Nothing => []
  }

  /** An edit of the copy or of its original. */
  datatype EditOf<T> = EditOf(onCopy: bool, edit: T)

  /** Two byte sequences, each changed by its own edits and by no other. */
  function ChangedBoth(a: seq<byte>, b: seq<byte>, cs: seq<EditOf<Change>>): (seq<byte>, seq<byte>) {
    if cs == [] then (a, b)
    else
      var c := cs[|cs| - 1];
      var p := ChangedBoth(a, b, cs[..|cs| - 1]);
      if c.onCopy then (Changed(p.0, c.edit), p.1) else (p.0, Changed(p.1, c.edit))
  }

  lemma ChangedStep(a: seq<byte>, b: seq<byte>, cs: seq<EditOf<Change>>, i: nat)
    requires i < |cs|
    ensures var p := ChangedBoth(a, b, cs[..i]);
            ChangedBoth(a, b, cs[..i + 1])
            == if cs[i].onCopy then (Changed(p.0, cs[i].edit), p.1) else (p.0, Changed(p.1, cs[i].edit))
  {
    assert cs[..i + 1][..i] == cs[..i];
  }

  /** No edit takes more than there is. */
  predicate AllFit(a: seq<byte>, b: seq<byte>, cs: seq<EditOf<Change>>) {
    forall i: nat | i < |cs| ::
      var p := ChangedBoth(a, b, cs[..i]); Fits(if cs[i].onCopy then p.0 else p.1, cs[i].edit)
  }

  ghost function Frames(edits: seq<EditOf<Edit>>): set<array<byte>> {
    set i, b | 0 <= i < |edits| && b in edits[i].edit.Frame() :: b
  }

  ghost function Meanings(edits: seq<EditOf<Edit>>): (cs: seq<EditOf<Change>>)
    requires forall i | 0 <= i < |edits| :: edits[i].edit.Ok()
    reads Frames(edits)
    ensures |cs| == |edits|
    ensures forall i | 0 <= i < |edits| :: cs[i] == EditOf(edits[i].onCopy, edits[i].edit.Meaning())
  {
    if edits == [] then [] else [EditOf(edits[0].onCopy, edits[0].edit.Meaning())] + Meanings(edits[1..])
  }

  method Perform(nb: NoncontiguousBuffer, e: Edit)
    requires nb.Valid() && e.Ok() && Fits(nb.Contents(), e.Meaning())
    modifies nb
    ensures nb.Valid() && nb.Contents() == Changed(old(nb.Contents()), old(e.Meaning()))
  {
    hide Flat, Size;
    match e
    case Drop(n) => nb.Skip(n);
    case CutOff(n) => var rc := nb.Cut(n);
    case Add(view) => nb.AppendView(view);
    case AddAll(views) =>
      var b := Gather(views);
      nb.AppendBuffer(b);
    case Reset =>
      nb.Clear();
      NoViews();
  }

  /** One edit of a pair of buffers that may share blocks. */
  method PerformOn(copy: NoncontiguousBuffer, nb: NoncontiguousBuffer, e: EditOf<Edit>)
    requires nb.Valid() && copy.Valid() && copy != nb && e.edit.Ok()
    requires Fits(if e.onCopy then copy.Contents() else nb.Contents(), e.edit.Meaning())
    modifies copy, nb
    ensures nb.Valid() && copy.Valid()
    ensures var c := old(e.edit.Meaning());
            (copy.Contents(), nb.Contents())
            == if e.onCopy then (Changed(old(copy.Contents()), c), old(nb.Contents()))
               else (old(copy.Contents()), Changed(old(nb.Contents()), c))
  {
    hide Flat, Size, Changed, Edit.Meaning;
    nb.NotABlock(copy.buffers);
    copy.NotABlock(nb.buffers);
    if e.onCopy {
      Perform(copy, e.edit);
    } else {
      Perform(nb, e.edit);
    }
  }

  /** A copy shares all blocks with its original.  However the two are edited after that, in
      whatever order, each has the bytes its own edits make of what both began with. */
  method CopyIsIndependent(nb: NoncontiguousBuffer, edits: seq<EditOf<Edit>>) returns (copy: NoncontiguousBuffer)
    requires nb.Valid() && forall i | 0 <= i < |edits| :: edits[i].edit.Ok()
    requires AllFit(nb.Contents(), nb.Contents(), Meanings(edits))
    modifies nb
    ensures nb.Valid() && copy.Valid()
    ensures (copy.Contents(), nb.Contents())
            == ChangedBoth(old(nb.Contents()), old(nb.Contents()), old(Meanings(edits)))
  {
    hide Flat, Size, ChangedBoth, Meanings, Changed, Edit.Meaning, NoncontiguousBuffer.Valid, Frames;
    ghost var start, cs := nb.Contents(), Meanings(edits);
    FramesAllocated(edits);
    NotInFrames(nb, edits);
    copy := new NoncontiguousBuffer.Copy(nb);
    NotInFrames(copy, edits);
    NoChanges(start, cs);
    for i := 0 to |edits|
      invariant nb.Valid() && copy.Valid() && copy != nb && fresh(copy)
      invariant (copy.Contents(), nb.Contents()) == ChangedBoth(start, start, cs[..i])
      invariant Meanings(edits) == cs
    {
      ChangedStep(start, start, cs, i);
      PerformOn(copy, nb, edits[i]);
    }
    assert cs[..|cs|] == cs;
  }

  lemma FramesAllocated(edits: seq<EditOf<Edit>>)
    ensures forall b | b in Frames(edits) :: allocated(b)
  {
  }

  lemma NotInFrames(nb: NoncontiguousBuffer, edits: seq<EditOf<Edit>>)
    ensures forall o: object | o in Frames(edits) :: o != nb
  {
  }

  lemma NoChanges(s: seq<byte>, cs: seq<EditOf<Change>>)
    ensures ChangedBoth(s, s, cs[..0]) == (s, s)
  {
  }
}
