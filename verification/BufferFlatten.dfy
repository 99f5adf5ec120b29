/** Copying a buffer out, in whole, in part, or up to a delimiter. */
module BufferFlatten {
  import opened Prelude
  import opened Buffer

  function Min(a: nat, b: nat): (m: nat)
    ensures m <= a && m <= b && (m == a || m == b)
  {
    if a < b then a else b
  }

  // -------------------------------------------------------------------- flatten

  /** FlattenToSlowSlow() */
  method FlattenToSlowSlow(nb: NoncontiguousBuffer, out: array<byte>, size: nat)
    requires nb.Valid() && size <= nb.byteSize && size <= out.Length && out !in Blocks(nb.buffers)
    modifies out
    ensures out[..size] == nb.Contents()[..size] && out[size..] == old(out[size..])
  {
    hide Flat, Size;
    ghost var all := nb.Contents();
    var copied, i := 0, 0;
    NoViews();
    Whole(nb.buffers);
    while i < |nb.buffers| && copied != size
      invariant 0 <= i <= |nb.buffers| && nb.Contents() == all
      invariant 0 <= copied <= size && (copied == size || copied == Size(nb.buffers[..i]))
      invariant out[..copied] == all[..copied] && out[size..] == old(out[size..])
    {
      PrefixFlat(nb.buffers, i);
      var v := nb.buffers[i];
      var len := Min(size - copied, v.size);
      CopyOut(v, len, out, copied);
      TakeMore(all, copied, v.size, len);
      copied := copied + len;
      i := i + 1;
    }
  }

  lemma Whole(views: seq<View>)
    ensures views[..|views|] == views && views[..0] == []
  {
  }

  /** What comes before a view, and the view itself, are next to each other. */
  lemma PrefixFlat(views: seq<View>, i: nat)
    requires Proper(views) && i < |views|
    ensures Size(views[..i + 1]) == Size(views[..i]) + views[i].size <= Size(views)
    ensures Flat(views[..i]) == Flat(views)[..Size(views[..i])]
    ensures Flat(views)[Size(views[..i])..Size(views[..i + 1])] == views[i].Bytes()
  {
    hide Flat, Size, Proper;
    Around(views, i);
    Slices(Flat(views[..i]), views[i].Bytes(), Flat(views[i + 1..]));
  }

  lemma Slices(a: seq<byte>, b: seq<byte>, c: seq<byte>)
    ensures (a + b + c)[..|a|] == a && (a + b + c)[|a|..|a| + |b|] == b
  {
  }

  lemma TakeMore(all: seq<byte>, x: nat, n: nat, len: nat)
    requires x + n <= |all| && len <= n
    ensures all[..x] + all[x..x + n][..len] == all[..x + len]
  {
  }

  /** memcpy() out of a view. */
  method CopyOut(v: View, len: nat, out: array<byte>, at: nat)
    requires v.InBlock() && len <= v.size && at + len <= out.Length && out != v.block
    modifies out
    ensures out[..at + len] == old(out[..at]) + v.Bytes()[..len] && out[at + len..] == old(out[at + len..])
  {
    for i := 0 to len
      invariant out[..at + i] == old(out[..at]) + v.Bytes()[..i] && out[at + i..] == old(out[at + i..])
    {
      ghost var was := out[..];
      out[at + i] := v.block[v.start + i];
      assert out[..at + i] == was[..at + i];
    }
  }

  /** FlattenSlow() */
  method FlattenSlow(nb: NoncontiguousBuffer, maxBytes: nat) returns (rc: seq<byte>)
    requires nb.Valid()
    ensures rc == nb.Contents()[..Min(maxBytes, nb.byteSize)]
  {
    hide Flat, Size;
    var limit := Min(maxBytes, nb.byteSize);
    ghost var all := nb.Contents();
    rc := [];
    var left, i := limit, 0;
    NoViews();
    Whole(nb.buffers);
    while i < |nb.buffers| && left > 0
      invariant 0 <= i <= |nb.buffers| && nb.Contents() == all
      invariant 0 <= left <= limit && rc == all[..limit - left]
      invariant left == 0 || limit - left == Size(nb.buffers[..i])
    {
      PrefixFlat(nb.buffers, i);
      var v := nb.buffers[i];
      var len := Min(left, v.size);
      assert v.Bytes() == all[|rc|..|rc| + v.size];
      TakeMore(all, |rc|, v.size, len);
      rc := rc + v.Bytes()[..len];
      left := left - len;
      i := i + 1;
    }
  }

  // --------------------------------------------------------------------- search

  predicate IsAt(s: seq<byte>, delim: seq<byte>, p: nat) {
    p + |delim| <= |s| && s[p..p + |delim|] == delim
  }

  /** The first occurrence of `delim` in `s` from `p` on, as std::string::find() gives it. */
  function FirstFrom(s: seq<byte>, delim: seq<byte>, p: nat): (r: Option<nat>)
    requires p <= |s|
    ensures r.Some? ==> p <= r.value && IsAt(s, delim, r.value)
    ensures forall q | p <= q && (r.Some? ==> q < r.value) :: !IsAt(s, delim, q)
    decreases |s| - p
  {
    if IsAt(s, delim, p) then Some(p)
    else if p == |s| then None
    else FirstFrom(s, delim, p + 1)
  }

  /** `s` up to and including the first occurrence, or all of it if there is none. */
  function CutAfter(s: seq<byte>, delim: seq<byte>): seq<byte> {
    match FirstFrom(s, delim, 0)
    case Some(p) => s[..p + |delim|]
    case None => s
  }

  lemma InPrefix(s: seq<byte>, more: seq<byte>, delim: seq<byte>, q: nat)
    ensures IsAt(s, delim, q) <==> IsAt(s + more, delim, q) && q + |delim| <= |s|
  {
    if q + |delim| <= |s| {
      assert (s + more)[q..q + |delim|] == s[q..q + |delim|];
    }
  }

  /** An occurrence that ends in `s` is the first in anything that begins with `s`. */
  lemma FoundInPrefix(s: seq<byte>, more: seq<byte>, delim: seq<byte>, p: nat)
    requires FirstFrom(s, delim, 0) == Some(p)
    ensures FirstFrom(s + more, delim, 0) == Some(p)
  {
    hide FirstFrom, IsAt;
    InPrefix(s, more, delim, p);
    var r := FirstFrom(s + more, delim, 0);
    if r.Some? {
      InPrefix(s, more, delim, r.value);
    }
  }

  lemma {:induction false} SkipTo(s: seq<byte>, delim: seq<byte>, p: nat, from: nat)
    requires p <= from <= |s| && forall q: nat | p <= q < from :: !IsAt(s, delim, q)
    ensures FirstFrom(s, delim, p) == FirstFrom(s, delim, from)
    decreases from - p
  {
    if p < from {
      SkipTo(s, delim, p + 1, from);
    }
  }

  /** If `s` has no occurrence, one in `s + more` ends behind `s`: searching again may
      start `delim`'s length before the end of `s`. */
  lemma SearchAgain(s: seq<byte>, more: seq<byte>, delim: seq<byte>)
    requires FirstFrom(s, delim, 0).None?
    ensures var from := |s| - Min(|s|, |delim|);
            FirstFrom(s + more, delim, from) == FirstFrom(s + more, delim, 0)
    ensures var r := FirstFrom(s + more, delim, 0); r.Some? ==> r.value + |delim| > |s|
  {
    hide FirstFrom, IsAt;
    forall q: nat | IsAt(s + more, delim, q) ensures q + |delim| > |s| {
      InPrefix(s, more, delim, q);
    }
    SkipTo(s + more, delim, 0, |s| - Min(|s|, |delim|));
  }

  // -------------------------------------------------------------- flatten until

  /** Nothing found in a part that is long enough: the rest does not matter. */
  lemma LongEnough(rc: seq<byte>, more: seq<byte>, delim: seq<byte>, maxBytes: nat)
    requires FirstFrom(rc, delim, 0).None? && |rc| >= maxBytes
    ensures Truncate(CutAfter(rc + more, delim), maxBytes) == rc[..maxBytes]
  {
    hide FirstFrom;
    SearchAgain(rc, more, delim);
  }

  lemma FoundAlready(rc: seq<byte>, more: seq<byte>, delim: seq<byte>)
    requires FirstFrom(rc, delim, 0).Some?
    ensures CutAfter(rc + more, delim) == CutAfter(rc, delim)
  {
    hide FirstFrom;
    FoundInPrefix(rc, more, delim, FirstFrom(rc, delim, 0).value);
  }

  function Truncate(s: seq<byte>, n: nat): seq<byte> {
    s[..Min(n, |s|)]
  }

  /** FlattenSlowUntil() */
  method FlattenSlowUntil(nb: NoncontiguousBuffer, delim: seq<byte>, maxBytes: nat) returns (rc: seq<byte>)
    requires nb.Valid()
    ensures rc == Truncate(CutAfter(nb.Contents(), delim), maxBytes)
  {
    hide Flat, Size, FirstFrom;
    if nb.byteSize == 0 {
      return [];
    }
    var current := nb.FirstContiguous();
    var first := current.Bytes();
    var pos := FirstFrom(first, delim, 0);
    if pos.Some? {
      ghost var all := nb.Contents();
      assert all == first + all[|first|..];
      FoundAlready(first, all[|first|..], delim);
      return first[..Min(pos.value + |delim|, maxBytes)];
    }
    NeedsDelim(first, delim);
    rc := BlockByBlock(nb, delim, maxBytes);
    if |rc| > maxBytes {
      rc := rc[..maxBytes];
    }
  }

  /** The slow path: what it has copied when it stops, before it is cut to size. */
  method BlockByBlock(nb: NoncontiguousBuffer, delim: seq<byte>, maxBytes: nat) returns (rc: seq<byte>)
    requires nb.Valid() && delim != []
    ensures Truncate(rc, maxBytes) == Truncate(CutAfter(nb.Contents(), delim), maxBytes)
  {
    hide Flat, Size, FirstFrom, CutAfter;
    ghost var all := nb.Contents();
    rc := [];
    NothingInNothing(delim);
    NoViews();
    var i := 0;
    while i < |nb.buffers| && |rc| < maxBytes
      invariant 0 <= i <= |nb.buffers| && rc == Flat(nb.buffers[..i]) && FirstFrom(rc, delim, 0).None?
    {
      FlatStep(nb.buffers, i);
      var v := nb.buffers[i].Bytes();
      var from := |rc| - Min(|rc|, |delim|);
      SearchAgain(rc, v, delim);
      rc := rc + v;
      i := i + 1;
      var pos := FirstFrom(rc, delim, from);
      if pos.Some? {
        Remaining(nb.buffers, i);
        FoundAlready(rc, Flat(nb.buffers[i..]), delim);
        CutFound(rc, delim, pos.value);
        return rc[..pos.value + |delim|];
      }
    }
    Remaining(nb.buffers, i);
    if i == |nb.buffers| {
      CutNone(rc, delim);
    } else {
      LongEnough(rc, Flat(nb.buffers[i..]), delim, maxBytes);
    }
  }

  /** An empty delimiter is found at once. */
  lemma NeedsDelim(s: seq<byte>, delim: seq<byte>)
    ensures FirstFrom(s, delim, 0).None? ==> delim != []
  {
  }

  lemma NothingInNothing(delim: seq<byte>)
    requires delim != []
    ensures FirstFrom([], delim, 0).None?
  {
  }

  lemma CutFound(s: seq<byte>, delim: seq<byte>, p: nat)
    requires FirstFrom(s, delim, 0) == Some(p)
    ensures CutAfter(s, delim) == s[..p + |delim|]
  {
  }

  lemma CutNone(s: seq<byte>, delim: seq<byte>)
    requires FirstFrom(s, delim, 0).None?
    ensures CutAfter(s, delim) == s
  {
  }

  lemma Remaining(views: seq<View>, i: nat)
    requires Proper(views) && i <= |views|
    ensures Flat(views) == Flat(views[..i]) + Flat(views[i..])
    ensures i == |views| ==> Flat(views) == Flat(views[..i])
  {
    hide Flat, Size;
    assert views == views[..i] + views[i..];
    FlatAppend(views[..i], views[i..]);
    if i == |views| {
      assert views[..i] == views;
    }
  }
}
