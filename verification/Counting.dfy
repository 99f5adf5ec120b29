/** Weighted sums over sequences.  The state machines of this project keep
    their fibers in a sequence; "how many fibers are at such a place" is the sum
    of a weight over it. */
module Counting {

  function Sum<T>(s: seq<T>, w: T -> nat): nat {
    if s == [] then 0 else w(s[0]) + Sum(s[1..], w)
  }

  /** Replacing one element changes the sum by the difference of the weights. */
  lemma {:induction false} SumUpdate<T>(s: seq<T>, i: nat, x: T, w: T -> nat)
    requires i < |s|
    ensures Sum(s[i := x], w) + w(s[i]) == Sum(s, w) + w(x)
  {
    if i == 0 {
      assert s[i := x][1..] == s[1..];
    } else {
      assert s[i := x][1..] == s[1..][i - 1 := x];
      SumUpdate(s[1..], i - 1, x, w);
    }
  }

  lemma {:induction false} SumAppend<T>(s: seq<T>, x: T, w: T -> nat)
    ensures Sum(s + [x], w) == Sum(s, w) + w(x)
  {
    if s == [] {
      assert s + [x] == [x];
    } else {
      assert (s + [x])[1..] == s[1..] + [x];
      SumAppend(s[1..], x, w);
    }
  }

  /** Sums of pointwise equal weights are equal. */
  lemma {:induction false} SumPointwise<T>(s: seq<T>, t: seq<T>, w: T -> nat)
    requires |s| == |t|
    requires forall i | 0 <= i < |s| :: w(s[i]) == w(t[i])
    ensures Sum(s, w) == Sum(t, w)
  {
    if s != [] {
      SumPointwise(s[1..], t[1..], w);
    }
  }

  /** Every element contributes to the sum. */
  lemma {:induction false} SumAtLeast<T>(s: seq<T>, i: nat, w: T -> nat)
    requires i < |s|
    ensures w(s[i]) <= Sum(s, w)
  {
    if i > 0 {
      SumAtLeast(s[1..], i - 1, w);
    }
  }

  /** Two different elements contribute separately. */
  lemma {:induction false} SumAtLeastTwo<T>(s: seq<T>, i: nat, j: nat, w: T -> nat)
    requires i < |s| && j < |s| && i != j
    ensures w(s[i]) + w(s[j]) <= Sum(s, w)
  {
    if i == 0 {
      SumAtLeast(s[1..], j - 1, w);
    } else if j == 0 {
      SumAtLeast(s[1..], i - 1, w);
    } else {
      SumAtLeastTwo(s[1..], i - 1, j - 1, w);
    }
  }

  /** A positive sum has a contributor. */
  lemma {:induction false} SumWitness<T>(s: seq<T>, w: T -> nat) returns (i: nat)
    requires Sum(s, w) > 0
    ensures i < |s| && w(s[i]) > 0
  {
    if w(s[0]) > 0 {
      i := 0;
    } else {
      var j := SumWitness(s[1..], w);
      i := j + 1;
    }
  }

  lemma {:induction false} SumOfTwo<T>(s: seq<T>, f: T -> nat, g: T -> nat, w: T -> nat)
    requires forall i | 0 <= i < |s| :: f(s[i]) + g(s[i]) <= w(s[i])
    ensures Sum(s, f) + Sum(s, g) <= Sum(s, w)
  {
    if s != [] {
      SumOfTwo(s[1..], f, g, w);
    }
  }

  lemma {:induction false} SumZero<T>(s: seq<T>, w: T -> nat)
    requires forall i | 0 <= i < |s| :: w(s[i]) == 0
    ensures Sum(s, w) == 0
  {
    if s != [] {
      SumZero(s[1..], w);
    }
  }

  lemma {:induction false} SumMonotone<T>(s: seq<T>, w: T -> nat, x: T -> nat)
    requires forall i | 0 <= i < |s| :: w(s[i]) <= x(s[i])
    ensures Sum(s, w) <= Sum(s, x)
  {
    if s != [] {
      SumMonotone(s[1..], w, x);
    }
  }
}
