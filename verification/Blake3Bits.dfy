/** Powers of two, population count and the bit tricks of the BLAKE3 tree code. */
module Blake3Bits {
  import opened Arithmetic

  predicate IsPow2(n: nat) {
    n == 1 || (n > 1 && n % 2 == 0 && IsPow2(n / 2))
  }

  function Pow2(k: nat): (r: nat)
    ensures IsPow2(r)
  {
    if k == 0 then 1 else 2 * Pow2(k - 1)
  }

  /** round_down_to_power_of_2(): the largest power of two that is at most `n`, and 1
      for zero. */
  function TopBit(n: nat): (p: nat)
    ensures IsPow2(p) && n < 2 * p
    ensures n > 0 ==> p <= n
  {
    if n <= 1 then 1 else 2 * TopBit(n / 2)
  }

  /** There is only one such power. */
  lemma {:induction false} TopBitUnique(n: nat, p: nat)
    requires IsPow2(p) && p <= n < 2 * p
    ensures TopBit(n) == p
  {
    if n > 1 {
      if p == 1 {
        assert false;
      } else {
        TopBitUnique(n / 2, p / 2);
      }
    }
  }

  lemma Halved(t: nat)
    requires IsPow2(t) && t > 1
    ensures t == 2 * (t / 2) && IsPow2(t / 2)
  {
  }

  lemma {:induction false} Pow2Product(t: nat, u: nat)
    requires IsPow2(t) && IsPow2(u)
    ensures IsPow2(t * u)
  {
    hide IsPow2;
    if t > 1 {
      var h := t / 2;
      Halved(t);
      Pow2Product(h, u);
      TwiceProduct(u, h);
      Twice(h * u);
      assert t * u == 2 * (h * u);
    } else {
      Positive(t);
      assert t * u == u;
    }
  }

  lemma Pow2Unfold(k: nat)
    requires k > 0
    ensures Pow2(k) == 2 * Pow2(k - 1)
  {
  }

  lemma Pow2Zero()
    ensures Pow2(0) == 1
  {
  }

  lemma {:induction false} Pow2Sum(a: nat, b: nat)
    ensures Pow2(a + b) == Pow2(b) * Pow2(a)
  {
    hide Pow2;
    if a > 0 {
      Pow2Sum(a - 1, b);
      Pow2Unfold(a);
      Pow2Unfold(a + b);
      TwiceProduct(Pow2(b), Pow2(a - 1));
    } else {
      Pow2Zero();
    }
  }

  lemma Pow2Values()
    ensures Pow2(9) == 0x200 && Pow2(54) == 0x40_0000_0000_0000
  {
    hide Pow2;
    Pow2Nine();
    Pow2Double(9, 0x200);
    Pow2Sum(18, 9);
    Pow2Double(27, 0x800_0000);
  }

  lemma Pow2Nine()
    ensures Pow2(9) == 0x200
  {
  }

  lemma Pow2Double(k: nat, v: nat)
    requires Pow2(k) == v
    ensures Pow2(2 * k) == v * v
  {
    hide Pow2;
    Pow2Sum(k, k);
  }

  lemma {:induction false} Multiply(t: nat, a: nat, b: nat)
    requires a <= b
    ensures t * a <= t * b
    ensures t > 0 && a < b ==> t * a + t <= t * b
  {
    if a < b {
      Multiply(t, a, b - 1);
      assert t * b == t * (b - 1) + t;
    }
  }

  lemma Twice(t: nat)
    requires IsPow2(t)
    ensures IsPow2(2 * t)
  {
  }

  lemma Positive(t: nat)
    requires IsPow2(t)
    ensures t > 0
  {
  }

  lemma TopBitScaled(t: nat, q: nat)
    requires IsPow2(t) && q > 0
    ensures t * q > 0 && TopBit(t * q) == t * TopBit(q)
  {
    hide TopBit, IsPow2;
    var p := TopBit(q);
    Pow2Product(t, p);
    Positive(t);
    Multiply(t, p, q);
    Multiply(t, q, 2 * p);
    TwiceProduct(t, p);
    TopBitUnique(t * q, t * p);
  }

  lemma TwiceProduct(t: nat, p: nat)
    ensures t * (2 * p) == 2 * (t * p)
  {
  }

  function PopCount(n: nat): nat {
    if n == 0 then 0 else n % 2 + PopCount(n / 2)
  }

  lemma PopCountNone(n: nat)
    requires n == 0
    ensures PopCount(n) == 0
  {
  }

  lemma {:induction false} PopCountScaled(t: nat, q: nat)
    requires IsPow2(t)
    ensures PopCount(t * q) == PopCount(q)
  {
    if t > 1 && q > 0 {
      var h := (t / 2) * q;
      assert t * q == 2 * h;
      assert h > 0;
      PopCountScaled(t / 2, q);
    }
  }

  /** Taking the top bit away takes one from the count. */
  lemma {:induction false} PopCountTop(n: nat)
    requires n > 0
    ensures PopCount(n) == 1 + PopCount(n - TopBit(n))
  {
    if n > 1 {
      PopCountTop(n / 2);
      var r := n - TopBit(n);
      assert r / 2 == n / 2 - TopBit(n / 2) && r % 2 == n % 2;
    }
  }

  lemma {:induction false} PopCountBound(n: nat, k: nat)
    requires n < Pow2(k)
    ensures PopCount(n) <= k
  {
    if n > 0 {
      PopCountBound(n / 2, k - 1);
    }
  }

  /** Adding one never adds more than one bit. */
  lemma {:induction false} PopCountSuccessor(q: nat)
    ensures PopCount(q + 1) <= PopCount(q) + 1
  {
    if q % 2 == 1 {
      PopCountSuccessor(q / 2);
      assert (q + 1) / 2 == q / 2 + 1;
    } else {
      assert (q + 1) / 2 == q / 2;
    }
  }

  /** The bitwise conjunction of two unsigned numbers. */
  function And(a: nat, b: nat): nat {
    if a == 0 || b == 0 then 0
    else (if a % 2 == 1 && b % 2 == 1 then 1 else 0) + 2 * And(a / 2, b / 2)
  }

  /** Masking with a power of two less one is the remainder. */
  lemma {:induction false} MaskIsRemainder(t: nat, x: nat)
    requires IsPow2(t)
    ensures And(t - 1, x) == x % t
  {
    if t == 1 {
      assert And(0, x) == 0;
    } else if x == 0 {
      EuclidUnique(0, t, 0, 0);
    } else {
      var h := t / 2;
      assert t == 2 * h && IsPow2(h);
      MaskIsRemainder(h, x / 2);
      assert And(t - 1, x) == x % t by {
        hide And, IsPow2;
        MaskUnfold(h, x);
        RemainderByHalves(x, h);
      }
    }
  }

  lemma MaskUnfold(h: nat, x: nat)
    requires h > 0 && x > 0
    ensures And(2 * h - 1, x) == x % 2 + 2 * And(h - 1, x / 2)
  {
    assert (2 * h - 1) / 2 == h - 1 && (2 * h - 1) % 2 == 1;
  }

  lemma RemainderByHalves(x: nat, h: nat)
    requires h > 0
    ensures x % (2 * h) == x % 2 + 2 * ((x / 2) % h)
  {
    var d := (x / 2) / h;
    var r := (x / 2) % h;
    assert x / 2 == h * d + r;
    assert x == (2 * h) * d + (2 * r + x % 2);
    EuclidUnique(x, 2 * h, d, 2 * r + x % 2);
  }

  /** `x & (x - 1)` clears the lowest set bit. */
  lemma {:induction false} ClearLowestBit(x: nat)
    requires x > 0
    ensures And(x, x - 1) < x
    ensures PopCount(x) == 1 + PopCount(And(x, x - 1))
  {
    if x % 2 == 1 {
      assert (x - 1) / 2 == x / 2 && (x - 1) % 2 == 0;
      AndSelf(x / 2);
    } else {
      assert (x - 1) / 2 == x / 2 - 1;
      ClearLowestBit(x / 2);
    }
  }

  lemma {:induction false} AndSelf(x: nat)
    ensures And(x, x) == x
  {
    if x > 0 {
      AndSelf(x / 2);
    }
  }

  /** popcnt(), the portable loop. */
  method Popcnt(n: nat) returns (count: nat)
    ensures count == PopCount(n)
  {
    var x := n;
    count := 0;
    while x != 0
      invariant count + PopCount(x) == PopCount(n)
      decreases x
    {
      ClearLowestBit(x);
      count := count + 1;
      x := And(x, x - 1);
    }
  }

  // -------------------------------------------------------------- the highest bit

  lemma {:induction false} AndCommutes(a: nat, b: nat)
    ensures And(a, b) == And(b, a)
  {
    if a > 0 && b > 0 {
      AndCommutes(a / 2, b / 2);
    }
  }

  lemma AndUnfold(a: nat, b: nat)
    ensures And(a, 2 * b) == 2 * And(a / 2, b)
  {
    assert (2 * b) / 2 == b && (2 * b) % 2 == 0;
  }

  /** A mask whose low bits are clear looks at the high bits only: `y` is `x / w`. */
  lemma {:induction false} AndScaled(x: nat, w: nat, y: nat, m: nat, mask: nat)
    requires w > 0 && IsPow2(w) && mask == w * m && w * y <= x < w * y + w
    ensures And(x, mask) == w * And(y, m)
  {
    hide And, IsPow2;
    if w == 1 {
      assert mask == m && x == y;
    } else {
      var h := w / 2;
      Halved(w);
      var half := Doubled(w, h, m);
      var low := Doubled(w, h, y);
      var rest := Doubled(w, h, And(y, m));
      AndScaled(x / 2, h, y, m, half);
      AndUnfold(x, half);
    }
  }

  lemma Doubled(w: nat, h: nat, m: nat) returns (half: nat)
    requires w == 2 * h
    ensures half == h * m && w * m == 2 * half
  {
    NonNegative(h, m);
    half := h * m;
  }

  lemma Quotient(x: nat, w: nat) returns (y: nat)
    requires 0 < w && x < w * w
    ensures y == x / w && y < w && w * y <= x < w * y + w
    ensures y > 0 <==> x >= w
  {
    y := x / w;
    if y >= w {
      Multiply(w, w, y);
      assert false;
    }
  }

  /** Testing the upper half of a number tells whether it is zero. */
  lemma UpperHalf(x: nat, w: nat, y: nat, mask: nat)
    requires w > 0 && IsPow2(w) && y < w && w * y <= x < w * y + w && mask == w * (w - 1)
    ensures And(x, mask) != 0 <==> y > 0
  {
    hide And, IsPow2;
    MaskOfSmall(y, w);
    AndScaled(x, w, y, w - 1, mask);
    Nonzero(w, y);
  }

  lemma MaskOfSmall(y: nat, w: nat)
    requires w > 0 && IsPow2(w) && y < w
    ensures And(y, w - 1) == y
  {
    hide And, IsPow2;
    AndCommutes(y, w - 1);
    MaskIsRemainder(w, y);
    EuclidUnique(y, w, 0, y);
  }

  lemma Nonzero(w: nat, y: nat)
    requires w > 0
    ensures w * y == 0 <==> y == 0
  {
  }

  lemma Commute(a: nat, b: nat)
    ensures a * b == b * a && a * b >= 0
  {
  }

  /** `x` is what is left of `n` after `c` bits have been shifted out. */
  predicate Shifted(n: nat, x: nat, c: nat) {
    x > 0 && Pow2(c) * x <= n < Pow2(c) * x + Pow2(c)
  }

  lemma ShiftOn(n: nat, x: nat, c: nat, k: nat, w: nat, y: nat)
    requires Shifted(n, x, c) && w == Pow2(k) && y > 0 && w * y <= x < w * y + w
    ensures Shifted(n, y, c + k)
  {
    hide Pow2, IsPow2;
    var p := Pow2(c);
    Pow2Sum(c, k);
    Commute(w, p);
    NonNegative(w, y);
    Multiply(p, w * y, x);
    Multiply(p, x + 1, w * y + w);
    Spread(p, w, y);
    assert p * (x + 1) == p * x + p;
  }

  lemma Spread(p: nat, w: nat, y: nat)
    ensures p * (w * y) == (p * w) * y && p * (w * y + w) == (p * w) * y + p * w
  {
  }

  lemma Widths()
    ensures Pow2(1) == 2 && Pow2(2) == 4 && Pow2(4) == 0x10 && Pow2(8) == 0x100
    ensures Pow2(16) == 0x1_0000 && Pow2(32) == 0x1_0000_0000
  {
    hide Pow2;
    Pow2Zero();
    Pow2Unfold(1);
    Pow2Double(1, 2);
    Pow2Double(2, 4);
    Pow2Double(4, 0x10);
    Pow2Double(8, 0x100);
    Pow2Double(16, 0x1_0000);
  }

  lemma ShiftedStart(n: nat)
    requires n > 0
    ensures Shifted(n, n, 0)
  {
  }

  lemma ShiftedEnd(n: nat, c: nat)
    requires Shifted(n, 1, c)
    ensures Pow2(c) <= n < 2 * Pow2(c)
  {
  }

  /** One line of highest_one(): if the upper half of `x` is not zero, go on with that. */
  method ShiftHalf(ghost n: nat, x: nat, c: nat, k: nat, w: nat, mask: nat) returns (y: nat, d: nat)
    requires Shifted(n, x, c) && w > 0 && w == Pow2(k) && mask == w * (w - 1) && x < w * w
    ensures Shifted(n, y, d) && y < w && d <= c + k
  {
    hide And, Pow2, IsPow2, Shifted;
    ghost var q := Quotient(x, w);
    UpperHalf(x, w, q, mask);
    y, d := x, c;
    if And(x, mask) != 0 {
      ShiftOn(n, x, c, k, w, q);
      y, d := x / w, c + k;
    }
  }

  /** highest_one(), the portable cascade, on 64 bits: the index of the highest set bit. */
  method HighestOne(n: nat) returns (c: nat)
    requires 0 < n < 0x1_0000_0000_0000_0000
    ensures c < 64 && Pow2(c) <= n < Pow2(c + 1)
  {
    hide Pow2, IsPow2, Shifted;
    var x;
    ShiftedStart(n);
    Widths();
    x, c := ShiftHalf(n, n, 0, 32, 0x1_0000_0000, 0xffff_ffff_0000_0000);
    x, c := ShiftHalf(n, x, c, 16, 0x1_0000, 0xffff_0000);
    x, c := ShiftHalf(n, x, c, 8, 0x100, 0xff00);
    x, c := ShiftHalf(n, x, c, 4, 0x10, 0xf0);
    x, c := ShiftHalf(n, x, c, 2, 4, 0xc);
    x, c := ShiftHalf(n, x, c, 1, 2, 2);
    StillPositive(n, x, c);
    ShiftedEnd(n, c);
    Pow2Unfold(c + 1);
  }

  lemma StillPositive(n: nat, x: nat, c: nat)
    requires Shifted(n, x, c)
    ensures x > 0
  {
  }

  /** round_down_to_power_of_2(), as it is computed. */
  method RoundDownToPowerOf2(x: nat) returns (p: nat)
    requires x < 0x1_0000_0000_0000_0000
    ensures p == TopBit(x)
  {
    hide Pow2, IsPow2, TopBit;
    var odd := if x % 2 == 1 then x else x + 1;
    var c := HighestOne(odd);
    p := Pow2(c);
    Pow2Unfold(c + 1);
    TopBitUnique(odd, p);
    SameTop(x);
  }

  /** Setting the lowest bit does not change the highest, and makes one of zero. */
  lemma SameTop(x: nat)
    ensures TopBit(if x % 2 == 1 then x else x + 1) == TopBit(x)
  {
    if x % 2 == 0 && x > 0 {
      assert (x + 1) / 2 == x / 2;
    }
  }
}
