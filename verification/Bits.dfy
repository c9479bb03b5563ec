/** Bitwise arithmetic on unsigned words, as functions on natural numbers. */
module Bits {

  function Pow2(k: nat): (r: nat)
    ensures r > 0
  {
    if k == 0 then 1 else 2 * Pow2(k - 1)
  }

  /** Bit i of v. */
  predicate Bit(v: nat, i: nat) {
    if i == 0 then v % 2 == 1 else Bit(v / 2, i - 1)
  }

  /** v & w */
  function And(v: nat, w: nat): nat {
    if v == 0 then 0 else 2 * And(v / 2, w / 2) + (if v % 2 == 1 && w % 2 == 1 then 1 else 0)
  }

  /** v | w */
  function Or(v: nat, w: nat): nat
    decreases v + w
  {
    if v == 0 && w == 0 then 0 else 2 * Or(v / 2, w / 2) + (if v % 2 == 1 || w % 2 == 1 then 1 else 0)
  }

  /** v >> k */
  function Shr(v: nat, k: nat): nat {
    if k == 0 then v else Shr(v / 2, k - 1)
  }

  /** v << k, without truncation. */
  function Shl(v: nat, k: nat): nat
    decreases k
  {
    if k == 0 then v else Shl(2 * v, k - 1)
  }

  /** The number of set bits. */
  function Popcount(v: nat): nat {
    if v == 0 then 0 else v % 2 + Popcount(v / 2)
  }

  lemma {:induction false} ShlIs(v: nat, k: nat)
    ensures Shl(v, k) == v * Pow2(k)
    decreases k
  {
    if k > 0 {
      ShlIs(2 * v, k - 1);
      assert 2 * v * Pow2(k - 1) == v * (2 * Pow2(k - 1));
    }
  }

  /** Shifting right divides, and the remainder is what the low mask keeps. */
  lemma {:induction false} SplitAt(v: nat, k: nat)
    ensures v == Shr(v, k) * Pow2(k) + And(v, Pow2(k) - 1)
    ensures And(v, Pow2(k) - 1) < Pow2(k)
  {
    if k == 0 {
      AndZero(v);
    } else {
      SplitAt(v / 2, k - 1);
      MaskHalf(k);
      var q, lo, p := Shr(v / 2, k - 1), And(v / 2, Pow2(k - 1) - 1), Pow2(k - 1);
      assert And(v, Pow2(k) - 1) == 2 * lo + v % 2 by {
        if v == 0 {
          assert lo == 0;
        }
      }
      DoubleProduct(q, p);
    }
  }

  lemma DoubleProduct(q: nat, p: nat)
    ensures q * (2 * p) == 2 * (q * p)
  {
  }

  lemma MaskHalf(k: nat)
    requires k > 0
    ensures (Pow2(k) - 1) / 2 == Pow2(k - 1) - 1 && (Pow2(k) - 1) % 2 == 1
  {
  }

  lemma {:induction false} AndZero(v: nat)
    ensures And(v, 0) == 0
  {
    if v > 0 {
      AndZero(v / 2);
    }
  }

  lemma MulMono(a: nat, b: nat, p: nat)
    requires a < b
    ensures a * p + p <= b * p
  {
    assert (b - a - 1) * p >= 0;
    assert b * p == a * p + p + (b - a - 1) * p;
  }

  /** The split into a high and a low part is the only one. */
  lemma SplitUnique(v: nat, k: nat, hi: nat, lo: nat)
    requires v == hi * Pow2(k) + lo && lo < Pow2(k)
    ensures Shr(v, k) == hi && And(v, Pow2(k) - 1) == lo
  {
    SplitAt(v, k);
    var q := Shr(v, k);
    if q < hi {
      MulMono(q, hi, Pow2(k));
    } else if q > hi {
      MulMono(hi, q, Pow2(k));
    }
  }

  /** Or-ing a word into the zero low bits of another one adds it. */
  lemma {:induction false} OrIsAdd(hi: nat, k: nat, lo: nat)
    requires lo < Pow2(k)
    ensures Or(hi * Pow2(k), lo) == hi * Pow2(k) + lo
  {
    if k == 0 {
      OrZero(hi);
    } else {
      var p := Pow2(k - 1);
      assert hi * Pow2(k) == 2 * (hi * p);
      OrIsAdd(hi, k - 1, lo / 2);
    }
  }

  lemma {:induction false} OrZero(v: nat)
    ensures Or(v, 0) == v
  {
    if v > 0 {
      OrZero(v / 2);
    }
  }

  lemma Regroup(p: nat, q: nat)
    ensures 2 * p * q == 2 * (p * q)
  {
  }

  lemma {:induction false} PowAdd(a: nat, b: nat)
    ensures Pow2(a + b) == Pow2(a) * Pow2(b)
  {
    if a > 0 {
      PowAdd(a - 1, b);
      assert a - 1 + b == a + b - 1;
      Regroup(Pow2(a - 1), Pow2(b));
    }
  }

  lemma {:induction false} ShrShr(v: nat, a: nat, b: nat)
    ensures Shr(Shr(v, a), b) == Shr(v, a + b)
  {
    if a > 0 {
      ShrShr(v / 2, a - 1, b);
    }
  }

  /** Masking with ones above k (in a word of n bits) removes the low part. */
  lemma {:induction false} AndHigh(v: nat, k: nat, n: nat)
    requires k <= n && v < Pow2(n)
    ensures Pow2(k) <= Pow2(n)
    ensures And(v, Pow2(n) - Pow2(k)) == v - And(v, Pow2(k) - 1)
  {
    if k == 0 {
      AndAll(v, n);
      AndZero(v);
      PowPositive(n);
    } else {
      AndHigh(v / 2, k - 1, n - 1);
      MaskHalf(k);
      var m := Pow2(n - 1) - Pow2(k - 1);
      assert Pow2(n) - Pow2(k) == 2 * m;
    }
  }

  lemma PowPositive(n: nat)
    ensures Pow2(n) >= 1
  {
  }

  lemma {:induction false} AndAll(v: nat, n: nat)
    requires v < Pow2(n)
    ensures And(v, Pow2(n) - 1) == v
  {
    if n > 0 {
      MaskHalf(n);
      AndAll(v / 2, n - 1);
    }
  }

  // ----- single bits

  lemma {:induction false} AndBit(v: nat, w: nat, i: nat)
    ensures Bit(And(v, w), i) <==> Bit(v, i) && Bit(w, i)
  {
    if v == 0 {
      ZeroBit(i);
    } else if i > 0 {
      assert And(v, w) / 2 == And(v / 2, w / 2);
      AndBit(v / 2, w / 2, i - 1);
    }
  }

  lemma {:induction false} ZeroBit(i: nat)
    ensures !Bit(0, i)
  {
    if i > 0 {
      ZeroBit(i - 1);
    }
  }

  lemma {:induction false} MaskBit(n: nat, i: nat)
    ensures Bit(Pow2(n) - 1, i) <==> i < n
  {
    if n == 0 {
      ZeroBit(i);
    } else {
      MaskHalf(n);
      if i > 0 {
        MaskBit(n - 1, i - 1);
      }
    }
  }

  lemma {:induction false} ShrBit(v: nat, k: nat, i: nat)
    ensures Bit(Shr(v, k), i) <==> Bit(v, k + i)
  {
    if k > 0 {
      ShrBit(v / 2, k - 1, i);
    }
  }

  lemma {:induction false} PowMono(a: nat, b: nat)
    requires a <= b
    ensures Pow2(a) <= Pow2(b)
    decreases b - a
  {
    if a < b {
      PowMono(a + 1, b);
    }
  }

  lemma {:induction false} AndBelow(v: nat, w: nat)
    ensures And(v, w) <= w
  {
    if v > 0 {
      AndBelow(v / 2, w / 2);
    }
  }

  lemma {:induction false} SameBits(v: nat, w: nat)
    requires forall i: nat :: Bit(v, i) <==> Bit(w, i)
    ensures v == w
    decreases v + w
  {
    assert Bit(v, 0) <==> Bit(w, 0);
    if v > 0 || w > 0 {
      forall i: nat ensures Bit(v / 2, i) <==> Bit(w / 2, i) {
        assert Bit(v, i + 1) <==> Bit(w, i + 1);
      }
      SameBits(v / 2, w / 2);
    }
  }

  lemma {:induction false} BitBound(v: nat, i: nat)
    requires Bit(v, i)
    ensures Pow2(i) <= v
  {
    if i > 0 {
      BitBound(v / 2, i - 1);
    }
  }

  /** A number of at least 2^m has a bit set at m or above. */
  lemma {:induction false} HighBit(v: nat, m: nat) returns (i: nat)
    requires v >= Pow2(m)
    ensures i >= m && Bit(v, i)
    decreases v
  {
    if v == 1 {
      i := 0;
    } else if m > 0 {
      i := HighBit(v / 2, m - 1);
      i := i + 1;
    } else {
      i := HighBit(v / 2, 0);
      i := i + 1;
    }
  }

  lemma {:induction false} PowBit(j: nat, i: nat)
    ensures Bit(Pow2(j), i) <==> i == j
  {
    if i == 0 {
    } else if j == 0 {
      ZeroBit(i - 1);
    } else {
      PowBit(j - 1, i - 1);
    }
  }
}
