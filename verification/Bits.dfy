/** The bit operations of fixed-width unsigned integers, over natural numbers. */
module Bits {

  function Pow2(k: nat): (r: nat)
    ensures r > 0
  {
    if k == 0 then 1 else 2 * Pow2(k - 1)
  }

  /** Bit `p` of `x`. */
  predicate Bit(x: nat, p: nat) {
    if p == 0 then x % 2 == 1 else Bit(x / 2, p - 1)
  }

  function And(x: nat, y: nat): (r: nat) {
    if x == 0 || y == 0 then 0 else 2 * And(x / 2, y / 2) + (x % 2) * (y % 2)
  }

  function Or(x: nat, y: nat): (r: nat) {
    if x == 0 then y else if y == 0 then x
    else 2 * Or(x / 2, y / 2) + if x % 2 == 1 || y % 2 == 1 then 1 else 0
  }

  /** The complement of `x` among `w` bits. */
  function Not(x: nat, w: nat): (r: nat) {
    if w == 0 then 0 else 2 * Not(x / 2, w - 1) + (1 - x % 2)
  }

  /** The number of zeros above the highest set bit, among `w` bits. */
  function LeadingZeros(x: nat, w: nat): (r: nat)
    ensures r <= w
  {
    if w == 0 then 0 else if Bit(x, w - 1) then 0 else 1 + LeadingZeros(x, w - 1)
  }

  lemma {:induction false} ZeroBit(p: nat)
    ensures !Bit(0, p)
  {
    if p > 0 { ZeroBit(p - 1); }
  }

  lemma {:induction false} AndBit(x: nat, y: nat, p: nat)
    ensures Bit(And(x, y), p) <==> Bit(x, p) && Bit(y, p)
  {
    if x == 0 || y == 0 {
      ZeroBit(p);
    } else if p > 0 {
      AndBit(x / 2, y / 2, p - 1);
      assert And(x, y) / 2 == And(x / 2, y / 2);
    }
  }

  lemma {:induction false} OrBit(x: nat, y: nat, p: nat)
    ensures Bit(Or(x, y), p) <==> Bit(x, p) || Bit(y, p)
  {
    if x == 0 || y == 0 {
      ZeroBit(p);
    } else if p > 0 {
      OrBit(x / 2, y / 2, p - 1);
      assert Or(x, y) / 2 == Or(x / 2, y / 2);
    }
  }

  lemma {:induction false} NotBit(x: nat, w: nat, p: nat)
    ensures Bit(Not(x, w), p) <==> p < w && !Bit(x, p)
  {
    if w == 0 {
      ZeroBit(p);
    } else if p > 0 {
      NotBit(x / 2, w - 1, p - 1);
      assert Not(x, w) / 2 == Not(x / 2, w - 1);
    }
  }

  lemma {:induction false} Pow2Bit(k: nat, p: nat)
    ensures Bit(Pow2(k), p) <==> p == k
  {
    if k > 0 && p > 0 {
      Pow2Bit(k - 1, p - 1);
    } else if p > 0 {
      ZeroBit(p - 1);
    }
  }

  /** A number with a bit set is not zero, and a number that is not zero has a bit set. */
  lemma {:induction false} NonZeroBit(x: nat, w: nat) returns (p: nat)
    requires 0 < x < Pow2(w)
    ensures p < w && Bit(x, p)
  {
    if x % 2 == 1 {
      p := 0;
    } else {
      var q := NonZeroBit(x / 2, w - 1);
      p := q + 1;
    }
  }

  /** A number none of whose bits from `w` up is set is below `Pow2(w)`. */
  lemma {:induction false} SmallBits(x: nat, w: nat)
    requires forall p: nat :: p >= w ==> !Bit(x, p)
    ensures x < Pow2(w)
    decreases x, w
  {
    if w > 0 {
      forall p: nat | p >= w - 1 ensures !Bit(x / 2, p) {
        assert !Bit(x, p + 1);
      }
      if x > 0 {
        SmallBits(x / 2, w - 1);
      }
    } else if x > 0 {
      forall p: nat | p >= 0 ensures !Bit(x / 2, p) {
        assert !Bit(x, p + 1);
      }
      assert !Bit(x, 0);
      SmallBits(x / 2, 0);
    }
  }

  /** `w - 1` less the leading zeros is the highest set bit. */
  lemma {:induction false} HighestBit(x: nat, w: nat)
    requires 0 < x < Pow2(w)
    ensures LeadingZeros(x, w) < w
    ensures Bit(x, w - 1 - LeadingZeros(x, w))
    ensures forall p: nat :: w - 1 - LeadingZeros(x, w) < p < w ==> !Bit(x, p)
  {
    var p := NonZeroBit(x, w);
    HighestBelow(x, w, p);
  }

  lemma {:induction false} HighestBelow(x: nat, w: nat, p: nat)
    requires p < w && Bit(x, p)
    ensures LeadingZeros(x, w) < w
    ensures Bit(x, w - 1 - LeadingZeros(x, w))
    ensures forall q: nat :: w - 1 - LeadingZeros(x, w) < q < w ==> !Bit(x, q)
  {
    if !Bit(x, w - 1) {
      HighestBelow(x, w - 1, p);
    }
  }

  /** Halving a remainder. */
  lemma {:induction false} HalfMod(x: nat, m: nat)
    requires m > 0
    ensures x % (2 * m) == 2 * ((x / 2) % m) + x % 2
  {
    var h := x / 2;
    var q, r := h / m, h % m;
    assert h == q * m + r;
    assert x == q * (2 * m) + (2 * r + x % 2);
    DivModUnique(x, 2 * m, q, 2 * r + x % 2);
  }

  /** A multiple of `m` strictly between `-m` and `m` is zero. */
  lemma {:induction false} MultipleBelow(d: int, m: nat)
    requires -(m as int) < d * m < m
    ensures d == 0
  {
    assert d >= 1 ==> d * m >= m;
    assert d <= -1 ==> d * m <= -1 * m;
  }

  lemma {:induction false} DivModUnique(x: nat, m: nat, q: nat, r: nat)
    requires m > 0 && r < m && x == q * m + r
    ensures x / m == q && x % m == r
  {
    var d := x / m - q;
    assert x == (x / m) * m + x % m;
    assert d * m == r - x % m;
    MultipleBelow(d, m);
  }

  lemma {:induction false} ModShift(x: nat, m: nat)
    requires m > 0
    ensures (x + m) % m == x % m
  {
    var q := x / m;
    assert x == q * m + x % m;
    assert (q + 1) * m == q * m + m;
    DivModUnique(x + m, m, q + 1, x % m);
  }

  /** Rounding down to a multiple of `m` identifies exactly the numbers with the same quotient. */
  lemma {:induction false} SameMultiple(x: nat, y: nat, m: nat)
    requires m > 0
    ensures x - x % m == y - y % m <==> x / m == y / m
  {
    var p, q := x / m, y / m;
    assert x - x % m == p * m && y - y % m == q * m;
    if p * m == q * m {
      DivModUnique(p * m, m, p, 0);
      DivModUnique(p * m, m, q, 0);
    }
  }

  /** Masking with a power of two less one keeps the remainder. */
  lemma {:induction false} LowMask(x: nat, k: nat)
    ensures And(x, Pow2(k) - 1) == x % Pow2(k)
  {
    if k > 0 {
      LowMask(x / 2, k - 1);
      HalfMod(x, Pow2(k - 1));
      assert (Pow2(k) - 1) / 2 == Pow2(k - 1) - 1;
      if x == 0 {
      } else {
        assert And(x, Pow2(k) - 1) == 2 * And(x / 2, Pow2(k - 1) - 1) + (x % 2) * 1;
      }
    }
  }

  /** Masking with all ones changes nothing. */
  lemma {:induction false} FullMask(x: nat, w: nat)
    requires x < Pow2(w)
    ensures And(x, Not(0, w)) == x
  {
    if x > 0 {
      FullMask(x / 2, w - 1);
      assert Not(0, w) / 2 == Not(0, w - 1) && Not(0, w) % 2 == 1;
    }
  }

  lemma {:induction false} AndDouble(x: nat, y: nat)
    ensures And(x, 2 * y) == 2 * And(x / 2, y)
  {
  }

  lemma {:induction false} NotMask(k: nat, w: nat)
    requires 0 < k <= w
    ensures Not(Pow2(k) - 1, w) == 2 * Not(Pow2(k - 1) - 1, w - 1)
  {
    assert (Pow2(k) - 1) / 2 == Pow2(k - 1) - 1 && (Pow2(k) - 1) % 2 == 1;
  }

  /** Masking with the complement of a power of two less one rounds down to a multiple. */
  lemma {:induction false} HighMask(x: nat, k: nat, w: nat)
    requires x < Pow2(w) && k <= w
    ensures And(x, Not(Pow2(k) - 1, w)) == x - x % Pow2(k)
  {
    if k == 0 {
      FullMask(x, w);
    } else {
      HighMask(x / 2, k - 1, w - 1);
      HalfMod(x, Pow2(k - 1));
      var half := Not(Pow2(k - 1) - 1, w - 1);
      AndDouble(x, half);
      NotMask(k, w);
    }
  }
}
