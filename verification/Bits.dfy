/** Single bits of two's-complement integers, as the shifts and masks of the source use them. */
module Bits {

  function Pow2(n: nat): (p: nat)
    ensures p >= 1
  {
    if n == 0 then 1 else 2 * Pow2(n - 1)
  }

  /** Bit i. Division by two rounds down, so negative values shift arithmetically. */
  predicate Bit(v: int, i: nat)
    decreases i
  {
    if i == 0 then v % 2 == 1 else Bit(v / 2, i - 1)
  }

  lemma MultipleAtLeast(d: nat, k: int)
    ensures k >= 1 ==> d * k >= d
    ensures d * -k == -(d * k)
  {
  }

  lemma SameFactor(d: nat, x: int, y: int)
    requires d > 0 && d * x == d * y
    ensures x == y
  {
    var k := x - y;
    assert d * k == 0;
    MultipleAtLeast(d, k);
    MultipleAtLeast(d, -k);
  }

  lemma RemainderUnique(w: int, d: nat, q: int, r: int)
    requires d > 0 && 0 <= r < d && w == d * q + r
    ensures w % d == r
  {
    var k := q - w / d;
    assert d * k == w % d - r by {
      assert d * k == d * q - d * (w / d);
    }
    MultipleAtLeast(d, k);
    MultipleAtLeast(d, -k);
  }

  lemma NestedQuotient(v: int, p: nat)
    requires p > 0
    ensures v / (2 * p) == (v / 2) / p
  {
    var h := v / 2;
    var q, r := h / p, h % p;
    assert h == p * q + r;
    assert v == (2 * p) * q + (2 * r + v % 2);
    RemainderUnique(v, 2 * p, q, 2 * r + v % 2);
    assert (2 * p) * (v / (2 * p)) == (2 * p) * q;
    SameFactor(2 * p, v / (2 * p), q);
  }

  /** The recursive reading is the shifted-and-masked one. */
  lemma {:induction false} BitIsShifted(v: int, i: nat)
    ensures Bit(v, i) == ((v / Pow2(i)) % 2 == 1)
    decreases i
  {
    if i == 0 {
    } else {
      BitIsShifted(v / 2, i - 1);
      NestedQuotient(v, Pow2(i - 1));
    }
  }

  lemma BitOfDouble(v: int, last: bool, i: nat)
    ensures Bit(2 * v + (if last then 1 else 0), i) == if i == 0 then last else Bit(v, i - 1)
  {
    var w := 2 * v + (if last then 1 else 0);
    assert w / 2 == v && (w % 2 == 1) == last;
  }

  /** `(v >> i) & 1` as the source computes it. */
  predicate ShiftedBit(v: int, i: nat): (b: bool)
    ensures b == Bit(v, i)
  {
    BitIsShifted(v, i);
    (v / Pow2(i)) % 2 == 1
  }

  /** `v | (1 << i)` when b holds, `v & ~(1 << i)` otherwise. */
  function WithBit(v: int, i: nat, b: bool): int
    decreases i
  {
    if i == 0 then v - v % 2 + (if b then 1 else 0)
    else 2 * WithBit(v / 2, i - 1, b) + v % 2
  }

  lemma {:induction false} WithBitReads(v: int, i: nat, b: bool, j: nat)
    ensures Bit(WithBit(v, i, b), j) == if i == j then b else Bit(v, j)
    decreases i
  {
    var w := WithBit(v, i, b);
    if i == 0 {
      assert w / 2 == v / 2;
    } else {
      assert w / 2 == WithBit(v / 2, i - 1, b) && w % 2 == v % 2;
      if j > 0 {
        WithBitReads(v / 2, i - 1, b, j - 1);
      }
    }
  }

  lemma {:induction false} WithBitStaysBelow(v: int, i: nat, b: bool, n: nat)
    requires 0 <= v < Pow2(n) && i < n
    ensures 0 <= WithBit(v, i, b) < Pow2(n)
    decreases i
  {
    if i == 0 {
    } else {
      WithBitStaysBelow(v / 2, i - 1, b, n - 1);
    }
  }

  /** Setting a clear bit adds its weight, clearing a set bit takes it away. */
  lemma {:induction false} WithBitWeighs(v: int, i: nat, b: bool)
    ensures WithBit(v, i, b) == v + (if b && !Bit(v, i) then Pow2(i) else 0)
                                  - (if !b && Bit(v, i) then Pow2(i) else 0)
    decreases i
  {
    if i == 0 {
    } else {
      WithBitWeighs(v / 2, i - 1, b);
    }
  }

  lemma {:induction false} HighBitsClear(v: int, n: nat, i: nat)
    requires 0 <= v < Pow2(n) && n <= i
    ensures !Bit(v, i)
    decreases i
  {
    if i == 0 {
    } else {
      HighBitsClear(v / 2, if n == 0 then 0 else n - 1, i - 1);
    }
  }

  lemma {:induction false} SomeBitSet(v: int, n: nat) returns (i: nat)
    requires 0 < v < Pow2(n)
    ensures i < n && Bit(v, i)
    decreases n
  {
    if v % 2 == 1 {
      i := 0;
    } else {
      var k := SomeBitSet(v / 2, n - 1);
      i := k + 1;
      assert Bit(v, i);
    }
  }

  lemma HalvedRemainder(w: int, p: nat)
    requires p > 0
    ensures w % (2 * p) == 2 * ((w / 2) % p) + w % 2
  {
    var h := w / 2;
    var q, r := h / p, h % p;
    assert h == p * q + r;
    assert w == (2 * p) * q + (2 * r + w % 2);
    RemainderUnique(w, 2 * p, q, 2 * r + w % 2);
  }

  /** The low n bits of w fix `w mod 2^n`. */
  lemma {:induction false} LowBitsDetermine(v: int, w: int, n: nat)
    requires 0 <= v < Pow2(n)
    requires forall i: nat | i < n :: Bit(v, i) == Bit(w, i)
    ensures v == w % Pow2(n)
    decreases n
  {
    if n == 0 {
    } else {
      forall i: nat | i < n - 1 ensures Bit(v / 2, i) == Bit(w / 2, i) {
        assert Bit(v, i + 1) == Bit(w, i + 1);
      }
      LowBitsDetermine(v / 2, w / 2, n - 1);
      assert Bit(v, 0) == Bit(w, 0);
      HalvedRemainder(w, Pow2(n - 1));
    }
  }

  lemma QuotientMonotone(a: int, b: int, d: nat)
    requires d > 0 && a <= b
    ensures a / d <= b / d
  {
    var k := a / d - b / d;
    assert d * k == d * (a / d) - d * (b / d);
    MultipleAtLeast(d, k);
  }
}
