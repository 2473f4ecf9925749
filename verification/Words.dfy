/** 64-bit words as Go's `uint64`: bit tests, shifts by a count up to 64, and the
    two `math/bits` primitives the bitmap uses. */
module Words {

  /** A bit position as a shift count. */
  function Index(k: nat): bv6
    requires k < 64
  {
    if k == 0 then 0 else Index(k - 1) + 1
  }

  predicate Bit6(w: bv64, k: bv6) {
    (w >> k) & 1 == 1
  }

  /** Bit `k` of `w`. */
  predicate Bit(w: bv64, k: nat)
    requires k < 64
  {
    Bit6(w, Index(k))
  }

  function Or(v: bv64, w: bv64): bv64 { v | w }

  function And(v: bv64, w: bv64): bv64 { v & w }

  /** Go's `v &^ w` */
  function AndNot(v: bv64, w: bv64): bv64 { And(v, Not(w)) }

  function Not(w: bv64): bv64 { !w }

  function Twice(w: bv64): bv64 { w << 1 }

  function Half(w: bv64): bv64 { w >> 1 }

  function Dec(w: bv64): bv64 { w - 1 }

  /** `w << n`; as in Go, a count of 64 leaves zero. */
  function Shl(w: bv64, n: nat): bv64 {
    if n == 0 then w else Twice(Shl(w, n - 1))
  }

  /** `w >> n`, logical. */
  function Shr(w: bv64, n: nat): bv64 {
    if n == 0 then w else Half(Shr(w, n - 1))
  }

  /** `w & mask != 0` */
  predicate Meets(w: bv64, mask: bv64) { And(w, mask) != 0 }

  /** `bits.TrailingZeros64`: the lowest set bit, searched from `i`. */
  function TrailingZeros(w: bv64, i: nat := 0): (t: nat)
    requires i < 64
    requires exists k: nat :: i <= k < 64 && Bit(w, k)
    ensures i <= t < 64 && Bit(w, t)
    ensures forall k: nat | i <= k < t :: !Bit(w, k)
    decreases 64 - i
  {
    if Bit(w, i) then i else TrailingZeros(w, i + 1)
  }

  /** `bits.OnesCount64`, restricted to the bits below `n`. */
  function OnesBelow(w: bv64, n: nat): (c: nat)
    requires n <= 64
    ensures c <= n
  {
    if n == 0 then 0 else OnesBelow(w, n - 1) + (if Bit(w, n - 1) then 1 else 0)
  }

  // ---------------------------------------------------------------- positions

  lemma {:induction false} IndexSucc6(i: bv6)
    requires i as int < 63
    ensures (i + 1) as int == i as int + 1
  {
  }

  lemma {:induction false} IndexValue(k: nat)
    requires k < 64
    ensures Index(k) as int == k
  {
    if k > 0 {
      IndexValue(k - 1);
      IndexSucc6(Index(k - 1));
    }
  }

  lemma {:induction false} Order6(i: bv6, j: bv6)
    ensures (i == j) == (i as int == j as int)
  {
  }

  lemma {:induction false} IndexTop(k: nat)
    requires k < 64
    ensures Index(k) == 63 <==> k == 63
    ensures Index(k) == 0 <==> k == 0
  {
    IndexValue(k);
    Order6(Index(k), 63);
    Order6(Index(k), 0);
  }

  // ----------------------------------------------------------- bitwise algebra

  lemma {:induction false} OrBit6(v: bv64, w: bv64, k: bv6)
    ensures Bit6(Or(v, w), k) == (Bit6(v, k) || Bit6(w, k))
  {
  }

  lemma {:induction false} AndBit6(v: bv64, w: bv64, k: bv6)
    ensures Bit6(And(v, w), k) == (Bit6(v, k) && Bit6(w, k))
  {
  }

  lemma {:induction false} NotBit6(w: bv64, k: bv6)
    ensures Bit6(Not(w), k) == !Bit6(w, k)
  {
  }

  lemma {:induction false} ConstantBit6(k: bv6)
    ensures !Bit6(0, k) && Bit6(!0, k)
    ensures Bit6(1, k) == (k == 0)
  {
  }

  lemma {:induction false} DoubleBit6(w: bv64, k: bv6)
    requires k != 63
    ensures Bit6(Twice(w), k + 1) == Bit6(w, k)
  {
  }

  lemma {:induction false} DoubleOneBit6(w: bv64, k: bv6)
    requires k != 63
    ensures Bit6(Or(Twice(w), 1), k + 1) == Bit6(w, k)
  {
  }

  lemma {:induction false} DoubleLowBit6(w: bv64)
    ensures !Bit6(Twice(w), 0)
  {
  }

  lemma {:induction false} HalfBit6(w: bv64, k: bv6)
    requires k != 63
    ensures Bit6(Half(w), k) == Bit6(w, k + 1)
  {
  }

  lemma {:induction false} HalfTopBit6(w: bv64)
    ensures !Bit6(Half(w), 63)
  {
  }

  lemma {:induction false} OrBit(v: bv64, w: bv64, k: nat)
    requires k < 64
    ensures Bit(Or(v, w), k) == (Bit(v, k) || Bit(w, k))
  {
    hide Bit6, Or;
    OrBit6(v, w, Index(k));
  }

  lemma {:induction false} AndBit(v: bv64, w: bv64, k: nat)
    requires k < 64
    ensures Bit(And(v, w), k) == (Bit(v, k) && Bit(w, k))
  {
    hide Bit6, And;
    AndBit6(v, w, Index(k));
  }

  lemma {:induction false} NotBit(w: bv64, k: nat)
    requires k < 64
    ensures Bit(Not(w), k) == !Bit(w, k)
  {
    hide Bit6, Not;
    NotBit6(w, Index(k));
  }

  lemma {:induction false} AndNotBit(v: bv64, w: bv64, k: nat)
    requires k < 64
    ensures Bit(AndNot(v, w), k) == (Bit(v, k) && !Bit(w, k))
  {
    hide Bit, And, Not;
    AndBit(v, Not(w), k);
    NotBit(w, k);
  }

  lemma {:induction false} ConstantBit(k: nat)
    requires k < 64
    ensures !Bit(0, k) && Bit(!0, k)
    ensures Bit(1, k) == (k == 0)
  {
    hide Bit6;
    ConstantBit6(Index(k));
    IndexTop(k);
  }

  lemma {:induction false} DoubleBit(w: bv64, k: nat)
    requires k < 64
    ensures Bit(Twice(w), k) == (k > 0 && Bit(w, k - 1))
  {
    hide Bit6, Twice;
    if k > 0 {
      IndexTop(k - 1);
      DoubleBit6(w, Index(k - 1));
    } else {
      DoubleLowBit6(w);
    }
  }

  lemma {:induction false} HalfBit(w: bv64, k: nat)
    requires k < 64
    ensures Bit(Half(w), k) == (k < 63 && Bit(w, k + 1))
  {
    hide Bit6, Half;
    IndexTop(k);
    if k < 63 {
      HalfBit6(w, Index(k));
    } else {
      HalfTopBit6(w);
    }
  }

  lemma {:induction false} ShlBit(w: bv64, n: nat, k: nat)
    requires k < 64
    ensures Bit(Shl(w, n), k) == (n <= k && Bit(w, k - n))
  {
    hide Bit, Twice;
    if n > 0 {
      DoubleBit(Shl(w, n - 1), k);
      if k > 0 { ShlBit(w, n - 1, k - 1); }
    }
  }

  lemma {:induction false} ShrBit(w: bv64, n: nat, k: nat)
    requires k < 64
    ensures Bit(Shr(w, n), k) == (k + n < 64 && Bit(w, k + n))
  {
    hide Bit, Half;
    if n > 0 {
      HalfBit(Shr(w, n - 1), k);
      if k < 63 { ShrBit(w, n - 1, k + 1); }
    }
  }

  // -------------------------------------------------------- the source's masks

  lemma {:induction false} OneHot(j: nat, k: nat)
    requires j < 64 && k < 64
    ensures Bit(Shl(1, j), k) == (j == k)
  {
    hide Bit, Shl;
    ShlBit(1, j, k);
    if j <= k { ConstantBit(k - j); }
  }

  /** `w | 1 << j` */
  lemma {:induction false} SetBit(w: bv64, j: nat, k: nat)
    requires j < 64 && k < 64
    ensures Bit(Or(w, Shl(1, j)), k) == (Bit(w, k) || j == k)
  {
    hide Bit, Shl, Or;
    OneHot(j, k);
    OrBit(w, Shl(1, j), k);
  }

  /** `w &^ 1 << j` */
  lemma {:induction false} ClearBit(w: bv64, j: nat, k: nat)
    requires j < 64 && k < 64
    ensures Bit(AndNot(w, Shl(1, j)), k) == (Bit(w, k) && j != k)
  {
    hide Bit, Shl, AndNot;
    OneHot(j, k);
    AndNotBit(w, Shl(1, j), k);
  }

  /** A masked word is nonzero exactly when it shares a bit with the mask. */
  lemma {:induction false} TestMask(w: bv64, mask: bv64)
    ensures Meets(w, mask) == exists k: nat :: k < 64 && Bit(w, k) && Bit(mask, k)
  {
    hide Bit, And;
    ZeroWord(And(w, mask));
    forall k: nat | k < 64 ensures Bit(And(w, mask), k) == (Bit(w, k) && Bit(mask, k)) {
      AndBit(w, mask, k);
    }
    if Meets(w, mask) {
      var k: nat :| k < 64 && Bit(And(w, mask), k);
      assert Bit(w, k) && Bit(mask, k);
    }
  }

  /** `w & (1 << k) != 0` */
  lemma {:induction false} TestBit(w: bv64, k: nat)
    requires k < 64
    ensures Meets(w, Shl(1, k)) == Bit(w, k)
  {
    hide Bit, Shl, Meets;
    forall i: nat | i < 64 ensures Bit(Shl(1, k), i) == (i == k) {
      OneHot(k, i);
    }
    TestOneHot(w, Shl(1, k), k);
  }

  lemma {:induction false} TestOneHot(w: bv64, mask: bv64, k: nat)
    requires k < 64
    requires forall i: nat | i < 64 :: Bit(mask, i) == (i == k)
    ensures Meets(w, mask) == Bit(w, k)
  {
    hide Bit, Meets;
    TestMask(w, mask);
  }

  lemma {:induction false} DecBit6(w: bv64, k: bv6)
    requires k != 63
    ensures Bit6(Dec(Twice(w)), k + 1) == Bit6(Dec(w), k)
  {
    hide Bit6, Dec, Twice, Or;
    DecTwice(w);
    DoubleOneBit6(Dec(w), k);
  }

  lemma {:induction false} DecTwice(w: bv64)
    ensures Dec(Twice(w)) == Or(Twice(Dec(w)), 1)
  {
  }

  lemma {:induction false} DecLowBit6(w: bv64)
    ensures Bit6(Dec(Twice(w)), 0)
  {
  }

  lemma {:induction false} DecBit(w: bv64, k: nat)
    requires k < 64
    ensures Bit(Dec(Twice(w)), k) == (k == 0 || Bit(Dec(w), k - 1))
  {
    hide Bit6, Dec, Twice;
    if k > 0 {
      IndexTop(k - 1);
      DecBit6(w, Index(k - 1));
    } else {
      DecLowBit6(w);
    }
  }

  /** `(1 << n) - 1` has exactly the bits below `n`. */
  lemma {:induction false} LowMask(n: nat, k: nat)
    requires k < 64
    ensures Bit(Dec(Shl(1, n)), k) == (k < n)
  {
    hide Bit, Twice;
    if n > 0 {
      DecBit(Shl(1, n - 1), k);
      if k > 0 { LowMask(n - 1, k - 1); }
    } else {
      ConstantBit(k);
    }
  }

  /** `^0 << n` has exactly the bits from `n` up. */
  lemma {:induction false} HighMask(n: nat, k: nat)
    requires k < 64
    ensures Bit(Shl(!0, n), k) == (n <= k)
  {
    hide Bit, Shl;
    ShlBit(!0, n, k);
    if n <= k { ConstantBit(k - n); }
  }

  /** `((1 << (b - a + 1)) - 1) << a` has exactly the bits from `a` to `b`. */
  lemma {:induction false} MiddleMask(a: nat, b: nat, k: nat)
    requires a <= b < 64 && k < 64
    ensures Bit(Shl(Dec(Shl(1, b - a + 1)), a), k) == (a <= k <= b)
  {
    hide Bit, Shl, Dec;
    ShlBit(Dec(Shl(1, b - a + 1)), a, k);
    if a <= k { LowMask(b - a + 1, k - a); }
  }

  /** `^0 >> (64 - n)` has exactly the bits below `n`. */
  lemma {:induction false} TailMask(n: nat, k: nat)
    requires n <= 64 && k < 64
    ensures Bit(Shr(!0, 64 - n), k) == (k < n)
  {
    hide Bit, Shr;
    ShrBit(!0, 64 - n, k);
    if k < n { ConstantBit(k + 64 - n); }
  }

  // ------------------------------------------------------------- the zero word

  /** A word is zero exactly when none of its bits is set. */
  lemma {:induction false} ZeroWord(w: bv64)
    ensures w == 0 <==> forall k: nat | k < 64 :: !Bit(w, k)
  {
    hide Bit6;
    if w == 0 {
      forall k: nat | k < 64 ensures !Bit(w, k) {
        ConstantBit(k);
      }
    }
    if forall k: nat | k < 64 :: !Bit(w, k) {
      LowBitsZero(w, 64);
      IndexTop(63);
      LastStep(w, Index(63));
    }
  }

  /** `w` has nothing below position `k`. */
  predicate Aligned(w: bv64, k: bv6) {
    w & (((1 as bv64) << k) - 1) == 0
  }

  lemma {:induction false} LowBitsZero(w: bv64, n: nat)
    requires 0 < n <= 64
    requires forall k: nat | k < n :: !Bit(w, k)
    ensures Aligned(w, Index(n - 1)) && !Bit(w, n - 1)
  {
    hide Bit6, Aligned;
    assert !Bit(w, n - 1);
    if n > 1 {
      LowBitsZero(w, n - 1);
      IndexTop(n - 2);
      LowStep(w, Index(n - 2));
    } else {
      AlignedZero(w);
    }
  }

  lemma {:induction false} AlignedZero(w: bv64)
    ensures Aligned(w, 0)
  {
  }

  lemma {:induction false} LowStep(w: bv64, k: bv6)
    requires k != 63
    requires Aligned(w, k) && !Bit6(w, k)
    ensures Aligned(w, k + 1)
  {
  }

  lemma {:induction false} LastStep(w: bv64, k: bv6)
    requires k == 63
    requires Aligned(w, k) && !Bit6(w, k)
    ensures w == 0
  {
  }
}
