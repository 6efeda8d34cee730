/** Bitwise operations of the C sources on unsigned words, as functions on natural
    numbers, with the arithmetic meaning of the idioms the sources use.

    The operations are defined bit by bit, so that `x & ((1 << k) - 1)` is what the
    source computes and `x % Pow2(k)` is a theorem about it.
 */
module Words {

  const TWO_32: nat := 0x1_0000_0000

  /** uint32_t */
  type u32 = x: nat | x < TWO_32

  /** 1 << k */
  function Pow2(k: nat): (r: nat)
    ensures r >= 1
  {
    if k == 0 then 1 else 2 * Pow2(k - 1)
  }

  /** (1 << k) - 1 */
  function Ones(k: nat): nat {
    Pow2(k) - 1
  }

  /** x & y */
  function And(x: nat, y: nat): nat
    decreases x
  {
    if x == 0 then 0 else 2 * And(x / 2, y / 2) + (if x % 2 == 1 && y % 2 == 1 then 1 else 0)
  }

  /** x | y */
  function Or(x: nat, y: nat): nat
    decreases x
  {
    if x == 0 then y else 2 * Or(x / 2, y / 2) + (if x % 2 == 1 || y % 2 == 1 then 1 else 0)
  }

  /** x & ~y */
  function AndNot(x: nat, y: nat): (r: nat)
    ensures r <= x
    decreases x
  {
    if x == 0 then 0 else 2 * AndNot(x / 2, y / 2) + (if x % 2 == 1 && y % 2 == 0 then 1 else 0)
  }

  /** x << k, kept to 32 bits */
  function Shl(x: nat, k: nat): u32 {
    (x * Pow2(k)) % TWO_32
  }

  lemma QuotientIsNatural(x: nat, m: nat)
    requires m > 0
    ensures x / m >= 0
  {
  }

  /** x >> k */
  function Shr(x: nat, k: nat): nat {
    QuotientIsNatural(x, Pow2(k));
    x / Pow2(k)
  }

  /** Bit k of x is set. */
  predicate Bit(x: nat, k: nat)
    decreases k
  {
    if k == 0 then x % 2 == 1 else Bit(x / 2, k - 1)
  }

  // ---------- Bits of the bitwise operations ----------

  lemma {:induction false} BitOfZero(k: nat)
    ensures !Bit(0, k)
  {
    if k > 0 {
      BitOfZero(k - 1);
    }
  }

  lemma {:induction false} BitOfOr(x: nat, y: nat, k: nat)
    ensures Bit(Or(x, y), k) <==> Bit(x, k) || Bit(y, k)
  {
    if x == 0 {
      BitOfZero(k);
    } else if k > 0 {
      BitOfOr(x / 2, y / 2, k - 1);
    }
  }

  lemma {:induction false} BitOfAndNot(x: nat, y: nat, k: nat)
    ensures Bit(AndNot(x, y), k) <==> Bit(x, k) && !Bit(y, k)
  {
    if x == 0 {
      BitOfZero(k);
    } else if k > 0 {
      BitOfAndNot(x / 2, y / 2, k - 1);
    }
  }

  lemma {:induction false} BitOfPow2(i: nat, k: nat)
    ensures Bit(Pow2(i), k) <==> i == k
  {
    if i == 0 {
      if k > 0 {
        BitOfZero(k - 1);
      }
    } else if k > 0 {
      BitOfPow2(i - 1, k - 1);
    }
  }

  /** x & (1 << k) is non-zero exactly when bit k is set. */
  lemma {:induction false} AndPow2IsBit(x: nat, k: nat)
    ensures And(x, Pow2(k)) != 0 <==> Bit(x, k)
  {
    if x == 0 {
      BitOfZero(k);
    } else if k == 0 {
      AndZero(x / 2);
    } else {
      AndPow2IsBit(x / 2, k - 1);
    }
  }

  lemma {:induction false} AndZero(x: nat)
    ensures And(x, 0) == 0
  {
    if x > 0 {
      AndZero(x / 2);
    }
  }

  lemma {:induction false} OrFits(x: nat, y: nat, k: nat)
    requires x < Pow2(k) && y < Pow2(k)
    ensures Or(x, y) < Pow2(k)
  {
    if k > 0 && x > 0 {
      OrFits(x / 2, y / 2, k - 1);
    }
  }

  // ---------- Powers of two ----------

  lemma {:induction false} Pow2Add(j: nat, k: nat)
    ensures Pow2(j + k) == Pow2(j) * Pow2(k)
  {
    if j > 0 {
      Pow2Add(j - 1, k);
      MulAssoc(2, Pow2(j - 1), Pow2(k));
    }
  }

  lemma MulAssoc(x: nat, y: nat, z: nat)
    ensures x * y * z == x * (y * z)
  {
  }

  lemma {:induction false} Pow2Monotone(j: nat, k: nat)
    requires j <= k
    ensures Pow2(j) <= Pow2(k)
  {
    if j < k {
      Pow2Monotone(j, k - 1);
    }
  }

  lemma SmallShl(x: nat, k: nat)
    requires x * Pow2(k) < TWO_32
    ensures Shl(x, k) == x * Pow2(k)
  {
  }

  lemma Pow2UpTo8()
    ensures Pow2(1) == 2 && Pow2(2) == 4 && Pow2(3) == 8 && Pow2(4) == 16
    ensures Pow2(5) == 32 && Pow2(6) == 64 && Pow2(7) == 128 && Pow2(8) == 256
  {
    assert Pow2(4) == 16;
    assert Pow2(6) == 64;
  }

  lemma Pow2At32()
    ensures Pow2(32) == TWO_32
  {
    Pow2UpTo8();
    Pow2Add(8, 8);
    Pow2Add(16, 16);
  }

  // ---------- Division ----------

  lemma DivModUnique(q: nat, m: nat, r: nat)
    requires r < m
    ensures (q * m + r) / m == q
    ensures (q * m + r) % m == r
  {
    var x := q * m + r;
    var d := x / m - q;
    assert d * m == r - x % m by {
      assert x == (x / m) * m + x % m;
      assert d * m == (x / m) * m - q * m;
    }
    SmallMultiple(d, m);
  }

  lemma SmallMultiple(d: int, m: int)
    requires m > 0 && -m < d * m < m
    ensures d == 0
  {
    assert d >= 1 ==> d * m >= m;
    assert d <= -1 ==> d * m <= -m;
  }

  lemma Regroup(q: nat, n: nat, c: nat, m: nat, b: nat)
    ensures (q * n + c) * m + b == q * (m * n) + (c * m + b)
  {
    assert (q * n + c) * m == q * n * m + c * m;
    assert q * n * m == q * (m * n);
  }

  lemma JoinBound(c: nat, n: nat, m: nat, b: nat)
    requires c < n && b < m
    ensures c * m + b < m * n
  {
    assert c * m <= (n - 1) * m;
    assert (n - 1) * m == m * n - m;
  }

  /** x / (m * n) and x % (m * n), one divisor at a time. */
  lemma DivModProduct(x: nat, m: nat, n: nat)
    requires m > 0 && n > 0
    ensures m * n > 0
    ensures x / (m * n) == (x / m) / n
    ensures x % (m * n) == ((x / m) % n) * m + x % m
  {
    var y := x / m;
    ProductQuotient(x, y, y / n, n, y % n, m, x % m);
  }

  lemma ProductQuotient(x: nat, y: nat, q: nat, n: nat, c: nat, m: nat, b: nat)
    requires x == y * m + b && y == q * n + c && c < n && b < m
    ensures m * n > 0
    ensures x / (m * n) == q && x % (m * n) == c * m + b
  {
    Regroup(q, n, c, m, b);
    JoinBound(c, n, m, b);
    DivModUnique(q, m * n, c * m + b);
  }

  lemma ScalingKeepsOrder(x: nat, y: nat, m: nat)
    requires m > 0
    ensures x * m < y * m <==> x < y
    ensures x * m == y * m <==> x == y
  {
    assert x < y ==> (x + 1) * m <= y * m;
    assert y < x ==> (y + 1) * m <= x * m;
  }

  lemma QuotientBound(x: nat, m: nat, n: nat)
    requires m > 0 && x < m * n
    ensures x / m < n
  {
    var q := x / m;
    assert q * m <= x;
    CancelFactor(q, n, m);
  }

  lemma CancelFactor(q: nat, n: nat, m: nat)
    requires q * m < m * n
    ensures q < n
  {
    assert q >= n ==> q * m >= m * n;
  }

  /** The two fields of a join, and the join of the two fields. */
  lemma FieldsOfJoin(x: nat, high: nat, low: nat, m: nat, n: nat)
    requires x == high * m + low && low < m && high < n
    ensures (x / m) % n == high && x % m == low
  {
    DivModUnique(high, m, low);
  }

  lemma JoinOfFields(x: nat, m: nat, n: nat)
    requires m > 0 && n > 0
    ensures (((x / m) % n) % n) * m + (x % m) % m == x % (m * n)
  {
    DivModProduct(x, m, n);
    SmallMod((x / m) % n, n);
    SmallMod(x % m, m);
  }

  lemma SmallMod(x: nat, m: nat)
    requires x < m
    ensures x % m == x
  {
  }

  lemma SmallQuotient(x: nat, m: nat)
    requires x < m
    ensures x / m == 0
  {
  }

  /** Dividing a multiple by a factor of the multiplier. */
  lemma QuotientOfMultiple(x: nat, m: nat, n: nat)
    requires n > 0
    ensures (x * (m * n)) / n == x * m
  {
    MulAssoc(x, m, n);
    DivModUnique(x * m, n, 0);
  }

  lemma ExactQuotients(x: nat, m: nat, n: nat)
    requires x == m * n && m > 0 && n > 0
    ensures x / m == n && x / n == m
  {
    DivModUnique(n, m, 0);
    DivModUnique(m, n, 0);
  }

  lemma ShiftedQuotient(x: nat, k: nat, m: nat)
    requires m > 0
    ensures (x + k * m) / m == x / m + k
  {
    ShiftedQuotientOf(x, x / m, x % m, k, m);
  }

  lemma ShiftedQuotientOf(x: nat, q: nat, r: nat, k: nat, m: nat)
    requires x == q * m + r && r < m
    ensures (x + k * m) / m == q + k
  {
    assert (q + k) * m == q * m + k * m;
    DivModUnique(q + k, m, r);
  }

  // ---------- Masks and disjoint fields ----------

  /** x & ((1 << k) - 1) is x mod 2^k. */
  lemma {:induction false} AndOnes(x: nat, k: nat)
    ensures And(x, Ones(k)) == x % Pow2(k)
  {
    if k == 0 {
      AndZero(x);
    } else {
      AndOnes(x / 2, k - 1);
      AndDouble(x, Pow2(k - 1));
      ModOfDouble(x, Pow2(k - 1));
    }
  }

  lemma AndDouble(x: nat, n: nat)
    requires n > 0
    ensures And(x, 2 * n - 1) == 2 * And(x / 2, n - 1) + x % 2
  {
    assert (2 * n - 1) / 2 == n - 1 && (2 * n - 1) % 2 == 1;
  }

  lemma ModOfDouble(x: nat, n: nat)
    requires n > 0
    ensures x % (2 * n) == 2 * ((x / 2) % n) + x % 2
  {
    DivModProduct(x, 2, n);
  }

  lemma ProductOfDouble(x: nat, n: nat)
    ensures x * (2 * n) == 2 * (x * n)
  {
  }

  /** A word with a zero low field joined with that field is their sum. */
  lemma {:induction false} OrDisjoint(high: nat, low: nat, k: nat)
    requires low < Pow2(k)
    ensures Or(high * Pow2(k), low) == high * Pow2(k) + low
  {
    if k > 0 && high > 0 {
      var h := high * Pow2(k - 1);
      ProductOfDouble(high, Pow2(k - 1));
      OrDisjoint(high, low / 2, k - 1);
    } else if k == 0 {
      OrZero(high);
    }
  }

  lemma {:induction false} OrZero(x: nat)
    ensures Or(x, 0) == x
  {
    if x > 0 {
      OrZero(x / 2);
    }
  }
}
