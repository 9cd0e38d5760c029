/** Powers of two and the bitwise operators of C on non-negative integers, bit by bit. */
module Bits {
  type Byte = b: int | 0 <= b < 256

  function Pow2(n: nat): (p: nat)
    ensures p > 0
  {
    if n == 0 then 1 else 2 * Pow2(n - 1)
  }

  function And(a: nat, b: nat): nat {
    if a == 0 || b == 0 then 0
    else 2 * And(a / 2, b / 2) + (if a % 2 == 1 && b % 2 == 1 then 1 else 0)
  }

  function Or(a: nat, b: nat): nat
    decreases a + b
  {
    if a == 0 then b
    else if b == 0 then a
    else 2 * Or(a / 2, b / 2) + (if a % 2 == 1 || b % 2 == 1 then 1 else 0)
  }

  /** `~x` on an unsigned integer of n bits. */
  function Not(n: nat, x: nat): (r: int)
    ensures x < Pow2(n) ==> 0 <= r < Pow2(n)
  {
    Pow2(n) - 1 - x
  }

  /** Or of a multiple of 2^k and a number below 2^k is their sum. */
  lemma {:induction false} OrIsSum(k: nat, high: nat, low: nat)
    requires low < Pow2(k)
    ensures Or(Pow2(k) * high, low) == Pow2(k) * high + low
  {
    if k == 0 || low == 0 || high == 0 {
    } else {
      assert Pow2(k) * high == 2 * (Pow2(k - 1) * high);
      OrIsSum(k - 1, high, low / 2);
      OrOfEven(Pow2(k) * high, Pow2(k - 1) * high, low);
    }
  }

  lemma OrOfEven(a: nat, half: nat, low: nat)
    requires a == 2 * half && a > 0 && low > 0 && Or(half, low / 2) == half + low / 2
    ensures Or(a, low) == a + low
  {
    assert a / 2 == half && a % 2 == 0;
  }

  /** And with an n-bit mask whose low k bits are clear drops the remainder by 2^k. */
  lemma {:induction false} AndClears(n: nat, k: nat, a: nat, mask: nat)
    requires k <= n && a < Pow2(n) && mask == Pow2(n) - Pow2(k)
    ensures And(a, mask) == a - a % Pow2(k)
  {
    if n == 0 {
    } else if k == 0 {
      AndOnes(n, a);
    } else {
      var half := Pow2(n - 1) - Pow2(k - 1);
      assert mask == 2 * half;
      AndClears(n - 1, k - 1, a / 2, half);
      HalfMod(a, Pow2(k - 1));
      if a == 0 || mask == 0 {
        assert And(a / 2, half) == 0;
      } else {
        assert mask / 2 == half && mask % 2 == 0;
      }
    }
  }

  lemma {:induction false} AndOnes(n: nat, a: nat)
    requires a < Pow2(n)
    ensures And(a, Pow2(n) - 1) == a
  {
    if n == 0 || a == 0 {
    } else {
      AndOnes(n - 1, a / 2);
      assert (Pow2(n) - 1) / 2 == Pow2(n - 1) - 1 && (Pow2(n) - 1) % 2 == 1;
    }
  }

  lemma HalfMod(a: nat, p: nat)
    requires p > 0
    ensures a - a % (2 * p) == 2 * (a / 2 - a / 2 % p)
  {
    var q, r := a / 2 / p, a / 2 % p;
    assert a / 2 == p * q + r;
    var low := 2 * r + a % 2;
    assert a == 2 * p * q + low && 0 <= low < 2 * p by {
      assert 2 * (p * q) == 2 * p * q;
    }
    DivModUnique(a, 2 * p, q, low);
  }

  lemma MulAtLeast(d: int, x: int)
    requires d > 0 && x > 0
    ensures d * x >= d
  {
  }

  lemma QuotientUnique(d: int, q: int, r: int, q': int, r': int)
    requires d > 0 && d * q + r == d * q' + r' && 0 <= r < d && 0 <= r' < d
    ensures q == q' && r == r'
  {
    assert d * (q - q') == r' - r && d * (q' - q) == r - r';
    if q > q' {
      MulAtLeast(d, q - q');
    } else if q < q' {
      MulAtLeast(d, q' - q);
    }
  }

  lemma DivModUnique(a: int, d: int, q: int, r: int)
    requires d > 0 && a == d * q + r && 0 <= r < d
    ensures a / d == q && a % d == r
  {
    QuotientUnique(d, q, r, a / d, a % d);
  }

  // ----- alignment

  /** `MY_ALIGN(A, L)` on unsigned integers of n bits. */
  function MyAlign(n: nat, a: nat, l: nat): nat
    requires 0 < l <= Pow2(n) && a + l - 1 < Pow2(n)
  {
    And(a + l - 1, Not(n, l - 1))
  }

  /** The same round-up written with a division. */
  function RoundUp(a: nat, l: nat): nat
    requires l > 0
  {
    (a + l - 1) / l * l
  }

  ghost predicate LeastMultipleFrom(r: nat, a: nat, l: nat)
    requires l > 0
  {
    && r % l == 0 && a <= r
    && forall m: nat :: m % l == 0 && a <= m ==> r <= m
  }

  /** The mask form and the division form agree on powers of two. */
  lemma MyAlignIsRoundUp(n: nat, k: nat, a: nat)
    requires k <= n && a + Pow2(k) - 1 < Pow2(n)
    ensures MyAlign(n, a, Pow2(k)) == RoundUp(a, Pow2(k))
  {
    AndClears(n, k, a + Pow2(k) - 1, Not(n, Pow2(k) - 1));
    RoundUpDrops(a, Pow2(k));
  }

  lemma RoundUpDrops(a: nat, l: nat)
    requires l > 0
    ensures RoundUp(a, l) == a + l - 1 - (a + l - 1) % l
  {
    DivTimes(a + l - 1, l);
  }

  lemma DivTimes(b: nat, l: nat)
    requires l > 0
    ensures b / l * l == b - b % l
  {
  }

  lemma MultipleBetween(l: nat, p: int, q: int)
    requires l > 0 && l * p > l * (q - 1)
    ensures p >= q
  {
  }

  /** Rounding up yields the least multiple that is large enough. */
  lemma RoundUpIsLeast(a: nat, l: nat)
    requires l > 0
    ensures LeastMultipleFrom(RoundUp(a, l), a, l)
  {
    var b := a + l - 1;
    var q := b / l;
    DivTimes(b, l);
    assert RoundUp(a, l) == l * q;
    DivModUnique(l * q, l, q, 0);
    forall m: nat | m % l == 0 && a <= m
      ensures RoundUp(a, l) <= m
    {
      MultipleAtLeast(m, l, q, a);
    }
  }

  lemma MultipleAtLeast(m: nat, l: nat, q: nat, a: nat)
    requires l > 0 && m % l == 0 && l * q < a + l && a <= m
    ensures l * q <= m
  {
    var p := m / l;
    DivTimes(m, l);
    assert l * (q - 1) == l * q - l;
    MultipleBetween(l, p, q);
    assert l * (p - q) >= 0;
  }
}
