/** Rounding to nearest with ties to even: the fallback `rint`, and the doubles used for machine ids. */
module Rounding {
  import opened JsonReport

  /** All integers up to this magnitude are exact doubles (DBL_MANT_DIG is 53). */
  const MAX_EXACT_INTEGER := 0x20_0000_0000_0000 - 1

  /** The integer nearest to x, the even one on a tie. */
  function NearestEven(x: real): int {
    var below := x.Floor;
    var rest := x - below as real;
    if rest < 0.5 || (rest == 0.5 && below % 2 == 0) then below else below + 1
  }

  /** What rounding to nearest, ties to even, promises. */
  ghost predicate IsNearestEven(x: real, i: int) {
    && -0.5 <= x - i as real <= 0.5
    && ((x - i as real == 0.5 || x - i as real == -0.5) ==> i % 2 == 0)
  }

  /** The promise determines the result. */
  lemma NearestEvenIsUnique(x: real, i: int)
    ensures IsNearestEven(x, i) <==> i == NearestEven(x)
  {
    var below := x.Floor;
    assert below as real <= x < below as real + 1.0;
    if IsNearestEven(x, i) {
      assert below <= i <= below + 1;
    }
  }

  lemma NearestEvenIsOdd(x: real)
    ensures NearestEven(-x) == -NearestEven(x)
  {
  }

  lemma NearestEvenFixesIntegers(i: int)
    ensures NearestEven(i as real) == i
  {
  }

  /** The one family of inputs the fallback does not round to even: a tie next to an odd integer above the exact
      range. No double is such a value. */
  predicate OversizedTie(x: real) {
    var i := Truncate(x);
    && (i > MAX_EXACT_INTEGER || i < -MAX_EXACT_INTEGER)
    && i % 2 != 0
    && (x - i as real == 0.5 || x - i as real == -0.5)
  }

  /** What the fallback returns. */
  function RintValue(x: real): int {
    if OversizedTie(x) then Truncate(x) else NearestEven(x)
  }

  /** `rint`: the integer part moves away from zero by the value of a comparison. */
  method Rint(x: real) returns (i: int)
    ensures i == RintValue(x)
    ensures IsNearestEven(x, i) <==> !OversizedTie(x)
  {
    i := Truncate(x);
    var f := x - i as real;
    assert x >= 0.0 ==> 0.0 <= f < 1.0;
    assert x < 0.0 ==> -1.0 < f <= 0.0 by {
      assert (-x).Floor as real <= -x < (-x).Floor as real + 1.0;
    }
    if x > 0.0 {
      i := i + if f > 0.5 || (f == 0.5 && i <= MAX_EXACT_INTEGER && i % 2 != 0) then 1 else 0;
    } else {
      i := i - if f < -0.5 || (f == -0.5 && i >= -MAX_EXACT_INTEGER && i % 2 != 0) then 1 else 0;
    }
  }

  lemma TruncateIsOdd(x: real)
    ensures Truncate(-x) == -Truncate(x)
  {
  }

  lemma OversizedTieIsSymmetric(x: real)
    ensures OversizedTie(-x) <==> OversizedTie(x)
  {
    TruncateIsOdd(x);
  }

  /** The fallback commutes with negation, oversized ties included. */
  lemma RintIsOdd(x: real)
    ensures RintValue(-x) == -RintValue(x)
  {
    OversizedTieIsSymmetric(x);
    TruncateIsOdd(x);
    NearestEvenIsOdd(x);
  }

  /** It returns one of the two integers around x. */
  lemma RintIsNear(x: real)
    ensures RintValue(x) == x.Floor || (RintValue(x) == x.Floor + 1 && x != x.Floor as real)
  {
  }

  /** It preserves order. */
  lemma RintIsMonotone(x: real, y: real)
    requires x <= y
    ensures RintValue(x) <= RintValue(y)
  {
    RintIsNear(x);
    RintIsNear(y);
    assert x.Floor <= y.Floor;
    if x.Floor == y.Floor {
      SameFloor(x, y);
    }
  }

  lemma SameFloor(x: real, y: real)
    requires x <= y && x.Floor == y.Floor
    ensures RintValue(x) <= RintValue(y)
  {
  }

  /** It fixes integers, so rounding twice is rounding once. */
  lemma RintIsIdempotent(x: real)
    ensures RintValue(RintValue(x) as real) == RintValue(x)
  {
    NearestEvenFixesIntegers(RintValue(x));
  }

  // ----- integers held in a double

  /** The spacing of doubles around n. */
  function Ulp(n: nat): (u: nat)
    ensures u > 0
    ensures n <= MAX_EXACT_INTEGER ==> u == 1
  {
    if n <= MAX_EXACT_INTEGER then 1 else 2 * Ulp(n / 2)
  }

  /** The double nearest to an integer. */
  function RoundDouble(n: int): int {
    var u := Ulp(if n < 0 then -n else n);
    NearestEven(n as real / u as real) * u
  }

  lemma RoundDoubleExact(n: int)
    requires -MAX_EXACT_INTEGER <= n <= MAX_EXACT_INTEGER
    ensures RoundDouble(n) == n
  {
  }
}
