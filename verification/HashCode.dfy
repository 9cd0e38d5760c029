/** `stringToHashCode`: a base-7 polynomial of the characters of a MAC address, accumulated in a double. */
module HashCode {
  import opened Rounding

  /** Characters are their codes as C++ reads them, -128..127; 7-bit text has no negative ones. */
  type Text = seq<int>

  ghost predicate SevenBit(s: Text) {
    forall i :: 0 <= i < |s| ==> 0 <= s[i] < 128
  }

  /** The loop over exact integers. */
  function Poly(s: Text): int {
    if s == [] then 0 else 7 * Poly(s[..|s| - 1]) + s[|s| - 1]
  }

  /** One iteration over doubles, rounding after the product and after the sum. */
  function Step(h: int, c: int): int {
    RoundDouble(RoundDouble(7 * h) + c)
  }

  /** A left-to-right accumulation from 0. */
  function Fold(step: (int, int) -> int, s: Text): int {
    if s == [] then 0 else step(Fold(step, s[..|s| - 1]), s[|s| - 1])
  }

  function Hash(s: Text): int {
    Fold(Step, s)
  }

  method StringToHashCode(s: Text) returns (h: int)
    ensures h == Hash(s)
  {
    h := 0;
    if h == 0 && |s| > 0 {
      var i := 0;
      while i < |s|
        invariant 0 <= i <= |s|
        invariant h == Hash(s[..i])
      {
        assert s[..i + 1][..i] == s[..i];
        h := RoundDouble(RoundDouble(7 * h) + s[i]);
        i := i + 1;
      }
      assert s[..i] == s;
    }
  }

  function Pow7(n: nat): nat {
    if n == 0 then 1 else 7 * Pow7(n - 1)
  }

  /** The polynomial of a concatenation. */
  lemma {:induction false} PolyConcat(a: Text, b: Text)
    ensures Poly(a + b) == Poly(a) * Pow7(|b|) + Poly(b)
  {
    if b == [] {
      assert a + b == a;
    } else {
      var front, n := b[..|b| - 1], |b| - 1;
      PolyConcat(a, front);
      assert (a + b)[..|a + b| - 1] == a + front;
      assert 7 * (Poly(a) * Pow7(n)) == Poly(a) * Pow7(n + 1);
    }
  }

  /** The largest value a 7-bit text of length n can have. */
  function Bound(n: nat): nat {
    if n == 0 then 0 else 7 * Bound(n - 1) + 127
  }

  lemma {:induction false} PolyBound(s: Text)
    requires SevenBit(s)
    ensures 0 <= Poly(s) <= Bound(|s|)
  {
    if s == [] {
    } else {
      PolyBound(s[..|s| - 1]);
    }
  }

  lemma {:induction false} BoundGrows(m: nat, n: nat)
    requires m <= n
    ensures Bound(m) <= Bound(n)
  {
    if m == n {
    } else {
      BoundGrows(m, n - 1);
    }
  }

  lemma {:induction false} BoundClosedForm(n: nat)
    ensures 6 * Bound(n) == 127 * (Pow7(n) - 1)
  {
    if n == 0 {
    } else {
      BoundClosedForm(n - 1);
    }
  }

  lemma SeventeenthPower()
    ensures Pow7(17) == 232630513987207
  {
    assert Pow7(6) == 117649;
    assert Pow7(12) == 13841287201;
  }

  lemma Bound17()
    ensures Bound(17) <= MAX_EXACT_INTEGER
  {
    BoundClosedForm(17);
    SeventeenthPower();
  }

  lemma ShortBound(s: Text)
    requires SevenBit(s) && |s| <= 17
    ensures 0 <= Poly(s) <= MAX_EXACT_INTEGER
  {
    Bound17();
    BoundGrows(|s|, 17);
    PolyBound(s);
  }

  lemma ExactStep(h: nat, c: nat)
    requires 7 * h + c <= MAX_EXACT_INTEGER
    ensures Step(h, c) == 7 * h + c
  {
    RoundDoubleExact(7 * h);
    RoundDoubleExact(7 * h + c);
  }

  /** Up to 17 characters of 7-bit text nothing is rounded. */
  lemma {:induction false} HashIsExact(s: Text)
    requires SevenBit(s) && |s| <= 17
    ensures Hash(s) == Poly(s)
    ensures 0 <= Hash(s) <= MAX_EXACT_INTEGER
  {
    ShortBound(s);
    if s == [] {
    } else {
      var front := s[..|s| - 1];
      HashIsExact(front);
      ExactStep(Hash(front), s[|s| - 1]);
    }
  }

  ghost predicate Over(s: Text, lo: int, hi: int) {
    forall i :: 0 <= i < |s| ==> lo <= s[i] <= hi
  }

  lemma {:induction false} PolyInjective(a: Text, b: Text, lo: int, hi: int)
    requires hi - lo < 7 && Over(a, lo, hi) && Over(b, lo, hi)
    requires |a| == |b| && Poly(a) == Poly(b)
    ensures a == b
  {
    if a == [] {
    } else {
      var n := |a| - 1;
      assert 7 * (Poly(a[..n]) - Poly(b[..n])) == b[n] - a[n];
      PolyInjective(a[..n], b[..n], lo, hi);
      assert a == a[..n] + [a[n]] && b == b[..n] + [b[n]];
    }
  }

  lemma {:induction false} FoldsExtend(step: (int, int) -> int, a: Text, b: Text, tail: Text)
    requires Fold(step, a) == Fold(step, b)
    ensures Fold(step, a + tail) == Fold(step, b + tail)
  {
    if tail == [] {
      assert a + tail == a && b + tail == b;
    } else {
      var front := tail[..|tail| - 1];
      FoldsExtend(step, a, b, front);
      assert (a + tail)[..|a + tail| - 1] == a + front;
      assert (b + tail)[..|b + tail| - 1] == b + front;
    }
  }

  /** Texts with equal ids keep equal ids however they continue, rounding included. */
  lemma CollisionsExtend(a: Text, b: Text, tail: Text)
    requires Hash(a) == Hash(b)
    ensures Hash(a + tail) == Hash(b + tail)
  {
    FoldsExtend(Step, a, b, tail);
  }

  ghost predicate Separates(n: nat, lo: int, hi: int) {
    forall a: Text, b: Text :: |a| == |b| == n && Over(a, lo, hi) && Over(b, lo, hi) && Hash(a) == Hash(b) ==> a == b
  }

  /** A range of more than 7 codes has colliding texts at every length, rounded or not; a smaller one has none where
      nothing is rounded. */
  lemma SeparatesIff(n: nat, lo: int, hi: int)
    requires 2 <= n && 0 <= lo <= hi < 128
    ensures hi - lo >= 7 ==> !Separates(n, lo, hi)
    ensures n <= 17 ==> (Separates(n, lo, hi) <==> hi - lo < 7)
  {
    if hi - lo >= 7 {
      var a, b, tail := [lo + 1, lo], [lo, lo + 7], seq(n - 2, i => lo);
      PairHash(lo + 1, lo);
      PairHash(lo, lo + 7);
      CollisionsExtend(a, b, tail);
      assert (a + tail)[0] != (b + tail)[0];
    } else if n <= 17 {
      forall a: Text, b: Text | |a| == |b| == n && Over(a, lo, hi) && Over(b, lo, hi) && Hash(a) == Hash(b)
        ensures a == b
      {
        HashIsExact(a);
        HashIsExact(b);
        PolyInjective(a, b, lo, hi);
      }
    }
  }

  ghost predicate PolySeparates(n: nat, lo: int, hi: int) {
    forall a: Text, b: Text :: |a| == |b| == n && Over(a, lo, hi) && Over(b, lo, hi) && Poly(a) == Poly(b) ==> a == b
  }

  /** Over exact integers the same holds at every length and for every range. */
  lemma PolySeparatesIff(n: nat, lo: int, hi: int)
    requires 2 <= n && lo <= hi
    ensures PolySeparates(n, lo, hi) <==> hi - lo < 7
  {
    if hi - lo < 7 {
      forall a: Text, b: Text | |a| == |b| == n && Over(a, lo, hi) && Over(b, lo, hi) && Poly(a) == Poly(b)
        ensures a == b
      {
        PolyInjective(a, b, lo, hi);
      }
    } else {
      var a, b, tail := [lo + 1, lo], [lo, lo + 7], seq(n - 2, i => lo);
      assert [lo + 1, lo][..1] == [lo + 1] && [lo, lo + 7][..1] == [lo];
      assert Poly([lo + 1]) == lo + 1 && Poly([lo]) == lo;
      PolyConcat(a, tail);
      PolyConcat(b, tail);
      assert (a + tail)[0] != (b + tail)[0];
      assert Over(a + tail, lo, hi) && Over(b + tail, lo, hi);
    }
  }

  lemma PairHash(c: int, d: int)
    requires 0 <= c < 128 && 0 <= d < 128
    ensures Hash([c, d]) == 7 * c + d
  {
    HashIsExact([c, d]);
    assert [c, d][..1] == [c] && [c][..0] == [];
    assert Poly([c]) == c;
  }

  function Codes(s: string): (t: Text)
    requires forall i :: 0 <= i < |s| ==> s[i] < 128 as char
    ensures SevenBit(t)
  {
    seq(|s|, i requires 0 <= i < |s| => s[i] as int)
  }
}
