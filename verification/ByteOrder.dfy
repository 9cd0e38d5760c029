/** The machine-independent stores and loads, low byte first, as the x86_64 build compiles them. */
module ByteOrder {
  import opened Bits

  // ----- C integer conversions

  function U16(x: int): nat { x % 0x1_0000 }

  function U32(x: int): nat { if 0 <= x < 0x1_0000_0000 then x else x % 0x1_0000_0000 }

  function U64(x: int): nat { if 0 <= x < 0x1_0000_0000_0000_0000 then x else x % 0x1_0000_0000_0000_0000 }

  function S16(x: int): int { if U16(x) < 0x8000 then U16(x) else U16(x) - 0x1_0000 }

  function S32(x: int): int { if U32(x) < 0x8000_0000 then U32(x) else U32(x) - 0x1_0000_0000 }

  function S64(x: int): int {
    if U64(x) < 0x8000_0000_0000_0000 then U64(x) else U64(x) - 0x1_0000_0000_0000_0000
  }

  /** `(uchar) (a >> (8 * k))` for signed or unsigned a: the shift rounds down. */
  function ByteOf(a: int, shifted: int): Byte
    requires shifted > 0
  {
    a / shifted % 0x100
  }

  // ----- positional notation

  function Pow256(n: nat): (p: nat)
    ensures p > 0
  {
    if n == 0 then 1 else 0x100 * Pow256(n - 1)
  }

  function Bytes(a: int, n: nat): (s: seq<Byte>)
    ensures |s| == n
    decreases n
  {
    if n == 0 then [] else [a % 0x100] + Bytes(a / 0x100, n - 1)
  }

  function Value(s: seq<Byte>): nat {
    if s == [] then 0 else s[0] as int + 0x100 * Value(s[1..])
  }

  lemma ModStep(a: int, p: nat)
    requires p > 0
    ensures a % (0x100 * p) == a % 0x100 + 0x100 * (a / 0x100 % p)
  {
    var q := a / 0x100;
    assert q == p * (q / p) + q % p;
    assert 0x100 * (p * (q / p)) == 0x100 * p * (q / p);
    DivModUnique(a, 0x100 * p, q / p, a % 0x100 + 0x100 * (q % p));
  }

  /** Load after store: the value modulo the width. */
  lemma {:induction false} ValueOfBytes(a: int, n: nat)
    ensures Value(Bytes(a, n)) == a % Pow256(n)
    decreases n
  {
    if n == 0 {
    } else {
      ValueOfBytes(a / 0x100, n - 1);
      ModStep(a, Pow256(n - 1));
    }
  }

  /** Store after load: the bytes. */
  lemma {:induction false} BytesOfValue(s: seq<Byte>)
    ensures Bytes(Value(s), |s|) == s
  {
    if s == [] {
    } else {
      BytesOfValue(s[1..]);
      DivModUnique(Value(s), 0x100, Value(s[1..]), s[0]);
    }
  }

  lemma BytesHead(a: int, m: nat, n: nat, rest: seq<Byte>)
    requires m > 0 && Bytes(a / 0x100, m - 1 + n) == Bytes(a / 0x100, m - 1) + rest
    ensures Bytes(a, m + n) == Bytes(a, m) + rest
  {
  }

  lemma {:induction false} BytesSplit(a: int, m: nat, n: nat)
    ensures Bytes(a, m + n) == Bytes(a, m) + Bytes(a / Pow256(m), n)
    decreases m
  {
    if m == 0 {
    } else {
      BytesSplit(a / 0x100, m - 1, n);
      DivDiv(a, 0x100, Pow256(m - 1));
      BytesHead(a, m, n, Bytes(a / Pow256(m), n));
    }
  }

  lemma DivDiv(a: int, b: nat, c: nat)
    requires b > 0 && c > 0
    ensures b * c > 0 && a / b / c == a / (b * c)
  {
    var q := a / b;
    var r := a % b + b * (q % c);
    MulAtLeast(b, c);
    assert a == b * c * (q / c) + r by {
      assert q == c * (q / c) + q % c;
      assert b * (c * (q / c)) == b * c * (q / c);
    }
    assert 0 <= r < b * c by {
      BelowProduct(a % b, q % c, b, c);
    }
    DivModUnique(a, b * c, q / c, r);
  }

  lemma BelowProduct(x: nat, y: nat, b: nat, c: nat)
    requires x < b && y < c
    ensures 0 <= x + b * y < b * c
  {
    assert b * c - b * y == b * (c - y);
    MulAtLeast(b, c - y);
  }

  lemma BytesModulo(a: int, n: nat)
    ensures Bytes(a % Pow256(n), n) == Bytes(a, n)
  {
    BytesOfValue(Bytes(a, n));
    ValueOfBytes(a, n);
  }

  // ----- stores

  /** `t` holds s at `at` and is otherwise as it was. */
  function Spliced(t: seq<Byte>, at: nat, s: seq<Byte>): seq<Byte>
    requires at + |s| <= |t|
  {
    t[..at] + s + t[at + |s|..]
  }

  lemma BytesUnfold(a: int)
    ensures Bytes(a, 2) == [ByteOf(a, 1), ByteOf(a, 0x100)]
    ensures Bytes(a, 3) == [ByteOf(a, 1), ByteOf(a, 0x100), ByteOf(a, 0x1_0000)]
    ensures Bytes(a, 4) == [ByteOf(a, 1), ByteOf(a, 0x100), ByteOf(a, 0x1_0000), ByteOf(a, 0x100_0000)]
    ensures Bytes(a, 5) == Bytes(a, 4) + [ByteOf(a, 0x1_0000_0000)]
    ensures Bytes(a, 6) == Bytes(a, 5) + [ByteOf(a, 0x100_0000_0000)]
  {
  }

  method Int2Store(t: array<Byte>, at: nat, a: int)
    requires at + 2 <= t.Length
    modifies t
    ensures t[..] == Spliced(old(t[..]), at, Bytes(a, 2))
  {
    var temp := U32(a);
    t[at] := ByteOf(temp, 1);
    t[at + 1] := ByteOf(temp, 0x100);
    TwoBytesOfU32(a);
  }

  lemma TwoBytesOfU32(a: int)
    ensures Bytes(a, 2) == [ByteOf(U32(a), 1), ByteOf(U32(a), 0x100)]
  {
    assert Pow256(4) == 0x1_0000_0000;
    BytesModulo(a, 4);
    BytesSplit(a, 2, 2);
    BytesSplit(U32(a), 2, 2);
    assert Bytes(a, 2) == Bytes(a, 4)[..2];
    BytesUnfold(U32(a));
  }

  method Int3Store(t: array<Byte>, at: nat, a: int)
    requires at + 3 <= t.Length
    modifies t
    ensures t[..] == Spliced(old(t[..]), at, Bytes(a, 3))
  {
    t[at] := ByteOf(a, 1);
    t[at + 1] := ByteOf(a, 0x100);
    t[at + 2] := ByteOf(a, 0x1_0000);
    BytesUnfold(a);
  }

  method Int4Store(t: array<Byte>, at: nat, a: int)
    requires at + 4 <= t.Length
    modifies t
    ensures t[..] == Spliced(old(t[..]), at, Bytes(a, 4))
  {
    t[at] := ByteOf(a, 1);
    t[at + 1] := ByteOf(a, 0x100);
    t[at + 2] := ByteOf(a, 0x1_0000);
    t[at + 3] := ByteOf(a, 0x100_0000);
    BytesUnfold(a);
  }

  method Int5Store(t: array<Byte>, at: nat, a: int)
    requires at + 5 <= t.Length
    modifies t
    ensures t[..] == Spliced(old(t[..]), at, Bytes(a, 5))
  {
    t[at] := ByteOf(a, 1);
    t[at + 1] := ByteOf(a, 0x100);
    t[at + 2] := ByteOf(a, 0x1_0000);
    t[at + 3] := ByteOf(a, 0x100_0000);
    t[at + 4] := ByteOf(a, 0x1_0000_0000);
    BytesUnfold(a);
  }

  method Int6Store(t: array<Byte>, at: nat, a: int)
    requires at + 6 <= t.Length
    modifies t
    ensures t[..] == Spliced(old(t[..]), at, Bytes(a, 6))
  {
    t[at] := ByteOf(a, 1);
    t[at + 1] := ByteOf(a, 0x100);
    t[at + 2] := ByteOf(a, 0x1_0000);
    t[at + 3] := ByteOf(a, 0x100_0000);
    t[at + 4] := ByteOf(a, 0x1_0000_0000);
    t[at + 5] := ByteOf(a, 0x100_0000_0000);
    BytesUnfold(a);
  }

  /** Two four-byte stores of the halves. */
  method Int8Store(t: array<Byte>, at: nat, a: int)
    requires at + 8 <= t.Length
    modifies t
    ensures t[..] == Spliced(old(t[..]), at, Bytes(a, 8))
  {
    var temp, temp2 := U32(a), U32(a / 0x1_0000_0000);
    SpliceTwice(t[..], at, Bytes(temp, 4), Bytes(temp2, 4));
    Int4Store(t, at, temp);
    Int4Store(t, at + 4, temp2);
    HalvesAreWhole(a);
  }

  lemma SpliceTwice(t: seq<Byte>, at: nat, x: seq<Byte>, y: seq<Byte>)
    requires at + |x| + |y| <= |t|
    ensures Spliced(Spliced(t, at, x), at + |x|, y) == Spliced(t, at, x + y)
  {
  }

  lemma HalvesAreWhole(a: int)
    ensures Bytes(U32(a), 4) + Bytes(U32(a / 0x1_0000_0000), 4) == Bytes(a, 8)
  {
    assert Pow256(4) == 0x1_0000_0000;
    BytesModulo(a, 4);
    BytesModulo(a / 0x1_0000_0000, 4);
    BytesSplit(a, 4, 4);
  }

  // ----- loads

  function Shl32(x: nat, bits: nat): nat { U32(x * bits) }

  function Add32(x: nat, y: nat): nat { U32(x + y) }

  function Uint2Korr(s: seq<Byte>): nat
    requires |s| >= 2
  {
    U16(s[0] as int + 0x100 * s[1] as int)
  }

  function Uint3Korr(s: seq<Byte>): nat
    requires |s| >= 3
  {
    Add32(Add32(s[0], Shl32(s[1], 0x100)), Shl32(s[2], 0x1_0000))
  }

  function Uint4Korr(s: seq<Byte>): nat
    requires |s| >= 4
  {
    Add32(Uint3Korr(s), Shl32(s[3], 0x100_0000))
  }

  function Uint5Korr(s: seq<Byte>): nat
    requires |s| >= 5
  {
    U64(Uint4Korr(s) + U64(0x1_0000_0000 * s[4] as int))
  }

  function Uint6Korr(s: seq<Byte>): nat
    requires |s| >= 6
  {
    U64(Uint5Korr(s) + U64(0x100_0000_0000 * s[5] as int))
  }

  function Uint8Korr(s: seq<Byte>): nat
    requires |s| >= 8
  {
    U64(Uint4Korr(s) + U64(0x1_0000_0000 * Uint4Korr(s[4..])))
  }

  function Sint3Korr(s: seq<Byte>): int
    requires |s| >= 3
  {
    Extended24(s[0], Shl32(s[1], 0x100), Shl32(s[2], 0x1_0000), Shl32(255, 0x100_0000), And(s[2], 128) != 0)
  }

  /** `|` of C on operands already shifted apart, with the sign byte only where the sign bit is set. */
  function Extended24(b0: nat, b1: nat, b2: nat, sign: nat, negative: bool): int {
    if negative then S32(Or(Or(Or(sign, b2), b1), b0)) else S32(Or(Or(b2, b1), b0))
  }

  function Sint2Korr(s: seq<Byte>): int
    requires |s| >= 2
  {
    S16(s[0] as int + 0x100 * S16(s[1]))
  }

  function Sint4Korr(s: seq<Byte>): int
    requires |s| >= 4
  {
    S32(s[0] as int + 0x100 * s[1] as int + 0x1_0000 * s[2] as int + S32(0x100_0000 * S16(s[3])))
  }

  function Sint8Korr(s: seq<Byte>): int
    requires |s| >= 8
  {
    S64(Uint8Korr(s))
  }

  /** Four bytes, high byte first. */
  function Int4Net(s: seq<Byte>): int
    requires |s| >= 4
  {
    S32(Or(Or(Or(s[3], Shl32(s[2], 0x100)), Shl32(s[1], 0x1_0000)), Shl32(s[0], 0x100_0000)))
  }

  lemma Value2(s: seq<Byte>)
    requires |s| >= 2
    ensures Value(s[..2]) == s[0] as int + 0x100 * s[1] as int
  {
    ValueSplit(s[..2], 1);
    assert s[..2][..1] == [s[0]] && s[..2][1..] == [s[1]];
    assert Pow256(1) == 0x100;
  }

  lemma Value3(s: seq<Byte>)
    requires |s| >= 3
    ensures Value(s[..3]) == s[0] as int + 0x100 * s[1] as int + 0x1_0000 * s[2] as int
  {
    Value2(s);
    ValueSnoc(s, 2);
    assert Pow256(2) == 0x1_0000;
  }

  lemma Value4(s: seq<Byte>)
    requires |s| >= 4
    ensures Value(s[..4]) == s[0] as int + 0x100 * s[1] as int + 0x1_0000 * s[2] as int + 0x100_0000 * s[3] as int
    ensures Value(s[..4]) < 0x1_0000_0000
  {
    Value3(s);
    ValueSnoc(s, 3);
    assert Pow256(3) == 0x100_0000;
  }

  lemma ScaleUp(p: nat, v: nat)
    ensures 0x100 * (p * v) == (0x100 * p) * v
  {
  }

  lemma {:induction false} ValueSplit(s: seq<Byte>, m: nat)
    requires m <= |s|
    ensures Value(s) == Value(s[..m]) + Pow256(m) * Value(s[m..])
  {
    if m == 0 {
      assert s[0..] == s;
    } else {
      ValueSplit(s[1..], m - 1);
      assert s[1..][..m - 1] == s[..m][1..] && s[1..][m - 1..] == s[m..];
      ScaleUp(Pow256(m - 1), Value(s[m..]));
    }
  }

  /** No shift and no partial sum of the unsigned loads wraps. */
  lemma NothingWraps(s: seq<Byte>)
    ensures |s| >= 2 ==> s[0] as int + 0x100 * s[1] as int < 0x1_0000
    ensures |s| >= 3 ==>
              && Shl32(s[1], 0x100) == 0x100 * s[1] as int && Shl32(s[2], 0x1_0000) == 0x1_0000 * s[2] as int
              && Add32(s[0], Shl32(s[1], 0x100)) == s[0] as int + Shl32(s[1], 0x100)
              && Uint3Korr(s) == Add32(s[0], Shl32(s[1], 0x100)) + Shl32(s[2], 0x1_0000)
    ensures |s| >= 4 ==>
              && Shl32(s[3], 0x100_0000) == 0x100_0000 * s[3] as int
              && Uint4Korr(s) == Uint3Korr(s) + Shl32(s[3], 0x100_0000)
    ensures |s| >= 5 ==>
              && U64(0x1_0000_0000 * s[4] as int) == 0x1_0000_0000 * s[4] as int
              && Uint5Korr(s) == Uint4Korr(s) + 0x1_0000_0000 * s[4] as int
    ensures |s| >= 6 ==>
              && U64(0x100_0000_0000 * s[5] as int) == 0x100_0000_0000 * s[5] as int
              && Uint6Korr(s) == Uint5Korr(s) + 0x100_0000_0000 * s[5] as int
    ensures |s| >= 8 ==>
              && U64(0x1_0000_0000 * Uint4Korr(s[4..])) == 0x1_0000_0000 * Uint4Korr(s[4..])
              && Uint8Korr(s) == Uint4Korr(s) + 0x1_0000_0000 * Uint4Korr(s[4..])
  {
    if |s| >= 4 {
      Value4(s);
    }
  }

  /** Each unsigned load is the positional value of its bytes. */
  lemma UnsignedLoads(s: seq<Byte>)
    ensures |s| >= 2 ==> Uint2Korr(s) == Value(s[..2])
    ensures |s| >= 3 ==> Uint3Korr(s) == Value(s[..3])
    ensures |s| >= 4 ==> Uint4Korr(s) == Value(s[..4]) < 0x1_0000_0000
    ensures |s| >= 5 ==> Uint5Korr(s) == Value(s[..5])
    ensures |s| >= 6 ==> Uint6Korr(s) == Value(s[..6])
    ensures |s| >= 8 ==> Uint8Korr(s) == Value(s[..8])
  {
    UnsignedLoads4(s);
    if |s| >= 5 {
      UnsignedLoads8(s);
    }
  }

  lemma UnsignedLoads4(s: seq<Byte>)
    ensures |s| >= 2 ==> Uint2Korr(s) == Value(s[..2])
    ensures |s| >= 3 ==> Uint3Korr(s) == Value(s[..3])
    ensures |s| >= 4 ==> Uint4Korr(s) == Value(s[..4]) < 0x1_0000_0000
  {
    if |s| >= 2 {
      Value2(s);
    }
    if |s| >= 3 {
      Value3(s);
    }
    if |s| >= 4 {
      Value4(s);
    }
  }

  lemma ValuesWide(s: seq<Byte>)
    requires |s| >= 5
    ensures Value(s[..5]) == Value(s[..4]) + 0x1_0000_0000 * s[4] as int
    ensures |s| >= 6 ==> Value(s[..6]) == Value(s[..5]) + 0x100_0000_0000 * s[5] as int
    ensures |s| >= 8 ==> Value(s[..8]) == Value(s[..4]) + 0x1_0000_0000 * Value(s[4..][..4])
  {
    PowersOf256();
    ValueSnoc(s, 4);
    if |s| >= 6 {
      ValueSnoc(s, 5);
    }
    if |s| >= 8 {
      ValueSplit(s[..8], 4);
      assert s[..8][..4] == s[..4] && s[..8][4..] == s[4..][..4];
    }
  }

  lemma UnsignedLoads8(s: seq<Byte>)
    requires |s| >= 5
    ensures Uint5Korr(s) == Value(s[..5])
    ensures |s| >= 6 ==> Uint6Korr(s) == Value(s[..6])
    ensures |s| >= 8 ==> Uint8Korr(s) == Value(s[..8])
  {
    ValuesWide(s);
    UnsignedLoads4(s);
    if |s| >= 8 {
      UnsignedLoads4(s[4..]);
    }
  }

  lemma ValueSnoc(s: seq<Byte>, n: nat)
    requires n < |s|
    ensures Value(s[..n + 1]) == Value(s[..n]) + Pow256(n) * s[n]
  {
    ValueSplit(s[..n + 1], n);
    assert s[..n + 1][..n] == s[..n] && s[..n + 1][n..] == [s[n]];
  }

  function S24(x: int): int {
    if x % 0x100_0000 < 0x80_0000 then x % 0x100_0000 else x % 0x100_0000 - 0x100_0000
  }

  /** The signed loads read two's complement of their width. */
  lemma SignedLoads(s: seq<Byte>)
    ensures |s| >= 2 ==> Sint2Korr(s) == S16(Value(s[..2]))
    ensures |s| >= 3 ==> Sint3Korr(s) == S24(Value(s[..3]))
    ensures |s| >= 4 ==> Sint4Korr(s) == S32(Value(s[..4]))
    ensures |s| >= 8 ==> Sint8Korr(s) == S64(Value(s[..8]))
  {
    SignedLoadsShort(s);
    if |s| >= 4 {
      Value4(s);
      Sint4KorrIs(s);
    }
    if |s| >= 8 {
      UnsignedLoads8(s);
    }
  }

  lemma SignedLoadsShort(s: seq<Byte>)
    ensures |s| >= 2 ==> Sint2Korr(s) == S16(Value(s[..2]))
    ensures |s| >= 3 ==> Sint3Korr(s) == S24(Value(s[..3]))
  {
    if |s| >= 2 {
      Value2(s);
      Sint2KorrIs(s);
    }
    if |s| >= 3 {
      Value3(s);
      Sint3KorrIs(s);
    }
  }

  lemma Sint2KorrIs(s: seq<Byte>)
    requires |s| >= 2
    ensures Sint2Korr(s) == S16(s[0] as int + 0x100 * s[1] as int)
  {
    assert S16(s[1]) == s[1];
  }

  lemma Sint4KorrIs(s: seq<Byte>)
    requires |s| >= 4
    ensures Sint4Korr(s) == S32(s[0] as int + 0x100 * s[1] as int + 0x1_0000 * s[2] as int + 0x100_0000 * s[3] as int)
  {
    var low, high: nat := s[0] as int + 0x100 * s[1] as int + 0x1_0000 * s[2] as int, 0x100_0000 * s[3] as int;
    assert S16(s[3]) == s[3];
  }

  lemma TestHigher(a: nat, p: nat)
    requires a > 0 && p > 0
    ensures And(a, 2 * p) == 2 * And(a / 2, p)
  {
    assert 2 * p / 2 == p && 2 * p % 2 == 0;
  }

  lemma {:induction false} TestBit(a: nat, k: nat)
    ensures And(a, Pow2(k)) == if a / Pow2(k) % 2 == 1 then Pow2(k) else 0
  {
    if a == 0 {
    } else if k == 0 {
      assert And(a / 2, 0) == 0;
    } else {
      TestBit(a / 2, k - 1);
      DivDiv(a, 2, Pow2(k - 1));
      TestHigher(a, Pow2(k - 1));
    }
  }

  lemma PowersOf2()
    ensures Pow2(7) == 128 && Pow2(8) == 0x100 && Pow2(16) == 0x1_0000 && Pow2(24) == 0x100_0000
  {
  }

  lemma OrPair(k: nat, high: nat, a: nat, low: nat)
    requires a == Pow2(k) * high && low < Pow2(k)
    ensures Or(a, low) == a + low && Or(low, a) == a + low
  {
    OrIsSum(k, high, low);
    OrCommutes(low, a);
  }

  /** `|` of bytes shifted apart, highest first, is their sum. */
  lemma OrDown3(b0: Byte, b1: Byte, b2: nat, c1: nat, c2: nat)
    requires c1 == 0x100 * b1 as int && c2 == 0x1_0000 * b2
    ensures Or(Or(c2, c1), b0) == b0 as int + c1 + c2
  {
    PowersOf2();
    OrPair(16, b2, c2, c1);
    OrPair(8, 0x100 * b2 + b1 as int, c2 + c1, b0);
  }

  lemma OrDown4(b0: Byte, b1: Byte, b2: Byte, b3: Byte, c1: nat, c2: nat, c3: nat)
    requires c1 == 0x100 * b1 as int && c2 == 0x1_0000 * b2 as int && c3 == 0x100_0000 * b3 as int
    ensures Or(Or(Or(c3, c2), c1), b0) == b0 as int + c1 + c2 + c3
  {
    PowersOf2();
    OrPair(24, b3, c3, c2);
    OrDown3(b0, b1, 0x100 * b3 as int + b2 as int, c1, c3 + c2);
  }

  /** ... and so it is lowest first. */
  lemma OrUp4(b0: Byte, b1: Byte, b2: Byte, b3: Byte, c1: nat, c2: nat, c3: nat)
    requires c1 == 0x100 * b1 as int && c2 == 0x1_0000 * b2 as int && c3 == 0x100_0000 * b3 as int
    ensures Or(Or(Or(b0, c1), c2), c3) == b0 as int + c1 + c2 + c3
  {
    PowersOf2();
    OrPair(8, b1, c1, b0);
    OrPair(16, b2, c2, c1 + b0);
    OrPair(24, b3, c3, c2 + c1 + b0);
  }

  lemma SignBit(b: Byte)
    ensures And(b, 128) != 0 <==> b >= 128
  {
    PowersOf2();
    TestBit(b, 7);
  }

  lemma Shifted(b: Byte)
    ensures Shl32(b, 0x100) == 0x100 * b as int && Shl32(b, 0x1_0000) == 0x1_0000 * b as int
    ensures Shl32(b, 0x100_0000) == 0x100_0000 * b as int
  {
  }

  lemma Sint3KorrIs(s: seq<Byte>)
    requires |s| >= 3
    ensures Sint3Korr(s) == S24(s[0] as int + 0x100 * s[1] as int + 0x1_0000 * s[2] as int)
  {
    SignBit(s[2]);
    Shifted(s[1]);
    Shifted(s[2]);
    Shifted(255);
    Extended24Is(s[0], s[1], s[2], 0x100 * s[1] as int, 0x1_0000 * s[2] as int, 0xff00_0000, s[2] >= 128);
  }

  lemma Extended24Is(b0: Byte, b1: Byte, b2: Byte, c1: nat, c2: nat, c3: nat, negative: bool)
    requires c1 == 0x100 * b1 as int && c2 == 0x1_0000 * b2 as int && c3 == 0xff00_0000
    requires negative <==> b2 >= 128
    ensures Extended24(b0, c1, c2, c3, negative) == S24(b0 as int + c1 + c2)
  {
    OrDown3(b0, b1, b2, c1, c2);
    OrDown4(b0, b1, b2, 255, c1, c2, c3);
    SignOf24(b0 as int + c1 + c2);
  }

  lemma SignOf24(v: nat)
    requires v < 0x100_0000
    ensures S24(v) == if v < 0x80_0000 then S32(v) else S32(v + 0xff00_0000)
  {
  }

  lemma {:induction false} OrCommutes(a: nat, b: nat)
    ensures Or(a, b) == Or(b, a)
    decreases a + b
  {
    if a == 0 || b == 0 {
    } else {
      OrCommutes(a / 2, b / 2);
    }
  }

  lemma Int4NetIs(s: seq<Byte>)
    requires |s| >= 4
    ensures Int4Net(s) == S32(s[3] as int + 0x100 * s[2] as int + 0x1_0000 * s[1] as int + 0x100_0000 * s[0] as int)
  {
    OrUp4(s[3], s[2], s[1], s[0], Shl32(s[2], 0x100), Shl32(s[1], 0x1_0000), Shl32(s[0], 0x100_0000));
  }

  function Reversed(s: seq<Byte>): seq<Byte> {
    seq(|s|, i requires 0 <= i < |s| => s[|s| - 1 - i])
  }

  lemma LoadAfterStore(a: int, n: nat)
    ensures Bytes(a, n)[..n] == Bytes(a, n) && Value(Bytes(a, n)[..n]) == a % Pow256(n)
  {
    ValueOfBytes(a, n);
  }

  /** Unsigned loads after stores give the value modulo the width. */
  lemma LoadsUndoStores(a: int)
    ensures Uint2Korr(Bytes(a, 2)) == a % 0x1_0000
    ensures Uint3Korr(Bytes(a, 3)) == a % 0x100_0000
    ensures Uint4Korr(Bytes(a, 4)) == a % 0x1_0000_0000
    ensures Uint5Korr(Bytes(a, 5)) == a % 0x100_0000_0000
    ensures Uint6Korr(Bytes(a, 6)) == a % 0x1_0000_0000_0000
    ensures Uint8Korr(Bytes(a, 8)) == a % 0x1_0000_0000_0000_0000
  {
    PowersOf256();
    UnsignedLoads(Bytes(a, 2));
    LoadAfterStore(a, 2);
    UnsignedLoads(Bytes(a, 3));
    LoadAfterStore(a, 3);
    UnsignedLoads(Bytes(a, 4));
    LoadAfterStore(a, 4);
    WideLoadsUndoStores(a);
  }

  lemma WideLoadsUndoStores(a: int)
    ensures Uint5Korr(Bytes(a, 5)) == a % 0x100_0000_0000
    ensures Uint6Korr(Bytes(a, 6)) == a % 0x1_0000_0000_0000
    ensures Uint8Korr(Bytes(a, 8)) == a % 0x1_0000_0000_0000_0000
  {
    PowersOf256();
    UnsignedLoads(Bytes(a, 5));
    LoadAfterStore(a, 5);
    UnsignedLoads(Bytes(a, 6));
    LoadAfterStore(a, 6);
    UnsignedLoads(Bytes(a, 8));
    LoadAfterStore(a, 8);
  }

  lemma PowersOf256()
    ensures Pow256(2) == 0x1_0000 && Pow256(3) == 0x100_0000 && Pow256(4) == 0x1_0000_0000
    ensures Pow256(5) == 0x100_0000_0000 && Pow256(6) == 0x1_0000_0000_0000 && Pow256(8) == 0x1_0000_0000_0000_0000
  {
  }

  lemma LowBytes(a: int)
    ensures var s := Bytes(a, 8);
            && s[..2] == Bytes(a, 2) && s[..3] == Bytes(a, 3) && s[..4] == Bytes(a, 4) && s[..8] == s
  {
  }

  lemma TwosComplement(a: int)
    ensures -0x8000 <= a < 0x8000 ==> S16(a % 0x1_0000) == a
    ensures -0x80_0000 <= a < 0x80_0000 ==> S24(a % 0x100_0000) == a
    ensures -0x8000_0000 <= a < 0x8000_0000 ==> S32(a % 0x1_0000_0000) == a
    ensures -0x8000_0000_0000_0000 <= a < 0x8000_0000_0000_0000 ==> S64(a % 0x1_0000_0000_0000_0000) == a
  {
  }

  /** Every signed load after the store of its width gives back every value of its range. */
  lemma SignedLoadsUndoStores(a: int)
    ensures -0x8000 <= a < 0x8000 ==> Sint2Korr(Bytes(a, 2)) == a
    ensures -0x80_0000 <= a < 0x80_0000 ==> Sint3Korr(Bytes(a, 3)) == a
    ensures -0x8000_0000 <= a < 0x8000_0000 ==> Sint4Korr(Bytes(a, 4)) == a
    ensures -0x8000_0000_0000_0000 <= a < 0x8000_0000_0000_0000 ==> Sint8Korr(Bytes(a, 8)) == a
  {
    PowersOf256();
    TwosComplement(a);
    SignedLoads(Bytes(a, 2));
    LoadAfterStore(a, 2);
    SignedLoads(Bytes(a, 3));
    LoadAfterStore(a, 3);
    SignedLoads(Bytes(a, 4));
    LoadAfterStore(a, 4);
    SignedLoads(Bytes(a, 8));
    LoadAfterStore(a, 8);
  }

  /** Bytes stored wider and read narrower keep the low end. */
  lemma NarrowLoadsUndoStores(a: int)
    ensures -0x8000 <= a < 0x8000 ==> Sint2Korr(Bytes(a, 8)) == a
    ensures -0x80_0000 <= a < 0x80_0000 ==> Sint3Korr(Bytes(a, 8)) == a
    ensures -0x8000_0000 <= a < 0x8000_0000 ==> Sint4Korr(Bytes(a, 8)) == a
  {
    PowersOf256();
    LowBytes(a);
    ValueOfBytes(a, 2);
    ValueOfBytes(a, 3);
    ValueOfBytes(a, 4);
    SignedLoads(Bytes(a, 8));
    TwosComplement(a);
  }

  lemma StoreValue(s: seq<Byte>, n: nat)
    requires n <= |s|
    ensures Bytes(Value(s[..n]), n) == s[..n]
  {
    BytesOfValue(s[..n]);
  }

  /** Storing what an unsigned load read restores the bytes. */
  lemma StoresUndoLoads(s: seq<Byte>)
    ensures |s| >= 2 ==> Bytes(Uint2Korr(s), 2) == s[..2]
    ensures |s| >= 3 ==> Bytes(Uint3Korr(s), 3) == s[..3]
    ensures |s| >= 4 ==> Bytes(Uint4Korr(s), 4) == s[..4]
    ensures |s| >= 5 ==> Bytes(Uint5Korr(s), 5) == s[..5]
    ensures |s| >= 6 ==> Bytes(Uint6Korr(s), 6) == s[..6]
    ensures |s| >= 8 ==> Bytes(Uint8Korr(s), 8) == s[..8]
  {
    UnsignedLoads(s);
    forall n: nat | n <= |s| ensures Bytes(Value(s[..n]), n) == s[..n] {
      StoreValue(s, n);
    }
  }

  lemma SameResidue(x: int, v: nat, n: nat)
    requires x % Pow256(n) == v % Pow256(n)
    ensures Bytes(x, n) == Bytes(v, n)
  {
    BytesModulo(x, n);
    BytesModulo(v, n);
  }

  lemma SignedResidues(v: int)
    ensures S16(v) % 0x1_0000 == v % 0x1_0000 && S24(v) % 0x100_0000 == v % 0x100_0000
    ensures S32(v) % 0x1_0000_0000 == v % 0x1_0000_0000
    ensures S64(v) % 0x1_0000_0000_0000_0000 == v % 0x1_0000_0000_0000_0000
  {
  }

  lemma StoreSigned(s: seq<Byte>, n: nat, x: int)
    requires n <= |s| && x % Pow256(n) == Value(s[..n]) % Pow256(n)
    ensures Bytes(x, n) == s[..n]
  {
    StoreValue(s, n);
    SameResidue(x, Value(s[..n]), n);
  }

  /** ... and so does storing what a signed load read. */
  lemma StoresUndoSignedLoads(s: seq<Byte>)
    ensures |s| >= 2 ==> Bytes(Sint2Korr(s), 2) == s[..2]
    ensures |s| >= 3 ==> Bytes(Sint3Korr(s), 3) == s[..3]
    ensures |s| >= 4 ==> Bytes(Sint4Korr(s), 4) == s[..4]
    ensures |s| >= 8 ==> Bytes(Sint8Korr(s), 8) == s[..8]
  {
    PowersOf256();
    SignedLoads(s);
    if |s| >= 2 {
      SignedResidues(Value(s[..2]));
      StoreSigned(s, 2, Sint2Korr(s));
    }
    if |s| >= 3 {
      SignedResidues(Value(s[..3]));
      StoreSigned(s, 3, Sint3Korr(s));
    }
    if |s| >= 4 {
      SignedResidues(Value(s[..4]));
      StoreSigned(s, 4, Sint4Korr(s));
    }
    if |s| >= 8 {
      SignedResidues(Value(s[..8]));
      StoreSigned(s, 8, Sint8Korr(s));
    }
  }

  /** Reading the reversed bytes in network order gives the 32-bit value back. */
  lemma NetworkOrder(a: int)
    ensures Int4Net(Reversed(Bytes(a, 4))) == S32(a)
  {
    var s := Bytes(a, 4);
    PowersOf256();
    NetworkValue(s);
    ValueOfBytes(a, 4);
    ModTwice(a);
  }

  lemma NetworkValue(s: seq<Byte>)
    requires |s| == 4
    ensures Int4Net(Reversed(s)) == S32(Value(s))
  {
    Int4NetIs(Reversed(s));
    Value4(s);
    assert s[..4] == s;
  }

  lemma ModTwice(a: int)
    ensures S32(a % 0x1_0000_0000) == S32(a)
  {
  }
}
