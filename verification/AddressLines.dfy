/** The lines the agent hashes: 17 characters of MAC address and a newline, always past the exact range. */
module AddressLines {
  import opened Rounding
  import opened HashCode

  const TWO53 := 0x20_0000_0000_0000
  const TWO54 := 0x40_0000_0000_0000

  ghost predicate AddressLine(line: Text) {
    SevenBit(line) && |line| == 18 && line[17] == '\n' as int
  }

  // ----- the double nearest to an integer below 2 to the 55th

  /** The multiple of 4 nearest to c, below 8, that of 8 on a tie. */
  function Snap(c: nat): nat {
    if c <= 2 then 0 else if c <= 5 then 4 else 8
  }

  /** Above 2 to the 53rd doubles are 2 apart, above the 54th 4 apart; ties go to the even neighbour. */
  function Nearby(n: nat): nat {
    if n < TWO53 then n
    else if n < TWO54 then
      if n % 4 == 1 then n - 1 else if n % 4 == 3 then n + 1 else n
    else n - n % 8 + Snap(n % 8)
  }

  lemma FloorOf(x: real, m: int, rest: real)
    requires x == m as real + rest && 0.0 <= rest < 1.0
    ensures x.Floor == m
  {
  }

  lemma EvenOf(x: real, m: int, rest: real)
    requires x == m as real + rest && 0.0 <= rest < 1.0
    ensures NearestEven(x) == if rest < 0.5 || (rest == 0.5 && m % 2 == 0) then m else m + 1
  {
    FloorOf(x, m, rest);
  }

  lemma HalfRounds(n: nat, m: nat, c: nat)
    requires c < 4 && n == 4 * m + c
    ensures NearestEven(n as real / 2.0) * 2 == if c == 1 then n - 1 else if c == 3 then n + 1 else n
  {
    EvenOf(n as real / 2.0, 2 * m + c / 2, (c % 2) as real / 2.0);
  }

  lemma QuarterRounds(n: nat, m: nat, c: nat)
    requires c < 8 && n == 8 * m + c
    ensures NearestEven(n as real / 4.0) * 4 == 8 * m + Snap(c)
  {
    EvenOf(n as real / 4.0, 2 * m + c / 4, (c % 4) as real / 4.0);
  }

  lemma UlpOf(n: nat)
    ensures TWO53 <= n < TWO54 ==> Ulp(n) == 2
    ensures TWO54 <= n < 2 * TWO54 ==> Ulp(n) == 4
  {
    assert n < TWO54 ==> Ulp(n / 2) == 1;
    assert TWO54 <= n < 2 * TWO54 ==> Ulp(n / 2 / 2) == 1 && Ulp(n / 2) == 2;
  }

  lemma RoundWith(n: nat, u: nat, x: real)
    requires u > 0 && Ulp(n) == u && x == n as real / u as real
    ensures RoundDouble(n) == NearestEven(x) * u
  {
  }

  lemma RoundsNearby(n: nat)
    requires n < 2 * TWO54
    ensures RoundDouble(n) == Nearby(n)
  {
    UlpOf(n);
    if n < TWO53 {
      RoundDoubleExact(n);
    } else if n < TWO54 {
      RoundWith(n, 2, n as real / 2.0);
      HalfRounds(n, n / 4, n % 4);
    } else {
      RoundWith(n, 4, n as real / 4.0);
      QuarterRounds(n, n / 8, n % 8);
    }
  }

  lemma NearbyIsNear(n: nat)
    ensures -2 <= Nearby(n) - n <= 2
    ensures n < TWO54 ==> -1 <= Nearby(n) - n <= 1
  {
  }

  /** The id of a line whose address has polynomial h. */
  function LineId(h: nat): nat {
    Nearby(Nearby(7 * h) + 10)
  }

  lemma AddressFits(front: Text)
    requires SevenBit(front) && |front| == 17
    ensures 0 <= Poly(front) && 7 * Poly(front) + 12 < 2 * TWO54
  {
    PolyBound(front);
    BoundClosedForm(17);
    SeventeenthPower();
  }

  lemma HashOfLine(line: Text)
    requires AddressLine(line)
    ensures var h := Poly(line[..17]);
            0 <= h && 7 * h + 12 < 2 * TWO54 && Hash(line) == LineId(h) && Poly(line) == 7 * h + 10
  {
    var front := line[..17];
    HashIsExact(front);
    AddressFits(front);
    RoundsNearby(7 * Poly(front));
    RoundsNearby(RoundDouble(7 * Poly(front)) + 10);
  }

  // ----- when two lines share an id

  lemma NearbyLarge(n: nat, m: nat, c: nat)
    requires c < 8 && n == 8 * m + c && n >= TWO54
    ensures Nearby(n) == 8 * m + Snap(c)
  {
  }

  lemma LargeLineIdAt(h: nat, m: nat, c: nat)
    requires c < 8 && 7 * h == 8 * m + c && 7 * h >= TWO54
    ensures LineId(h) == 8 * (m + if c <= 2 then 1 else 2)
  {
    NearbyLarge(7 * h, m, c);
    if Snap(c) == 0 {
      NearbyLarge(8 * m + 10, m + 1, 2);
    } else if Snap(c) == 4 {
      NearbyLarge(8 * m + 14, m + 1, 6);
    } else {
      NearbyLarge(8 * m + 18, m + 2, 2);
    }
  }

  /** Past the 54th power the id depends on the residue of the address value modulo 8 as follows. */
  lemma LargeLineId(h: nat, q: nat, r: nat)
    requires r < 8 && h == 8 * q + r && 7 * h >= TWO54
    ensures LineId(h) == 8 * (7 * q + if r <= 5 then r + 1 else r)
  {
    match r
    case 0 => LargeLineIdAt(h, 7 * q, 0);
    case 1 => LargeLineIdAt(h, 7 * q, 7);
    case 2 => LargeLineIdAt(h, 7 * q + 1, 6);
    case 3 => LargeLineIdAt(h, 7 * q + 2, 5);
    case 4 => LargeLineIdAt(h, 7 * q + 3, 4);
    case 5 => LargeLineIdAt(h, 7 * q + 4, 3);
    case 6 => LargeLineIdAt(h, 7 * q + 5, 2);
    case _ => LargeLineIdAt(h, 7 * q + 6, 1);
  }

  lemma SmallLineId(h: nat)
    requires 7 * h + 10 < TWO54
    ensures 7 * h + 9 <= LineId(h) <= 7 * h + 11
    ensures 7 * h >= TWO53 ==> (LineId(h) == 7 * h + 10 <==> h % 2 == 0)
  {
    NearbyIsNear(7 * h);
    if 7 * h >= TWO53 {
      MiddleIsEven(7 * h, 7 * h / 4, 7 * h % 4);
      EvenIsExact(Nearby(7 * h) + 10);
      EvenMultiple(h, h / 2, h % 2);
    } else {
      NearbyIsNear(7 * h + 10);
    }
  }

  lemma ModTwo(n: int, q: int, r: int)
    requires n == 2 * q + r && 0 <= r < 2
    ensures n % 2 == r
  {
  }

  lemma ModFour(n: int, q: int, r: int)
    requires n == 4 * q + r && 0 <= r < 4
    ensures n % 4 == r
  {
  }

  lemma MiddleIsEven(n: nat, m: nat, c: nat)
    requires TWO53 <= n < TWO54 && n == 4 * m + c && c < 4
    ensures (Nearby(n) + 10) % 2 == 0
    ensures Nearby(n) == n <==> n % 2 == 0
  {
    ModFour(n, m, c);
    ModTwo(n, 2 * m + c / 2, c % 2);
    ModTwo(Nearby(n) + 10, 2 * m + (if c <= 1 then 5 else if c == 2 then 6 else 7), 0);
  }

  lemma EvenIsExact(n: nat)
    requires n <= TWO54 && n % 2 == 0
    ensures Nearby(n) == n
  {
  }

  lemma EvenMultiple(h: nat, q: nat, r: nat)
    requires h == 2 * q + r && r < 2
    ensures 7 * h % 2 == r
  {
    ModTwo(7 * h, 7 * q + 3 * r, r);
  }

  /** The three lines whose sum crosses the 54th power or lies next to one. */
  lemma LinesAtBoundary()
    ensures LineId(0x9_2492_4924_9249) == 0x40_0000_0000_0008 && LineId(0x9_2492_4924_9248) == 0x40_0000_0000_0000
    ensures LineId(0x9_2492_4924_9247) < 0x40_0000_0000_0000 && LineId(0x9_2492_4924_924A) == 0x40_0000_0000_0010
  {
  }

  lemma TwoApart(h: nat, g: nat)
    requires h + 2 <= g
    ensures LineId(h) < LineId(g)
  {
    NearbyIsNear(7 * h);
    NearbyIsNear(7 * g);
    NearbyIsNear(Nearby(7 * h) + 10);
    NearbyIsNear(Nearby(7 * g) + 10);
  }

  lemma OneApartLarge(h: nat, q: nat, r: nat)
    requires r < 8 && h == 8 * q + r && 7 * h >= TWO54
    ensures LineId(h) == LineId(h + 1) <==> r == 5
  {
    LargeLineId(h, q, r);
    if r < 7 {
      LargeLineId(h + 1, q, r + 1);
    } else {
      LargeLineId(h + 1, q + 1, 0);
    }
  }

  lemma OneApart(h: nat)
    ensures LineId(h) == LineId(h + 1) <==> h % 8 == 5 && 7 * h >= TWO54
  {
    if 7 * h >= TWO54 {
      OneApartLarge(h, h / 8, h % 8);
    } else if 7 * h + 17 < TWO54 {
      SmallLineId(h);
      SmallLineId(h + 1);
    } else {
      LinesAtBoundary();
    }
  }

  /** Two address lines have one id exactly when their addresses have one polynomial, or when these are neighbours
      that the two roundings merge. */
  lemma LineIdsEqualIff(a: Text, b: Text)
    requires AddressLine(a) && AddressLine(b) && Poly(a[..17]) <= Poly(b[..17])
    ensures var h, g := Poly(a[..17]), Poly(b[..17]);
            Hash(a) == Hash(b) <==> h == g || (g == h + 1 && h % 8 == 5 && 7 * h >= TWO54)
  {
    var h, g := Poly(a[..17]), Poly(b[..17]);
    HashOfLine(a);
    HashOfLine(b);
    if g == h + 1 {
      OneApart(h);
    } else if g > h + 1 {
      TwoApart(h, g);
    }
  }

  /** The id of an address is past the exact range, and often not the polynomial the loop spells out. */
  lemma AddressLineIsRounded(line: Text)
    requires AddressLine(line) && line[0] >= '0' as int
    ensures Poly(line) > MAX_EXACT_INTEGER
    ensures var h := Poly(line[..17]);
            Hash(line) == Poly(line) <==> h % 2 == 0 && (7 * h + 10 < TWO54 || h % 8 == 2)
  {
    HashOfLine(line);
    FirstCharacterDominates(line);
    RoundedIff(Poly(line[..17]));
  }

  lemma FirstCharacterDominates(line: Text)
    requires AddressLine(line) && line[0] >= '0' as int
    ensures 7 * Poly(line[..17]) >= TWO53
  {
    FirstDigit(line[..17]);
    assert Pow7(17) == 7 * Pow7(16);
    SeventeenthPower();
    AtLeast(line[0], Pow7(16));
  }

  lemma AtLeast(c: int, p: nat)
    requires c >= 48 && 7 * p == 232630513987207
    ensures 7 * (c * p) >= TWO53
  {
    assert c * p >= 48 * p;
  }

  lemma {:induction false} FirstDigit(s: Text)
    requires SevenBit(s) && s != []
    ensures Poly(s) >= s[0] * Pow7(|s| - 1)
  {
    if |s| == 1 {
      assert s[..0] == [];
    } else {
      var n := |s| - 1;
      FirstDigit(s[..n]);
      assert s[0] * Pow7(n) == 7 * (s[0] * Pow7(n - 1));
    }
  }

  lemma RoundedIffLarge(h: nat, q: nat, r: nat)
    requires r < 8 && h == 8 * q + r && 7 * h >= TWO54
    ensures LineId(h) == 7 * h + 10 <==> r == 2
  {
    LargeLineId(h, q, r);
  }

  lemma EvenResidue(h: nat)
    requires h % 8 == 2
    ensures h % 2 == 0
  {
  }

  lemma RoundedIff(h: nat)
    requires 7 * h >= TWO53
    ensures LineId(h) == 7 * h + 10 <==> h % 2 == 0 && (7 * h + 10 < TWO54 || h % 8 == 2)
  {
    if 7 * h >= TWO54 {
      RoundedIffLarge(h, h / 8, h % 8);
      if h % 8 == 2 {
        EvenResidue(h);
      }
    } else if 7 * h + 10 < TWO54 {
      SmallLineId(h);
    } else {
      LinesAtBoundary();
    }
  }

  // ----- which alphabets are safe

  lemma AddressIdsEqualIff(a: Text, b: Text)
    requires SevenBit(a) && SevenBit(b) && |a| == |b| == 17 && Poly(a) <= Poly(b)
    ensures Hash(a + ['\n' as int]) == Hash(b + ['\n' as int]) <==>
            Poly(a) == Poly(b) || (Poly(b) == Poly(a) + 1 && Poly(a) % 8 == 5 && 7 * Poly(a) >= TWO54)
  {
    var newline := ['\n' as int];
    assert (a + newline)[..17] == a && (b + newline)[..17] == b;
    LineIdsEqualIff(a + newline, b + newline);
  }

  ghost predicate LinesSeparate(lo: int, hi: int) {
    forall a: Text, b: Text :: |a| == |b| == 17 && Over(a, lo, hi) && Over(b, lo, hi) && a != b ==>
                                 Hash(a + ['\n' as int]) != Hash(b + ['\n' as int])
  }

  lemma {:induction false} PolyAtMost(s: Text, hi: int)
    requires Over(s, 0, hi)
    ensures 6 * Poly(s) <= hi * (Pow7(|s|) - 1)
  {
    if s == [] {
    } else {
      var n := |s| - 1;
      PolyAtMost(s[..n], hi);
      assert hi * (Pow7(n + 1) - 1) == 7 * (hi * (Pow7(n) - 1)) + 6 * hi;
    }
  }

  lemma SafeAlphabet(a: Text, b: Text, lo: int, hi: int)
    requires 0 <= lo <= hi <= 66 && hi - lo < 7 && |a| == |b| == 17 && Over(a, lo, hi) && Over(b, lo, hi)
    requires Poly(a) <= Poly(b) && Hash(a + ['\n' as int]) == Hash(b + ['\n' as int])
    ensures a == b
  {
    AddressIdsEqualIff(a, b);
    PolyAtMost(a, hi);
    SeventeenthPower();
    assert hi * (Pow7(17) - 1) <= 66 * (Pow7(17) - 1);
    PolyInjective(a, b, lo, hi);
  }

  /** m pairs of the code hi, the first code of each of the last j pairs one lower. */
  function Pairs(hi: int, m: nat, j: nat): (s: Text)
    ensures |s| == 2 * m
  {
    if m == 0 then []
    else Pairs(hi, m - 1, if j > 0 then j - 1 else 0) + [if j > 0 then hi - 1 else hi, hi]
  }

  lemma {:induction false} PairsOver(hi: int, m: nat, j: nat)
    ensures Over(Pairs(hi, m, j), hi - 1, hi)
  {
    if m == 0 {
    } else {
      PairsOver(hi, m - 1, if j > 0 then j - 1 else 0);
    }
  }

  function LeastPairs(m: nat): nat {
    if m == 0 then 67 else 49 * LeastPairs(m - 1) + 529
  }

  lemma PolyTwoMore(s: Text, c: int, d: int)
    ensures Poly(s + [c, d]) == 49 * Poly(s) + 7 * c + d
  {
    assert (s + [c, d])[..|s| + 1] == s + [c];
    assert (s + [c])[..|s|] == s;
  }

  lemma {:induction false} PolyOfPairs(hi: int, m: nat, j: nat) returns (q: int)
    requires j <= m && hi >= 67
    ensures Poly([hi] + Pairs(hi, m, j)) == hi + j + 8 * q
    ensures Poly([hi] + Pairs(hi, m, j)) >= LeastPairs(m)
  {
    if m == 0 {
      assert [hi] + [] == [hi] && [hi][..0] == [];
      assert Poly([hi]) == hi;
      q := 0;
    } else {
      var i, c := if j > 0 then j - 1 else 0, if j > 0 then hi - 1 else hi;
      var front := [hi] + Pairs(hi, m - 1, i);
      var before := PolyOfPairs(hi, m - 1, i);
      assert [hi] + Pairs(hi, m, j) == front + [c, hi];
      PolyTwoMore(front, c, hi);
      q := before + 6 * Poly(front) + hi - if j > 0 then 1 else 0;
    }
  }

  lemma PolyOneMore(s: Text, c: int)
    ensures Poly(s + [c]) == 7 * Poly(s) + c
  {
    assert (s + [c])[..|s|] == s;
  }

  lemma ResidueBelow(x: int)
    requires (x - 6) % 8 == 0
    ensures (x - 1) % 8 == 5
  {
  }

  lemma ResidueOfSum(x: int, hi: int, j: int, q: int)
    requires j == (6 - hi) % 8 && x == hi + j + 8 * q
    ensures (x - 6) % 8 == 0
  {
    assert 6 - hi == 8 * ((6 - hi) / 8) + j;
    assert x - 6 == 8 * (q - (6 - hi) / 8);
  }

  lemma LastLowered(front: Text, c: int, a: Text, b: Text)
    requires SevenBit(front) && |front| == 16 && 0 < c < 128 && a == front + [c - 1] && b == front + [c]
    requires (Poly(b) - 6) % 8 == 0 && Poly(b) >= 2592860937149067
    ensures Hash(a + ['\n' as int]) == Hash(b + ['\n' as int])
  {
    PolyOneMore(front, c - 1);
    PolyOneMore(front, c);
    ResidueBelow(Poly(b));
    AddressIdsEqualIff(a, b);
  }

  lemma EightPairs(hi: int) returns (b: Text)
    requires 67 <= hi < 128
    ensures |b| == 17 && Over(b, hi - 1, hi) && b[16] == hi
    ensures (Poly(b) - 6) % 8 == 0 && Poly(b) >= 2592860937149067
  {
    var j := (6 - hi) % 8;
    var pairs := Pairs(hi, 8, j);
    b := [hi] + pairs;
    PairsOver(hi, 8, j);
    var q := PolyOfPairs(hi, 8, j);
    assert LeastPairs(4) == 449774567 && LeastPairs(8) == 2592860937149067;
    assert b[16] == pairs[15] == hi;
    ResidueOfSum(Poly(b), hi, j, q);
  }

  /** Two addresses over any two adjacent codes from 66 and 67 up whose lines have one id. */
  lemma MergedNeighbours(hi: int) returns (a: Text, b: Text)
    requires 67 <= hi < 128
    ensures |a| == |b| == 17 && Over(a, hi - 1, hi) && Over(b, hi - 1, hi) && a != b
    ensures Hash(a + ['\n' as int]) == Hash(b + ['\n' as int])
  {
    b := EightPairs(hi);
    a := b[..16] + [hi - 1];
    assert b == b[..16] + [hi];
    LastLowered(b[..16], hi, a, b);
    assert a[16] != b[16];
  }

  /** Ids tell the addresses over a range of codes apart exactly when the range is a single code, or has at most 7
      codes and stays below the rounding that merges neighbours. Hexadecimal digits do neither. */
  lemma LinesSeparateIff(lo: int, hi: int)
    requires 0 <= lo <= hi < 128
    ensures LinesSeparate(lo, hi) <==> lo == hi || (hi - lo < 7 && hi <= 66)
  {
    var newline := ['\n' as int];
    if lo == hi {
    } else if hi - lo >= 7 {
      SeparatesIff(17, lo, hi);
      var a: Text, b: Text :| |a| == |b| == 17 && Over(a, lo, hi) && Over(b, lo, hi) && Hash(a) == Hash(b) && a != b;
      CollisionsExtend(a, b, newline);
    } else if hi >= 67 {
      var a, b := MergedNeighbours(hi);
    } else {
      forall a: Text, b: Text | |a| == |b| == 17 && Over(a, lo, hi) && Over(b, lo, hi) &&
                                Hash(a + newline) == Hash(b + newline)
        ensures a == b
      {
        if Poly(a) <= Poly(b) {
          SafeAlphabet(a, b, lo, hi);
        } else {
          SafeAlphabet(b, a, lo, hi);
        }
      }
    }
  }

  // ----- colliding MAC addresses

  /** Every two MAC addresses that start 0c and 72, both unicast, and continue alike have one id. */
  lemma MacAddressesCollide(tail: Text)
    ensures Codes("0c") + tail != Codes("72") + tail
    ensures Hash(Codes("0c") + tail) == Hash(Codes("72") + tail)
  {
    assert Codes("0c") == [48, 99] && Codes("72") == [55, 50];
    PairHash(48, 99);
    PairHash(55, 50);
    CollisionsExtend(Codes("0c"), Codes("72"), tail);
    assert (Codes("0c") + tail)[0] != (Codes("72") + tail)[0];
  }

  lemma PolyOfFive(s: Text)
    requires |s| == 5
    ensures Poly(s) == 2401 * s[0] + 343 * s[1] + 49 * s[2] + 7 * s[3] + s[4]
  {
    assert s == s[..3] + [s[3], s[4]] && s[..3] == s[..1] + [s[1], s[2]];
    PolyTwoMore(s[..3], s[3], s[4]);
    PolyTwoMore(s[..1], s[1], s[2]);
    assert s[..1] == [s[0]] && [s[0]][..0] == [] && Poly([s[0]]) == s[0];
  }

  lemma PolyOfSix(s: Text)
    requires |s| == 6
    ensures Poly(s) == 16807 * s[0] + 2401 * s[1] + 343 * s[2] + 49 * s[3] + 7 * s[4] + s[5]
  {
    PolyOfFive(s[..5]);
  }

  /** The value of an address in three parts. */
  lemma PolyOfAddress(a: Text, b: Text, c: Text)
    requires |a| == |b| == 6 && |c| == 5
    ensures Poly(a + b + c) == (Poly(a) * 117649 + Poly(b)) * 16807 + Poly(c)
  {
    PolyConcat(a + b, c);
    PolyConcat(a, b);
    assert Pow7(5) == 16807 && Pow7(6) == 117649;
  }

  lemma NeighbourValue(last: int)
    requires 0 <= last < 128
    ensures Poly(Codes("fa:16:") + Codes("3e:1c:") + Codes("00:0") + [last]) == 3895237868179924 + last
  {
    var a, b, c := Codes("fa:16:"), Codes("3e:1c:"), Codes("00:0") + [last];
    assert a == [102, 97, 58, 49, 54, 58] && b == [51, 101, 58, 49, 99, 58] && c == [48, 48, 58, 48, last];
    PolyOfSix(a);
    PolyOfSix(b);
    PolyOfFive(c);
    PolyOfAddress(a, b, c);
    assert a + b + Codes("00:0") + [last] == a + b + c;
  }

  function NeighbourLine(last: char): (line: Text)
    requires last < 128 as char
    ensures AddressLine(line)
  {
    Codes("fa:16:") + Codes("3e:1c:") + Codes("00:0") + [last as int] + ['\n' as int]
  }

  /** Consecutive addresses of one vendor, fa:16:3e:1c:00:01 and fa:16:3e:1c:00:02: the address values differ by one
      and rounding merges them. */
  lemma NeighboursCollide()
    ensures NeighbourLine('1') != NeighbourLine('2')
    ensures Hash(NeighbourLine('1')) == Hash(NeighbourLine('2'))
  {
    NeighbourValue('1' as int);
    NeighbourValue('2' as int);
    var a, b := NeighbourLine('1'), NeighbourLine('2');
    assert a[16] != b[16];
    assert a[..17] == Codes("fa:16:") + Codes("3e:1c:") + Codes("00:0") + ['1' as int];
    assert b[..17] == Codes("fa:16:") + Codes("3e:1c:") + Codes("00:0") + ['2' as int];
    LineIdsEqualIff(a, b);
  }
}
