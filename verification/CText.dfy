/** NUL-terminated text in buffers, and decimal numbers as C prints and reads them. */
module CText {
  predicate IsCString(s: string) {
    forall i :: 0 <= i < |s| ==> s[i] != '\0'
  }

  function UpToNul(s: string): (r: string)
    ensures |r| <= |s| && r == s[..|r|] && IsCString(r)
    ensures |r| < |s| ==> s[|r|] == '\0'
  {
    if s == [] || s[0] == '\0' then [] else [s[0]] + UpToNul(s[1..])
  }

  /** The text a buffer holds. */
  ghost function Text(buf: array<char>): string
    reads buf
  {
    UpToNul(buf[..])
  }

  lemma {:induction false} UpToNulIs(s: string, n: nat)
    requires n <= |s| && IsCString(s[..n]) && (n < |s| ==> s[n] == '\0')
    ensures UpToNul(s) == s[..n]
  {
    if n == 0 {
    } else {
      assert s[0] == s[..n][0] && s[1..][..n - 1] == s[..n][1..];
      UpToNulIs(s[1..], n - 1);
    }
  }

  /** `strcat`: the caller leaves room for the text and its terminator. */
  method Strcat(dest: array<char>, src: string)
    requires IsCString(src) && |Text(dest)| + |src| < dest.Length
    modifies dest
    ensures Text(dest) == old(Text(dest)) + src
  {
    ghost var before, s0 := Text(dest), dest[..];
    assert forall j :: 0 <= j < |before| ==> s0[j] == before[j] != '\0';
    var start := 0;
    while dest[start] != '\0'
      invariant 0 <= start <= |before|
      decreases |before| - start
    {
      start := start + 1;
    }
    assert start == |before|;
    var i := 0;
    while i < |src|
      invariant 0 <= i <= |src|
      invariant dest[..start + i] == before + src[..i]
    {
      dest[start + i] := src[i];
      assert dest[..start + i] == before + src[..i];
      i := i + 1;
    }
    dest[start + i] := '\0';
    assert dest[..start + i] == before + src;
    UpToNulIs(dest[..], start + i);
  }

  // ----- decimal numbers

  predicate IsDigit(c: char) { '0' <= c <= '9' }

  function DigitValue(c: char): nat
    requires IsDigit(c)
  {
    c as int - '0' as int
  }

  /** `sprintf("%d")` of a number that fits an int. */
  function Decimal(n: nat): (s: string)
    ensures s != [] && forall i :: 0 <= i < |s| ==> IsDigit(s[i])
  {
    (if n < 10 then [] else Decimal(n / 10)) + [('0' as int + n % 10) as char]
  }

  /** The digits at the front of s, read onto a value already accumulated. */
  function ReadDigits(s: string, value: nat): nat {
    if s != [] && IsDigit(s[0]) then ReadDigits(s[1..], 10 * value + DigitValue(s[0])) else value
  }

  predicate IsSpace(c: char) { c == ' ' || '\t' <= c <= '\r' }

  /** `atoi` while the value fits an int: white space, a sign, digits. */
  function Atoi(s: string): int {
    if s == [] then 0
    else if IsSpace(s[0]) then Atoi(s[1..])
    else if s[0] == '-' then 0 - ReadDigits(s[1..], 0)
    else if s[0] == '+' then ReadDigits(s[1..], 0)
    else ReadDigits(s, 0)
  }

  lemma {:induction false} ReadDigitsThrough(a: string, b: string, value: nat)
    requires forall i :: 0 <= i < |a| ==> IsDigit(a[i])
    ensures ReadDigits(a + b, value) == ReadDigits(b, ReadDigits(a, value))
  {
    if a == [] {
      assert a + b == b;
    } else {
      assert (a + b)[1..] == a[1..] + b;
      ReadDigitsThrough(a[1..], b, 10 * value + DigitValue(a[0]));
    }
  }

  /** Reading a printed number gives it back, whatever other than a digit follows. */
  lemma {:induction false} ReadDecimal(n: nat, rest: string)
    requires rest == [] || !IsDigit(rest[0])
    ensures ReadDigits(Decimal(n) + rest, 0) == n
  {
    var front, last := if n < 10 then [] else Decimal(n / 10), [('0' as int + n % 10) as char];
    ReadDigitsThrough(Decimal(n), rest, 0);
    ReadDigitsThrough(front, last, 0);
    if n >= 10 {
      ReadDecimal(n / 10, []);
      assert front + [] == front;
    }
    assert last[1..] == [];
  }

  lemma AtoiDecimal(n: nat)
    ensures Atoi(Decimal(n)) == n
  {
    ReadDecimal(n, []);
    assert Decimal(n) + [] == Decimal(n);
    assert IsDigit(Decimal(n)[0]);
  }

  lemma {:induction false} SpacesAreSkipped(spaces: string, s: string)
    requires forall i :: 0 <= i < |spaces| ==> spaces[i] == ' ' || '\t' <= spaces[i] <= '\r'
    ensures Atoi(spaces + s) == Atoi(s)
  {
    if spaces == [] {
      assert spaces + s == s;
    } else {
      SpacesAreSkipped(spaces[1..], s);
      assert (spaces + s)[1..] == spaces[1..] + s;
    }
  }

  /** White space in front, either sign, and whatever other than a digit follows. */
  lemma AtoiSigned(spaces: string, n: nat, rest: string)
    requires rest == [] || !IsDigit(rest[0])
    requires forall i :: 0 <= i < |spaces| ==> spaces[i] == ' ' || '\t' <= spaces[i] <= '\r'
    ensures Atoi(spaces + (Decimal(n) + rest)) == n
    ensures Atoi(spaces + ("+" + (Decimal(n) + rest))) == n
    ensures Atoi(spaces + ("-" + (Decimal(n) + rest))) == 0 - n
  {
    var number := Decimal(n) + rest;
    ReadDecimal(n, rest);
    SpacesAreSkipped(spaces, number);
    SpacesAreSkipped(spaces, "+" + number);
    SpacesAreSkipped(spaces, "-" + number);
    SignInFront(number);
  }

  lemma SignInFront(number: string)
    requires number != "" && IsDigit(number[0])
    ensures Atoi(number) == ReadDigits(number, 0)
    ensures Atoi("+" + number) == ReadDigits(number, 0) && Atoi("-" + number) == 0 - ReadDigits(number, 0)
  {
    assert ("+" + number)[1..] == number && ("-" + number)[1..] == number;
  }

  function Pow10(n: nat): (p: nat)
    ensures p > 0
  {
    if n == 0 then 1 else 10 * Pow10(n - 1)
  }

  /** A positive number of k digits lies between two powers of ten. */
  lemma {:induction false} DecimalLength(n: nat)
    ensures n < Pow10(|Decimal(n)|)
    ensures n > 0 ==> Pow10(|Decimal(n)| - 1) <= n
  {
    if n < 10 {
    } else {
      DecimalLength(n / 10);
    }
  }
}
