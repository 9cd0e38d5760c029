/** `skip_trailing_space`: a scan that reads aligned words where it can, against the plain byte loop. */
module SkipTrailingSpace {
  import opened Bits
  import opened ByteOrder

  const SPACE := 0x20
  const SIZEOF_INT := 4
  const SPACE_INT := 0x20202020
  const ADDRESS_SPACE := 0x1_0000_0000_0000_0000

  /** What is left of the bytes after the trailing spaces are cut. */
  function Trimmed(s: seq<Byte>): (n: nat)
    ensures n <= |s|
    ensures forall i :: n <= i < |s| ==> s[i] == SPACE
    ensures n > 0 ==> s[n - 1] != SPACE
  {
    if s != [] && s[|s| - 1] == SPACE then Trimmed(s[..|s| - 1]) else |s|
  }

  /** The promise on `Trimmed` fixes it. */
  lemma TrimmedIs(s: seq<Byte>, n: nat)
    requires n <= |s| && forall i :: n <= i < |s| ==> s[i] == SPACE
    requires n > 0 ==> s[n - 1] != SPACE
    ensures Trimmed(s) == n
  {
  }

  /** The little-endian word at the address four below `end`; the bytes lie at addresses ptr, ptr + 1, ...
      An unaligned address or one outside the bytes is not readable. */
  function WordBefore(buf: seq<Byte>, ptr: nat, end: nat): nat
    requires end % SIZEOF_INT == 0 && ptr + SIZEOF_INT <= end <= ptr + |buf|
  {
    Value(buf[end - ptr - SIZEOF_INT..end - ptr])
  }

  lemma AllSpaces(buf: seq<Byte>, ptr: nat, end: nat)
    requires end % SIZEOF_INT == 0 && ptr + SIZEOF_INT <= end <= ptr + |buf|
    ensures WordBefore(buf, ptr, end) == SPACE_INT <==>
            forall i :: end - ptr - SIZEOF_INT <= i < end - ptr ==> buf[i] == SPACE
  {
    var word := buf[end - ptr - SIZEOF_INT..end - ptr];
    Value4(word);
    assert word[..4] == word;
    if WordBefore(buf, ptr, end) == SPACE_INT {
      assert word[0] == SPACE && word[1] == SPACE && word[2] == SPACE && word[3] == SPACE;
      forall i | end - ptr - SIZEOF_INT <= i < end - ptr ensures buf[i] == SPACE {
        assert buf[i] == word[i - (end - ptr - SIZEOF_INT)];
      }
    }
  }

  predicate SpacesFrom(s: seq<Byte>, n: int) {
    0 <= n <= |s| && forall i :: n <= i < |s| ==> s[i] == SPACE
  }

  /** The byte loop alone. */
  method PlainSkip(ptr: nat, buf: array<Byte>) returns (end: nat)
    ensures end == ptr + Trimmed(buf[..])
  {
    end := SkipBytes(ptr, buf, ptr + buf.Length, ptr);
    TrimmedIs(buf[..], end - ptr);
  }

  /** `while (end > stop && end[-1] == 0x20) end--;` */
  method SkipBytes(ptr: nat, buf: array<Byte>, from: nat, stop: nat) returns (end: nat)
    requires ptr <= stop <= from <= ptr + buf.Length && SpacesFrom(buf[..], from - ptr)
    ensures stop <= end <= from && SpacesFrom(buf[..], end - ptr)
    ensures end == stop || buf[end - 1 - ptr] != SPACE
  {
    end := from;
    while end > stop && buf[end - 1 - ptr] == SPACE
      invariant stop <= end <= from && SpacesFrom(buf[..], end - ptr)
    {
      end := end - 1;
    }
  }

  lemma WordBounds(ptr: nat, end: nat)
    requires ptr + 20 < end < ADDRESS_SPACE
    ensures var endWords, startWords := end / SIZEOF_INT * SIZEOF_INT,
                                        (ptr + SIZEOF_INT - 1) % ADDRESS_SPACE / SIZEOF_INT * SIZEOF_INT;
            && endWords % SIZEOF_INT == 0 && ptr < endWords <= end
            && startWords % SIZEOF_INT == 0 && ptr <= startWords < endWords
  {
  }

  /** The three loops, over bytes that fit the 64-bit address space. */
  method SkipTrailing(ptr: nat, buf: array<Byte>) returns (end: nat)
    requires ptr + buf.Length < ADDRESS_SPACE
    ensures end == ptr + Trimmed(buf[..])
  {
    end := ptr + buf.Length;
    if buf.Length > 20 {
      var endWords := end / SIZEOF_INT * SIZEOF_INT;
      var startWords := (ptr + SIZEOF_INT - 1) % ADDRESS_SPACE / SIZEOF_INT * SIZEOF_INT;
      WordBounds(ptr, end);
      if endWords > ptr {
        end := SkipBytes(ptr, buf, end, endWords);
        if buf[end - 1 - ptr] == SPACE && startWords < endWords {
          end := SkipWords(ptr, buf, end, startWords);
        }
      }
    }
    end := SkipBytes(ptr, buf, end, ptr);
    TrimmedIs(buf[..], end - ptr);
  }

  /** The word loop; the precondition of `WordBefore` is the safety of each read. */
  method SkipWords(ptr: nat, buf: array<Byte>, from: nat, startWords: nat) returns (end: nat)
    requires ptr <= startWords <= from <= ptr + buf.Length && SpacesFrom(buf[..], from - ptr)
    requires startWords % SIZEOF_INT == 0 && from % SIZEOF_INT == 0
    ensures startWords <= end <= from && SpacesFrom(buf[..], end - ptr)
  {
    end := from;
    while end > startWords && WordBefore(buf[..], ptr, end) == SPACE_INT
      invariant startWords <= end <= from && end % SIZEOF_INT == 0 && SpacesFrom(buf[..], end - ptr)
    {
      AllSpaces(buf[..], ptr, end);
      end := end - SIZEOF_INT;
    }
  }
}
