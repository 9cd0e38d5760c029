/** `split`: C's `strtok` (section 7.24.5.8 of ISO C11) run over a private copy of the text. */
module Tokens {
  import opened Wrappers

  function SkipDelims(s: string, delim: string): (r: string)
    ensures |r| <= |s|
  {
    if s != [] && s[0] in delim then SkipDelims(s[1..], delim) else s
  }

  function TokenLength(s: string, delim: string): (n: nat)
    ensures n <= |s|
    ensures forall i :: 0 <= i < n ==> s[i] !in delim
    ensures n < |s| ==> s[n] in delim
  {
    if s == [] || s[0] in delim then 0 else 1 + TokenLength(s[1..], delim)
  }

  /** The text after a token and the one delimiter that ended it. */
  function AfterToken(s: string, delim: string): (r: string)
    ensures |r| <= |s|
    ensures s != [] ==> |r| < |s|
  {
    var n := TokenLength(s, delim);
    if n < |s| then s[n + 1..] else []
  }

  function Split(s: string, delim: string): (tokens: seq<string>)
    decreases |s|
  {
    var t := SkipDelims(s, delim);
    if t == [] then [] else [t[..TokenLength(t, delim)]] + Split(AfterToken(t, delim), delim)
  }

  /** The state `strtok` keeps between calls: its buffer and where the next search begins, if anywhere.
      The buffer ends with its only NUL that was there before the first call. */
  class StrTok {
    const buf: array<char>
    var saved: Option<nat>

    ghost predicate Valid()
      reads this, buf
    {
      && buf.Length > 0 && buf[buf.Length - 1] == '\0'
      && (saved.Some? ==>
            && saved.value < buf.Length
            && forall i :: saved.value <= i < buf.Length - 1 ==> buf[i] != '\0')
    }

    /** The text still to be searched. */
    ghost function Rest(): string
      requires Valid()
      reads this, buf
    {
      if saved.Some? then buf[saved.value..buf.Length - 1] else []
    }

    constructor (text: string)
      requires '\0' !in text
      ensures Valid() && fresh(buf) && Rest() == text
    {
      var b := new char[|text| + 1](i => if 0 <= i < |text| then text[i] else '\0');
      buf := b;
      saved := Some(0);
      new;
      forall i | 0 <= i < |text| ensures buf[i] != '\0' {
        assert text[i] in text;
      }
    }

    method Next(delim: string) returns (token: Option<string>)
      requires Valid() && '\0' !in delim
      modifies this, buf
      ensures Valid()
      ensures var t := SkipDelims(old(Rest()), delim);
              if t == [] then token == None && Rest() == []
              else token == Some(t[..TokenLength(t, delim)]) && Rest() == AfterToken(t, delim)
    {
      if saved == None {
        return None;
      }
      ghost var text := buf[..buf.Length - 1];
      assert text[saved.value..] == Rest();
      var start := FirstOther(saved.value, delim, text);
      if buf[start] == '\0' {
        saved := None;
        return None;
      }
      var stop := FirstDelim(start, delim, text);
      TokenAt(text, start, stop, delim);
      var piece := Cut(start, stop, text);
      return Some(piece);
    }

    /** Ends the token at `start` and remembers where the next search begins. */
    method Cut(start: nat, stop: nat, ghost text: string) returns (token: string)
      requires buf.Length > 0 && text == buf[..buf.Length - 1] && buf[buf.Length - 1] == '\0'
      requires start <= stop <= |text| && forall i :: start <= i < |text| ==> text[i] != '\0'
      modifies this, buf
      ensures Valid() && token == text[start..stop]
      ensures Rest() == if stop < |text| then text[stop + 1..] else []
    {
      SliceOfFront(buf[..], buf.Length - 1, start, stop);
      token := buf[start..stop];
      if buf[stop] == '\0' {
        saved := None;
      } else {
        EndAt(stop, text);
      }
    }

    /** Puts the NUL behind a token; the next search begins behind it. */
    method EndAt(stop: nat, ghost text: string)
      requires buf.Length > 0 && text == buf[..buf.Length - 1] && buf[buf.Length - 1] == '\0' && stop < |text|
      requires forall i :: stop < i < |text| ==> text[i] != '\0'
      modifies this, buf
      ensures Valid() && Rest() == text[stop + 1..]
    {
      ghost var before := buf[..];
      RestAfterCut(before, buf.Length - 1, stop);
      buf[stop] := '\0';
      saved := Some(stop + 1);
      assert buf[..] == before[stop := '\0'];
      assert forall i :: stop < i < buf.Length - 1 ==> buf[i] == text[i];
    }

    /** The first position at or after `from` that holds no delimiter; the NUL is none. */
    method FirstOther(from: nat, delim: string, ghost text: string) returns (start: nat)
      requires '\0' !in delim && from < buf.Length
      requires text == buf[..buf.Length - 1] && buf[buf.Length - 1] == '\0'
      ensures from <= start < buf.Length && SkipDelims(text[from..], delim) == text[start..]
    {
      start := from;
      while buf[start] in delim
        invariant from <= start < buf.Length
        invariant SkipDelims(text[from..], delim) == SkipDelims(text[start..], delim)
        decreases buf.Length - start
      {
        assert start < |text| && text[start..][1..] == text[start + 1..];
        start := start + 1;
      }
      assert start < |text| ==> text[start..][0] == buf[start];
    }

    /** The first position at or after `from` that holds a delimiter or the NUL. */
    method FirstDelim(from: nat, delim: string, ghost text: string) returns (stop: nat)
      requires from < buf.Length && text == buf[..buf.Length - 1] && buf[buf.Length - 1] == '\0'
      requires forall i :: from <= i < |text| ==> text[i] != '\0'
      ensures from <= stop < buf.Length && TokenLength(text[from..], delim) == stop - from
      ensures stop == |text| <==> buf[stop] == '\0'
    {
      stop := from;
      while buf[stop] != '\0' && buf[stop] !in delim
        invariant from <= stop < buf.Length
        invariant TokenLength(text[from..], delim) == stop - from + TokenLength(text[stop..], delim)
        decreases buf.Length - stop
      {
        assert text[stop..][1..] == text[stop + 1..];
        stop := stop + 1;
      }
    }
  }

  lemma SliceOfFront(s: string, n: nat, from: nat, to: nat)
    requires from <= to <= n <= |s|
    ensures s[..n][from..to] == s[from..to]
  {
  }

  lemma RestAfterCut(s: string, n: nat, stop: nat)
    requires stop < n <= |s|
    ensures s[stop := '\0'][stop + 1..n] == s[..n][stop + 1..]
  {
  }

  lemma TokenAt(text: string, start: nat, stop: nat, delim: string)
    requires start <= stop <= |text| && TokenLength(text[start..], delim) == stop - start
    ensures text[start..][..stop - start] == text[start..stop]
    ensures AfterToken(text[start..], delim) == if stop < |text| then text[stop + 1..] else []
  {
    if stop < |text| {
      assert text[start..][stop - start + 1..] == text[stop + 1..];
    }
  }

  /** `split`: the empty text is answered before anything is copied. */
  method SplitText(str: string, delim: string) returns (res: seq<string>)
    requires '\0' !in str && '\0' !in delim
    ensures res == Split(str, delim)
  {
    res := [];
    if str == "" {
      return;
    }
    var strs := new StrTok(str);
    ghost var rest := str;
    var p := strs.Next(delim);
    while p.Some?
      invariant strs.Valid() && fresh(strs) && fresh(strs.buf)
      invariant Split(str, delim) == res + Split(rest, delim)
      invariant var t := SkipDelims(rest, delim);
                if t == [] then p == None
                else p == Some(t[..TokenLength(t, delim)]) && strs.Rest() == AfterToken(t, delim)
      decreases |rest|
    {
      SplitStep(res, rest, delim);
      res := res + [p.value];
      rest := strs.Rest();
      p := strs.Next(delim);
    }
  }

  lemma SplitStep(res: seq<string>, rest: string, delim: string)
    ensures var t := SkipDelims(rest, delim);
            t != [] ==>
              res + Split(rest, delim) ==
              res + [t[..TokenLength(t, delim)]] + Split(AfterToken(t, delim), delim)
  {
  }

  // ----- what the tokens are

  function Flatten(ss: seq<string>): string {
    if ss == [] then [] else ss[0] + Flatten(ss[1..])
  }

  function Remove(s: string, delim: string): string {
    if s == [] then [] else (if s[0] in delim then [] else [s[0]]) + Remove(s[1..], delim)
  }

  ghost predicate IsToken(token: string, delim: string) {
    token != [] && forall i :: 0 <= i < |token| ==> token[i] !in delim
  }

  lemma {:induction false} SkipDelimsProperty(s: string, delim: string)
    ensures var t := SkipDelims(s, delim); (t != [] ==> t[0] !in delim) && Remove(t, delim) == Remove(s, delim)
  {
    if s == [] || s[0] !in delim {
    } else {
      SkipDelimsProperty(s[1..], delim);
    }
  }

  lemma {:induction false} RemoveToken(s: string, delim: string)
    ensures Remove(s, delim) == s[..TokenLength(s, delim)] + Remove(AfterToken(s, delim), delim)
  {
    var n := TokenLength(s, delim);
    if s == [] || s[0] in delim {
    } else {
      RemoveToken(s[1..], delim);
      assert AfterToken(s[1..], delim) == AfterToken(s, delim);
      assert s[..n] == [s[0]] + s[1..][..n - 1];
    }
  }

  /** Tokens are non-empty and free of delimiters, and together they are the text without its delimiters. */
  lemma {:induction false} SplitIsClean(s: string, delim: string)
    ensures forall i :: 0 <= i < |Split(s, delim)| ==> IsToken(Split(s, delim)[i], delim)
    ensures Flatten(Split(s, delim)) == Remove(s, delim)
    decreases |s|
  {
    var t := SkipDelims(s, delim);
    SkipDelimsProperty(s, delim);
    if t == [] {
    } else {
      RemoveToken(t, delim);
      SplitIsClean(AfterToken(t, delim), delim);
    }
  }

  ghost predicate IsSeparator(s: string, delim: string) {
    forall i :: 0 <= i < |s| ==> s[i] in delim
  }

  /** Tokens with the text before each of them. */
  function Render(gaps: seq<string>, tokens: seq<string>, tail: string): string
    requires |gaps| == |tokens|
  {
    if tokens == [] then tail else gaps[0] + tokens[0] + Render(gaps[1..], tokens[1..], tail)
  }

  lemma {:induction false} SkipGap(gap: string, s: string, delim: string)
    requires IsSeparator(gap, delim)
    ensures SkipDelims(gap + s, delim) == SkipDelims(s, delim)
  {
    if gap == [] {
      assert gap + s == s;
    } else {
      assert (gap + s)[1..] == gap[1..] + s;
      SkipGap(gap[1..], s, delim);
    }
  }

  lemma {:induction false} FindToken(token: string, s: string, delim: string)
    requires IsToken(token, delim) && (s == [] || s[0] in delim)
    ensures TokenLength(token + s, delim) == |token|
  {
    if |token| == 1 {
      assert (token + s)[1..] == s;
    } else {
      assert (token + s)[1..] == token[1..] + s;
      FindToken(token[1..], s, delim);
    }
  }

  lemma SplitSkips(s: string, t: string, delim: string)
    requires SkipDelims(s, delim) == SkipDelims(t, delim)
    ensures Split(s, delim) == Split(t, delim)
  {
  }

  /** The inverse: a list of tokens set apart by non-empty gaps of delimiters, with any delimiters around it,
      splits back into that list. */
  lemma {:induction false} SplitOfRender(gaps: seq<string>, tokens: seq<string>, tail: string, delim: string)
    requires |gaps| == |tokens| && IsSeparator(tail, delim)
    requires forall i :: 0 <= i < |tokens| ==> IsToken(tokens[i], delim) && IsSeparator(gaps[i], delim)
    requires forall i :: 0 < i < |gaps| ==> gaps[i] != []
    ensures Split(Render(gaps, tokens, tail), delim) == tokens
  {
    if tokens == [] {
      SkipGap(tail, [], delim);
      assert tail + [] == tail;
    } else {
      var token, rest := tokens[0], Render(gaps[1..], tokens[1..], tail);
      RenderStarts(gaps[1..], tokens[1..], tail, delim);
      SplitOfRender(gaps[1..], tokens[1..], tail, delim);
      SplitOneMore(gaps[0], token, rest, delim);
    }
  }

  lemma RenderStarts(gaps: seq<string>, tokens: seq<string>, tail: string, delim: string)
    requires |gaps| == |tokens| && IsSeparator(tail, delim)
    requires gaps != [] ==> gaps[0] != [] && IsSeparator(gaps[0], delim)
    ensures var s := Render(gaps, tokens, tail); s == [] || s[0] in delim
  {
    if gaps != [] {
      assert Render(gaps, tokens, tail)[0] == gaps[0][0];
    }
  }

  lemma SplitOneMore(gap: string, token: string, rest: string, delim: string)
    requires IsSeparator(gap, delim) && IsToken(token, delim) && (rest == [] || rest[0] in delim)
    ensures Split(gap + token + rest, delim) == [token] + Split(rest, delim)
  {
    var s := token + rest;
    SkipGap(gap, s, delim);
    assert gap + token + rest == gap + s;
    FindToken(token, rest, delim);
    assert SkipDelims(s, delim) == s && s[..|token|] == token;
    if rest == [] {
      assert AfterToken(s, delim) == [];
    } else {
      assert s[|token| + 1..] == rest[1..];
      SkipGap(rest[..1], rest[1..], delim);
      assert rest == rest[..1] + rest[1..];
      SplitSkips(rest, rest[1..], delim);
    }
  }
}
