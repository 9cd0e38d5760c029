/** First occurrences in text, as C++ `find` and C `strstr` report them. */
module TextSearch {
  import opened Wrappers

  predicate OccursAt(s: string, pat: string, i: nat) {
    i + |pat| <= |s| && s[i..i + |pat|] == pat
  }

  ghost predicate Contains(s: string, pat: string) {
    exists i: nat :: OccursAt(s, pat, i)
  }

  ghost predicate FirstAt(s: string, pat: string, i: nat) {
    OccursAt(s, pat, i) && forall j: nat :: j < i ==> !OccursAt(s, pat, j)
  }

  function FindFrom(s: string, pat: string, from: nat): (r: Option<nat>)
    ensures r.Some? ==> from <= r.value && r.value + |pat| <= |s|
    decreases |s| - from
  {
    if from + |pat| > |s| then None
    else if OccursAt(s, pat, from) then Some(from)
    else FindFrom(s, pat, from + 1)
  }

  function Find(s: string, pat: string): (r: Option<nat>)
    ensures r.Some? ==> r.value + |pat| <= |s|
  {
    FindFrom(s, pat, 0)
  }

  lemma {:induction false} FindFromIsFirst(s: string, pat: string, from: nat)
    ensures var r := FindFrom(s, pat, from);
            && (r.Some? ==> OccursAt(s, pat, r.value))
            && forall i: nat :: from <= i && (r.Some? ==> i < r.value) ==> !OccursAt(s, pat, i)
    decreases |s| - from
  {
    if from + |pat| > |s| || OccursAt(s, pat, from) {
    } else {
      FindFromIsFirst(s, pat, from + 1);
    }
  }

  /** The first occurrence is found, and only that. */
  lemma FindIsFirst(s: string, pat: string, i: nat)
    ensures Find(s, pat) == Some(i) <==> FirstAt(s, pat, i)
    ensures Find(s, pat) == None <==> !Contains(s, pat)
  {
    FindFromIsFirst(s, pat, 0);
  }
}
