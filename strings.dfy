/** The two pieces of string handling the handler relies on: Go's
    strings.Join, which glues the attribute texts together, and a
    first-occurrence search used to read a rendered line back. */
module Strings {
  import opened Wrappers

  /** strings.Join: the parts in order with sep between each adjacent pair;
      joining n >= 1 parts adds exactly n - 1 separators and nothing else. */
  function Join(parts: seq<string>, sep: string): (s: string)
    ensures |parts| == 0 ==> s == ""
    ensures |parts| == 1 ==> s == parts[0]
    ensures |parts| > 0 ==> |s| == TotalLength(parts) + (|parts| - 1) * |sep|
    decreases |parts|
  {
    if |parts| == 0 then ""
    else if |parts| == 1 then parts[0]
    else parts[0] + sep + Join(parts[1..], sep)
  }

  /** Sum of the lengths of the parts. */
  function TotalLength(parts: seq<string>): nat
    decreases |parts|
  {
    if |parts| == 0 then 0 else |parts[0]| + TotalLength(parts[1..])
  }

  /** Order is preserved: cutting the parts anywhere, the join is the join
      of the front, one separator, and the join of the back. */
  lemma {:induction false} JoinSplit(parts: seq<string>, sep: string, k: nat)
    requires 0 < k < |parts|
    ensures Join(parts, sep) == Join(parts[..k], sep) + sep + Join(parts[k..], sep)
    decreases |parts|
  {
    if k == 1 {
      assert parts[..1] == [parts[0]];
      assert parts[1..] == parts[k..];
    } else {
      JoinSplit(parts[1..], sep, k - 1);
      assert parts[1..][..k - 1] == parts[..k][1..];
      assert parts[1..][k - 1..] == parts[k..];
    }
  }

  /** A character in neither the parts nor the separator is not in the join. */
  lemma {:induction false} JoinExcludes(parts: seq<string>, sep: string, c: char)
    requires c !in sep
    requires forall i :: 0 <= i < |parts| ==> c !in parts[i]
    ensures c !in Join(parts, sep)
    decreases |parts|
  {
    if |parts| > 1 {
      JoinExcludes(parts[1..], sep, c);
    }
  }

  predicate OccursAt(s: string, pat: string, i: nat) {
    i + |pat| <= |s| && s[i..][..|pat|] == pat
  }

  /** Position of the first occurrence of pat in s, if any. */
  function Find(s: string, pat: string): (r: Option<nat>)
    ensures r.Some? ==> r.value + |pat| <= |s|
    decreases |s|
  {
    if |s| < |pat| then None
    else if s[..|pat|] == pat then Some(0)
    else
      match Find(s[1..], pat)
      case Some(k) => Some(k + 1)
      case None => None
  }

  /** Dropping the first character shifts every occurrence one place left. */
  lemma OccursShift(s: string, pat: string, j: nat)
    requires 1 <= j && |s| > 0
    ensures OccursAt(s, pat, j) == OccursAt(s[1..], pat, j - 1)
  {
    if j <= |s| {
      assert s[1..][j - 1..] == s[j..];
    }
  }

  /** Find reports an occurrence, and no earlier one exists; it reports none
      exactly when there is none. */
  lemma {:induction false} FindFirst(s: string, pat: string)
    ensures Find(s, pat).Some? ==> OccursAt(s, pat, Find(s, pat).value)
    ensures Find(s, pat).Some? ==> forall j :: 0 <= j < Find(s, pat).value ==> !OccursAt(s, pat, j)
    ensures Find(s, pat).None? ==> forall j :: 0 <= j <= |s| ==> !OccursAt(s, pat, j)
    decreases |s|
  {
    if |s| >= |pat| && s[..|pat|] != pat {
      FindFirst(s[1..], pat);
      forall j | 1 <= j <= |s|
        ensures OccursAt(s, pat, j) == OccursAt(s[1..], pat, j - 1)
      {
        OccursShift(s, pat, j);
      }
    }
  }

  /** Find reports n when pat occurs at n and at no earlier position. */
  lemma FindAt(s: string, pat: string, n: nat)
    requires OccursAt(s, pat, n)
    requires forall j :: 0 <= j < n ==> !OccursAt(s, pat, j)
    ensures Find(s, pat) == Some(n)
  {
    FindFirst(s, pat);
  }

  /** An occurrence that lies inside the front of a concatenation is one in the front alone. */
  lemma OccursWithin(a: string, b: string, pat: string, i: nat)
    requires i + |pat| <= |a|
    ensures OccursAt(a + b, pat, i) == OccursAt(a, pat, i)
  {
    assert (a + b)[i..][..|pat|] == a[i..][..|pat|];
  }

  /** Occurrences in the back of a concatenation are shifted by the front's length. */
  lemma OccursBeyond(a: string, b: string, pat: string, k: nat)
    ensures OccursAt(a + b, pat, |a| + k) == OccursAt(b, pat, k)
  {
    if k <= |b| {
      assert (a + b)[|a| + k..] == b[k..];
    }
  }
}
