/** The JavaScript string operations the core relies on: `indexOf`, `includes`,
    `replace` with a string pattern (first occurrence only) and `toLowerCase`. */
module Strings {
  import opened Domain

  /** pat occurs in s starting at index i. */
  predicate MatchesAt(s: string, pat: string, i: nat) {
    i + |pat| <= |s| && s[i..i + |pat|] == pat
  }

  /** Searches for pat in s from index start on. */
  function IndexFrom(s: string, pat: string, start: nat): (r: Option<nat>)
    decreases |s| - start
    ensures r.Some? ==> start <= r.value && MatchesAt(s, pat, r.value)
    ensures r.Some? ==> forall j: nat :: start <= j < r.value ==> !MatchesAt(s, pat, j)
    ensures r.None? ==> forall j: nat :: start <= j ==> !MatchesAt(s, pat, j)
  {
    if start + |pat| > |s| then None
    else if s[start..start + |pat|] == pat then Some(start)
    else IndexFrom(s, pat, start + 1)
  }

  /** String.prototype.indexOf: the first index at which pat occurs in s. */
  function IndexOf(s: string, pat: string): (r: Option<nat>)
    ensures r.Some? <==> exists i: nat :: MatchesAt(s, pat, i)
    ensures r.Some? ==> MatchesAt(s, pat, r.value) && forall j: nat :: j < r.value ==> !MatchesAt(s, pat, j)
  {
    IndexFrom(s, pat, 0)
  }

  /** String.prototype.includes. */
  predicate Includes(s: string, pat: string) {
    IndexOf(s, pat).Some?
  }

  /** i is the first index at which pat occurs in s. */
  predicate FirstAt(s: string, pat: string, i: nat) {
    MatchesAt(s, pat, i) && forall j: nat :: j < i ==> !MatchesAt(s, pat, j)
  }

  /** String.prototype.replace with a string pattern: only the first occurrence of pat
      is replaced by rep; the text around it is kept as it is. */
  function ReplaceFirst(s: string, pat: string, rep: string): (r: string)
    ensures (forall j: nat :: !MatchesAt(s, pat, j)) ==> r == s
    ensures forall i: nat :: FirstAt(s, pat, i) ==> r == s[..i] + rep + s[i + |pat|..]
  {
    match IndexOf(s, pat)
    case None => s
    case Some(i) =>
      s[..i] + rep + s[i + |pat|..]
  }

  /** An occurrence that fits inside a prefix is unaffected by what follows the prefix. */
  lemma MatchesAtPrefix(front: string, rest: string, pat: string, j: nat)
    requires j + |pat| <= |front|
    ensures MatchesAt(front + rest, pat, j) == MatchesAt(front, pat, j)
  {
    assert (front + rest)[j..j + |pat|] == front[j..j + |pat|];
  }

  /** Replacing the first occurrence when it is known to follow `before`. */
  lemma ReplaceFirstAfter(before: string, pat: string, after: string, rep: string)
    requires forall j: nat :: j < |before| ==> !MatchesAt(before + pat, pat, j)
    ensures ReplaceFirst(before + pat + after, pat, rep) == before + rep + after
  {
    var front := before + pat;
    var h := front + after;
    var i := |before|;
    MatchesAtPrefix(front, after, pat, i);
    assert front[i..i + |pat|] == pat;
    forall j: nat | j < i ensures !MatchesAt(h, pat, j) {
      MatchesAtPrefix(front, after, pat, j);
    }
    assert FirstAt(h, pat, i);
    assert h[..i] == before;
    assert h[i + |pat|..] == after;
  }

  /** toLowerCase on the ASCII letters A-Z; every other character is kept. */
  function LowerChar(c: char): (lower: char) {
    if 'A' <= c <= 'Z' then (c as int + 32) as char else c
  }

  function ToLower(s: string): (r: string)
    ensures |r| == |s|
    ensures forall i :: 0 <= i < |s| ==> r[i] == LowerChar(s[i])
  {
    seq(|s|, i requires 0 <= i < |s| => LowerChar(s[i]))
  }
}
