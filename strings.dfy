/** The JavaScript string operations the resolver uses on the location hash. */
module Strings {
  import opened Wrappers

  /** `s.startsWith(prefix)`. */
  predicate StartsWith(s: string, prefix: string)
  {
    |prefix| <= |s| && s[..|prefix|] == prefix
  }

  /** `pat` occurs in `s` at position `i`. */
  predicate MatchesAt(s: string, pat: string, i: nat)
  {
    i + |pat| <= |s| && s[i..i + |pat|] == pat
  }

  /** `s.indexOf(pat, from)`: the first position at or after `from` where `pat` occurs. */
  function IndexOfFrom(s: string, pat: string, from: nat): (r: Option<nat>)
    decreases |s| - from
    ensures r.Some? ==> from <= r.value && MatchesAt(s, pat, r.value)
    ensures r.Some? ==> forall i | from <= i < r.value :: !MatchesAt(s, pat, i)
    ensures r.None? ==> forall i | from <= i :: !MatchesAt(s, pat, i)
  {
    if from + |pat| > |s| then None
    else if s[from..from + |pat|] == pat then Some(from)
    else IndexOfFrom(s, pat, from + 1)
  }

  /** `s.indexOf(pat)`. */
  function IndexOf(s: string, pat: string): (r: Option<nat>)
    ensures r.Some? ==> MatchesAt(s, pat, r.value) && forall i | 0 <= i < r.value :: !MatchesAt(s, pat, i)
    ensures r.None? ==> forall i: nat :: !MatchesAt(s, pat, i)
  {
    IndexOfFrom(s, pat, 0)
  }

  /**
   * `s.replace(pat, rep)` with a string pattern: only the first occurrence is
   * replaced, and `rep` is inserted literally. JavaScript's `$&`, `$$`, `` $` ``
   * and `$'` patterns in `rep` are not modelled; the resolver passes `''`.
   */
  function ReplaceFirst(s: string, pat: string, rep: string): (r: string)
    ensures (forall i: nat :: !MatchesAt(s, pat, i)) ==> r == s
    ensures forall i: nat | MatchesAt(s, pat, i) && (forall j | 0 <= j < i :: !MatchesAt(s, pat, j)) ::
              r == s[..i] + rep + s[i + |pat|..]
  {
    match IndexOf(s, pat)
    case None => s
    case Some(i) => s[..i] + rep + s[i + |pat|..]
  }

  /** Replacing a prefix by nothing strips it. */
  lemma StripPrefix(s: string, prefix: string)
    requires StartsWith(s, prefix)
    ensures ReplaceFirst(s, prefix, "") == s[|prefix|..]
  {
    assert MatchesAt(s, prefix, 0);
  }
}
