/** The parts of Kotlin's string library the client relies on. */
module Strings {
  import opened Models

  /** `d` occurs in `s` starting at index `k`. */
  predicate OccursAt(s: string, d: string, k: nat) {
    k + |d| <= |s| && s[k..k + |d|] == d
  }

  /** The first occurrence of `d` in `s` at or after `from`. */
  function IndexOfFrom(s: string, d: string, from: nat): (r: Option<nat>)
    decreases |s| - from
    ensures r.Some? ==> from <= r.value && OccursAt(s, d, r.value)
    ensures r.Some? ==> forall k: nat | from <= k < r.value :: !OccursAt(s, d, k)
    ensures r.None? ==> forall k: nat | from <= k :: !OccursAt(s, d, k)
  {
    if from + |d| > |s| then None
    else if s[from..from + |d|] == d then Some(from)
    else IndexOfFrom(s, d, from + 1)
  }

  /** Kotlin's `indexOf`, with `None` for -1. */
  function IndexOf(s: string, d: string): (r: Option<nat>)
    ensures r.Some? ==> OccursAt(s, d, r.value) && forall k: nat | k < r.value :: !OccursAt(s, d, k)
    ensures r.None? ==> forall k: nat :: !OccursAt(s, d, k)
  {
    IndexOfFrom(s, d, 0)
  }

  /** Kotlin's `contains`. */
  predicate Contains(s: string, d: string) {
    IndexOf(s, d).Some?
  }

  /** Kotlin's `substringAfter`: the whole string when the delimiter is missing. */
  function SubstringAfter(s: string, d: string): string {
    match IndexOf(s, d)
    case None => s
    case Some(i) => s[i + |d|..]
  }

  /** Kotlin's `substringBefore`: the whole string when the delimiter is missing. */
  function SubstringBefore(s: string, d: string): string {
    match IndexOf(s, d)
    case None => s
    case Some(i) => s[..i]
  }
}
