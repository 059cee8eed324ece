/**
 * The two functions of Go's `strings` package that the core relies on:
 * `strings.Contains` (substring containment, used to recognise comment commands)
 * and `strings.ReplaceAll` with a one-character pattern (used to normalise a
 * namespace before it is embedded in a request path).
 */
module Strings {

  /** `sub` occurs in `s` at position `i`. */
  predicate OccursAt(s: string, sub: string, i: int)
  {
    0 <= i && i + |sub| <= |s| && s[i..i + |sub|] == sub
  }

  /** Go's `strings.Contains(s, sub)`: `sub` occurs somewhere in `s`. */
  predicate Contains(s: string, sub: string)
  {
    exists i | 0 <= i <= |s| - |sub| :: OccursAt(s, sub, i)
  }

  /** One differing character rules out an occurrence at `i`. */
  lemma MismatchRulesOut(s: string, sub: string, i: int, k: int)
    requires 0 <= k < |sub| && 0 <= i && i + k < |s| && s[i + k] != sub[k]
    ensures !OccursAt(s, sub, i)
  {
    if i + |sub| <= |s| {
      assert s[i..i + |sub|][k] == s[i + k];
    }
  }

  /**
   * Go's `strings.ReplaceAll(s, old, new)` where the pattern and replacement are one
   * character each: every occurrence of `from` becomes `to`, nothing else changes.
   */
  function ReplaceAll(s: string, from: char, to: char): (r: string)
    ensures |r| == |s|
    ensures forall i | 0 <= i < |s| :: r[i] == (if s[i] == from then to else s[i])
    ensures from != to ==> from !in r
  {
    if s == [] then []
    else [if s[0] == from then to else s[0]] + ReplaceAll(s[1..], from, to)
  }
}
