/**
 Character-level string primitives of ECMAScript that the renderer relies on:
 `startsWith`, `StringIndexOf` (the search behind `indexOf` and `replace`) and
 the case folding behind `toLowerCase`, restricted to ASCII letters.
 */
module Strings {
  import opened Wrappers

  /** `s.startsWith(prefix)`. */
  predicate StartsWith(s: string, prefix: string) {
    |prefix| <= |s| && s[..|prefix|] == prefix
  }

  /** `pat` occurs in `s` starting at index `i`. */
  predicate MatchesAt(s: string, pat: string, i: nat) {
    i + |pat| <= |s| && s[i..i + |pat|] == pat
  }

  /** `pat` occurs somewhere in `s`. */
  predicate Occurs(s: string, pat: string) {
    exists i: nat :: i <= |s| && MatchesAt(s, pat, i)
  }

  /** `p` is the leftmost index at which `pat` occurs in `s`. */
  predicate IsFirstMatch(s: string, pat: string, p: nat) {
    MatchesAt(s, pat, p) && forall i: nat :: i < p ==> !MatchesAt(s, pat, i)
  }

  /**
   StringIndexOf(s, pat, from): candidates are tried in ascending order from
   `from`; an empty `pat` is found at `from` itself.
   */
  function IndexOfFrom(s: string, pat: string, from: nat): (r: Option<nat>)
    decreases |s| - from
    ensures r.Some? ==> from <= r.value && MatchesAt(s, pat, r.value)
    ensures forall i: nat :: from <= i && (r.None? || i < r.value) ==> !MatchesAt(s, pat, i)
  {
    if from + |pat| > |s| then None
    else if s[from..from + |pat|] == pat then Some(from)
    else IndexOfFrom(s, pat, from + 1)
  }

  /** `s.indexOf(pat)`: the leftmost occurrence, or none at all. */
  function IndexOf(s: string, pat: string): (r: Option<nat>)
    ensures r.None? <==> !Occurs(s, pat)
    ensures r.Some? ==> IsFirstMatch(s, pat, r.value)
  {
    IndexOfFrom(s, pat, 0)
  }

  /** Whichever index is the first match, `IndexOf` finds exactly that one. */
  lemma IndexOfFindsFirstMatch(s: string, pat: string, p: nat)
    requires IsFirstMatch(s, pat, p)
    ensures IndexOf(s, pat) == Some(p)
  {
    var r := IndexOf(s, pat);
    assert r.Some? by { assert MatchesAt(s, pat, p); }
    assert !(r.value < p) by { assert IsFirstMatch(s, pat, r.value); }
    assert !(p < r.value);
  }

  predicate IsAsciiUpper(c: char) {
    'A' <= c <= 'Z'
  }

  predicate IsAsciiLower(c: char) {
    'a' <= c <= 'z'
  }

  function ToLowerChar(c: char): char {
    if IsAsciiUpper(c) then (c as int + 32) as char else c
  }

  function ToUpperChar(c: char): char {
    if IsAsciiLower(c) then (c as int - 32) as char else c
  }

  /** `s.toLowerCase()` on ASCII letters; every other character is kept. */
  function ToLower(s: string): (r: string)
    ensures |r| == |s| && NoAsciiUpper(r)
    ensures forall i :: 0 <= i < |s| && !IsAsciiUpper(s[i]) ==> r[i] == s[i]
    ensures forall i :: 0 <= i < |s| && IsAsciiUpper(s[i]) ==> IsAsciiLower(r[i]) && ToUpperChar(r[i]) == s[i]
  {
    seq(|s|, i requires 0 <= i < |s| => ToLowerChar(s[i]))
  }

  /** Lower-casing twice is lower-casing once. */
  lemma ToLowerIdempotent(s: string)
    ensures ToLower(ToLower(s)) == ToLower(s)
  {
    var t := ToLower(s);
    assert forall i :: 0 <= i < |t| ==> !IsAsciiUpper(t[i]);
  }

  /**
   `s` spells `t` up to the case of its letters: each character is the one of
   `t` or, for a lower-case letter of `t`, its capital.
   */
  predicate CaseVariantOf(s: string, t: string) {
    |s| == |t| &&
    forall i :: 0 <= i < |s| ==> s[i] == t[i] || (IsAsciiLower(t[i]) && s[i] == ToUpperChar(t[i]))
  }

  /** A string with no capital ASCII letter. */
  predicate NoAsciiUpper(t: string) {
    forall i :: 0 <= i < |t| ==> !IsAsciiUpper(t[i])
  }

  /**
   Comparing `s.toLowerCase()` with a lower-case literal accepts exactly the
   case variants of that literal, in both directions.
   */
  lemma ToLowerMatchesCaseVariants(s: string, t: string)
    requires NoAsciiUpper(t)
    ensures ToLower(s) == t <==> CaseVariantOf(s, t)
  {
    if ToLower(s) == t {
      forall i | 0 <= i < |s|
        ensures s[i] == t[i] || (IsAsciiLower(t[i]) && s[i] == ToUpperChar(t[i]))
      {
        assert ToLower(s)[i] == ToLowerChar(s[i]);
      }
    }
    if CaseVariantOf(s, t) {
      forall i | 0 <= i < |s|
        ensures ToLower(s)[i] == t[i]
      {
        assert !IsAsciiUpper(t[i]);
      }
    }
  }
}
