/**
 * Character classes used by the terminal matchers, the leftmost search that
 * `preg_match` performs from an offset, and ASCII lower-casing (`strtolower`).
 *
 * Every regular expression of the core is a single character class repeated
 * with `+` (the `x` flag makes the spaces inside the patterns insignificant),
 * so its leftmost match from an offset starts at the first character of the
 * class and greedily runs to the end of the class run.
 */
module Chars {
  import opened Wrappers

  /** A pattern `/[...]+/` (`Within`) or `/[^...]+/` (`Outside`). */
  datatype Pattern = Within(chars: set<char>) | Outside(chars: set<char>)

  predicate InClass(pat: Pattern, c: char) {
    match pat
    case Within(cs) => c in cs
    case Outside(cs) => c !in cs
  }

  /** `[0-9a-zA-Z_-]`, the ObjectIdentifier class. */
  const IdentifierChars: set<char> :=
    set c: char | ('0' <= c <= '9') || ('a' <= c <= 'z') || ('A' <= c <= 'Z') || c == '_' || c == '-'

  /** PCRE `\s` without the `u` flag: space, tab, line feed, vertical tab, form feed, carriage return. */
  const Space: set<char> := {' ', '\t', '\n', 11 as char, 12 as char, '\r'}

  /** `/ [0-9a-zA-Z_-]+ /` */
  const ObjectIdentifierPattern: Pattern := Within(IdentifierChars)

  /** `/ [^"'\[\]\s]+ /` */
  const UnquotedOperandPattern: Pattern := Outside({'"', '\'', '[', ']'} + Space)

  /** `/[ \t]+/`, used by `whitespace()`. */
  const BlankPattern: Pattern := Within({' ', '\t'})

  /** Start of the leftmost match of `pat+` in `s` at or after `from`. */
  function Search(pat: Pattern, s: string, from: nat): (r: Option<nat>)
    decreases |s| - from
    ensures r.Some? ==> from <= r.value < |s| && InClass(pat, s[r.value])
    ensures r.Some? ==> forall k :: from <= k < r.value ==> !InClass(pat, s[k])
    ensures r.None? ==> forall k :: from <= k < |s| ==> !InClass(pat, s[k])
  {
    if from >= |s| then None
    else if InClass(pat, s[from]) then Some(from)
    else Search(pat, s, from + 1)
  }

  /** End of the greedy run of `pat` characters that starts at `k`. */
  function RunEnd(pat: Pattern, s: string, k: nat): (e: nat)
    requires k <= |s|
    decreases |s| - k
    ensures k <= e <= |s|
    ensures forall m :: k <= m < e ==> InClass(pat, s[m])
    ensures e == |s| || !InClass(pat, s[e])
  {
    if k < |s| && InClass(pat, s[k]) then RunEnd(pat, s, k + 1) else k
  }

  /** The text the leftmost match starting at `k` captures (`$matches[0][0]`). */
  function MatchText(pat: Pattern, s: string, k: nat): string
    requires k <= |s|
  {
    s[k..RunEnd(pat, s, k)]
  }

  /**
   * What an anchored match of `pat+` at `i` yields: the leftmost search from
   * `i` must find its match exactly at `i`.
   */
  function MatchAt(pat: Pattern, s: string, i: nat): (r: Option<string>)
    requires i <= |s|
    ensures r.Some? <==> i < |s| && InClass(pat, s[i])
    ensures r.Some? ==> |r.value| > 0 && i + |r.value| <= |s| && s[i..i + |r.value|] == r.value
    ensures r.Some? ==> i + |r.value| == |s| || !InClass(pat, s[i + |r.value|])
    ensures r.Some? ==> forall m :: i <= m < i + |r.value| ==> InClass(pat, s[m])
  {
    if Search(pat, s, i) == Some(i) then Some(MatchText(pat, s, i)) else None
  }

  /**
   * The search result that is cached at `check` stays the answer for every
   * later offset up to the found match (or for every later offset at all when
   * nothing was found): a fresh search from `pos` returns the same thing.
   */
  lemma {:induction false} SearchStable(pat: Pattern, s: string, check: nat, pos: nat)
    requires check <= pos
    requires Search(pat, s, check).Some? ==> pos <= Search(pat, s, check).value
    ensures Search(pat, s, pos) == Search(pat, s, check)
    decreases pos - check
  {
    if check < pos && check < |s| {
      assert !InClass(pat, s[check]);
      SearchStable(pat, s, check + 1, pos);
    }
  }

  /** `strtolower` on bytes: only 'A'..'Z' change. */
  function Lower(c: char): (r: char)
    ensures 'A' <= c <= 'Z' ==> 'a' <= r <= 'z' && r as int - c as int == 32
    ensures !('A' <= c <= 'Z') ==> r == c
  {
    if 'A' <= c <= 'Z' then (c as int + 32) as char else c
  }

  /**
   * `strtolower` on a string. The ensures only unfold the definition for callers;
   * what lowering means is stated by `LowerStringNormal`.
   */
  function LowerString(s: string): (r: string)
    ensures |r| == |s|
    ensures forall k :: 0 <= k < |s| ==> r[k] == Lower(s[k])
  {
    seq(|s|, k requires 0 <= k < |s| => Lower(s[k]))
  }

  /** A lowered string has no upper-case letter left, so lowering it again changes nothing. */
  lemma LowerStringNormal(s: string)
    ensures forall k :: 0 <= k < |s| ==> !('A' <= LowerString(s)[k] <= 'Z')
    ensures LowerString(LowerString(s)) == LowerString(s)
  {
  }
}
