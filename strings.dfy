/**
 * The PHP string primitives the selection logic relies on, over `seq<char>`:
 * `strpos(...) === 0`, `strpos(...) !== false` and `str_replace($p, '', $s)`.
 */
module Strings {

  /** `strpos($s, $p) === 0` for a non-empty needle: `s` begins with `p`. */
  predicate StartsWith(s: string, p: string) {
    |p| <= |s| && s[..|p|] == p
  }

  /** `p` occurs in `s` at index `i`. */
  predicate OccursAt(s: string, p: string, i: int) {
    0 <= i && i + |p| <= |s| && s[i..i + |p|] == p
  }

  /** `strpos($s, $p) !== false`: `p` occurs somewhere in `s`. */
  predicate Contains(s: string, p: string) {
    exists i | 0 <= i <= |s| - |p| :: OccursAt(s, p, i)
  }

  /**
   * `str_replace($p, '', $s)`: scans `s` from the left and deletes every
   * non-overlapping occurrence of `p`, not only a leading one.
   */
  function RemoveAll(s: string, p: string): (r: string)
    requires p != []
    ensures |r| <= |s|
    decreases |s|
  {
    if |s| < |p| then s
    else if s[..|p|] == p then RemoveAll(s[|p|..], p)
    else [s[0]] + RemoveAll(s[1..], p)
  }

  /** A string in which the pattern does not occur is left unchanged. */
  lemma {:induction false} RemoveAllAbsent(s: string, p: string)
    requires p != [] && !Contains(s, p)
    ensures RemoveAll(s, p) == s
    decreases |s|
  {
    if |s| >= |p| {
      if s[..|p|] == p {
        assert OccursAt(s, p, 0);
      }
      if Contains(s[1..], p) {
        var i :| 0 <= i <= |s[1..]| - |p| && OccursAt(s[1..], p, i);
        assert s[i + 1..i + 1 + |p|] == s[1..][i..i + |p|];
        assert OccursAt(s, p, i + 1);
      }
      RemoveAllAbsent(s[1..], p);
    }
  }

  /**
   * Prefixing a string in which `p` does not occur with `p` gives a string
   * that contains `p` and from which `str_replace` recovers the original.
   */
  lemma RemoveAllOfPrefixed(p: string, s: string)
    requires p != [] && !Contains(s, p)
    ensures Contains(p + s, p)
    ensures RemoveAll(p + s, p) == s
  {
    assert OccursAt(p + s, p, 0);
    assert (p + s)[..|p|] == p;
    assert (p + s)[|p|..] == s;
    RemoveAllAbsent(s, p);
  }

  /** A string shorter than the pattern cannot contain it. */
  lemma ShorterAbsent(s: string, p: string)
    requires |s| < |p|
    ensures !Contains(s, p)
  {
  }

  /** A pattern holding a character that `s` lacks does not occur in `s`. */
  lemma AbsentWithoutChar(s: string, p: string, c: char)
    requires c in p && c !in s
    ensures !Contains(s, p)
  {
  }

  /**
   * `str_replace` removes occurrences that are not at the start too: a key
   * that repeats the prefix loses both copies.
   */
  lemma RemoveAllRepeatedPrefix(p: string, s: string)
    requires p != [] && !Contains(s, p)
    ensures RemoveAll(p + p + s, p) == s
  {
    assert (p + p + s)[..|p|] == p;
    assert (p + p + s)[|p|..] == p + s;
    RemoveAllOfPrefixed(p, s);
  }

  /** The position of the first `c` in `s`, or `|s|` when there is none. */
  function IndexOfChar(s: string, c: char): (r: nat)
    ensures r <= |s|
    ensures r < |s| ==> s[r] == c
    ensures forall i | 0 <= i < r :: s[i] != c
  {
    if s == [] || s[0] == c then 0 else 1 + IndexOfChar(s[1..], c)
  }

  /** In `u + [c] + t` with no `c` in `u`, the first `c` is the separator. */
  lemma {:induction false} IndexOfSeparator(u: string, c: char, t: string)
    requires c !in u
    ensures IndexOfChar(u + [c] + t, c) == |u|
  {
    if u != [] {
      assert (u + [c] + t)[1..] == u[1..] + [c] + t;
      IndexOfSeparator(u[1..], c, t);
    }
  }
}
