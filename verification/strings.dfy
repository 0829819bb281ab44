/**
  The JavaScript string operations the rule relies on: `startsWith`,
  `indexOf` and the string-pattern form of `replace`, which rewrites only
  the FIRST occurrence of its pattern.
 */
module Strings {
  import opened Wrappers

  /** `s.startsWith(p)`: p is a prefix of s (the empty string prefixes everything). */
  predicate StartsWith(s: string, p: string) {
    p <= s
  }

  /** Two strings that differ at position `i` are not prefix-related there. */
  lemma DiffersAt(s: string, p: string, i: nat)
    requires i < |s| && i < |p| && s[i] != p[i]
    ensures !StartsWith(s, p)
  {
  }

  /** `pat` occurs in `s` starting at position `i`. */
  predicate OccursAt(s: string, pat: string, i: nat) {
    i + |pat| <= |s| && s[i..i + |pat|] == pat
  }

  predicate Contains(s: string, pat: string) {
    exists i | 0 <= i <= |s| :: OccursAt(s, pat, i)
  }

  /** `i` is the leftmost position where `pat` occurs in `s`. */
  predicate FirstOccurrence(s: string, pat: string, i: nat) {
    OccursAt(s, pat, i) && forall j | 0 <= j < i :: !OccursAt(s, pat, j)
  }

  /**
    `s.indexOf(pat, from)` for `from <= |s|`, with `None` for JavaScript's -1.
    JavaScript clamps a larger `from` to `|s|`; the rule only searches from 0.
   */
  function IndexOfFrom(s: string, pat: string, from: nat): Option<nat>
    decreases |s| - from
  {
    if |s| < from + |pat| then None
    else if OccursAt(s, pat, from) then Some(from)
    else IndexOfFrom(s, pat, from + 1)
  }

  /** IndexOfFrom finds the leftmost occurrence at or after `from`, and reports none only when there is none. */
  lemma {:induction false} IndexOfFromIsLeftmost(s: string, pat: string, from: nat)
    ensures var r := IndexOfFrom(s, pat, from);
      && (r.Some? ==> from <= r.value && OccursAt(s, pat, r.value))
      && (r.Some? ==> forall j | from <= j < r.value :: !OccursAt(s, pat, j))
      && (r.None? ==> forall j | from <= j :: !OccursAt(s, pat, j))
    decreases |s| - from
  {
    if |s| >= from + |pat| && !OccursAt(s, pat, from) {
      IndexOfFromIsLeftmost(s, pat, from + 1);
    }
  }

  /**
    `s.replace(pat, rep)` for a string pattern and a replacement without `$`
    (JavaScript expands `$&`, `$$` and the like in `rep`; the rule passes none):
    only the first occurrence is rewritten.
   */
  function ReplaceFirst(s: string, pat: string, rep: string): (r: string)
    ensures !Contains(s, pat) ==> r == s
    ensures forall i: nat | FirstOccurrence(s, pat, i) :: r == s[..i] + rep + s[i + |pat|..]
  {
    IndexOfFromIsLeftmost(s, pat, 0);
    match IndexOfFrom(s, pat, 0)
    case None => s
    case Some(i) => s[..i] + rep + s[i + |pat|..]
  }

  /** The rule's way of dropping a wildcard segment: `replace` of a slash-star with the empty string. */
  function StripWildcard(s: string): string {
    ReplaceFirst(s, "/*", "")
  }

  /** A string that already starts with the pattern has exactly that prefix rewritten. */
  lemma ReplaceFirstAtStart(s: string, pat: string, rep: string)
    requires StartsWith(s, pat)
    ensures ReplaceFirst(s, pat, rep) == rep + s[|pat|..]
  {
    assert s[0..|pat|] == pat;
    assert FirstOccurrence(s, pat, 0);
    assert s[..0] + rep == rep;
  }

  /** A key or path written as a name followed by the usual slash-star loses exactly that suffix. */
  lemma StripTrailingWildcard(k: string)
    requires !Contains(k, "/*")
    ensures StripWildcard(k + "/*") == k
  {
    var s := k + "/*";
    var i := |k|;
    assert OccursAt(s, "/*", i);
    forall j | 0 <= j < i
      ensures !OccursAt(s, "/*", j)
    {
      if j + 1 < |k| {
        assert s[j..j + 2] == k[j..j + 2];
        assert !OccursAt(k, "/*", j);
      } else {
        assert s[j..j + 2][1] == s[j + 1] == '/';
      }
    }
    assert FirstOccurrence(s, "/*", i);
    assert s[..i] == k;
  }

  /** A string with no `*` at all has no wildcard to strip. */
  lemma StripWildcardWithoutStar(s: string)
    requires '*' !in s
    ensures !Contains(s, "/*")
    ensures StripWildcard(s) == s
  {
    forall i | 0 <= i <= |s|
      ensures !OccursAt(s, "/*", i)
    {
      if i + 2 <= |s| {
        assert s[i..i + 2][1] == s[i + 1];
        assert s[i + 1] in s;
      }
    }
  }

  /** Only the first wildcard segment goes: a string with two keeps its second one. */
  lemma StripWildcardOnlyFirst()
    ensures StripWildcard("a/*/*") == "a/*"
  {
    assert FirstOccurrence("a/*/*", "/*", 1) by {
      assert !OccursAt("a/*/*", "/*", 0) by { assert "a/*/*"[0] == 'a'; }
    }
  }
}
