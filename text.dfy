/** Case-insensitive substring search on strings, as the catalogue search uses it
    (Kotlin's `String.contains(other, ignoreCase = true)`).

    Case folding is restricted to ASCII: 'A'..'Z' fold to 'a'..'z' and every other
    character folds to itself. */
module Text {

  predicate IsUpper(c: char) {
    'A' <= c <= 'Z'
  }

  /** The case fold of one character. */
  function Fold(c: char): char
  {
    if IsUpper(c) then (c as int - 'A' as int + 'a' as int) as char else c
  }

  /** Two characters are equal ignoring case when their folds agree. */
  predicate CharEqualsIgnoreCase(a: char, b: char) {
    Fold(a) == Fold(b)
  }

  /** The case fold of a whole string. */
  function FoldAll(s: string): string
  {
    seq(|s|, k requires 0 <= k < |s| => Fold(s[k]))
  }

  /** `needle` occurs in `hay` at offset `i`, ignoring case. */
  predicate RegionMatches(hay: string, i: int, needle: string) {
    0 <= i && i + |needle| <= |hay| &&
    forall k :: 0 <= k < |needle| ==> CharEqualsIgnoreCase(hay[i + k], needle[k])
  }

  /** The first offset at or after `from` where `needle` occurs in `hay` ignoring case,
      or -1 when there is none (Kotlin's `indexOf(other, startIndex, ignoreCase = true)`). */
  function IndexOfIgnoreCase(hay: string, needle: string, from: nat): (r: int)
    ensures r == -1 || (from <= r && RegionMatches(hay, r, needle))
    ensures r == -1 <==> forall i :: from <= i ==> !RegionMatches(hay, i, needle)
    ensures r != -1 ==> forall i :: from <= i < r ==> !RegionMatches(hay, i, needle)
    decreases |hay| - from
  {
    if from + |needle| > |hay| then -1
    else if RegionMatches(hay, from, needle) then from
    else IndexOfIgnoreCase(hay, needle, from + 1)
  }

  /** `hay.contains(needle, ignoreCase = true)`. */
  function ContainsIgnoreCase(hay: string, needle: string): (r: bool)
    ensures r <==> exists i :: RegionMatches(hay, i, needle)
  {
    IndexOfIgnoreCase(hay, needle, 0) != -1
  }

  /** Every string contains the empty string. */
  lemma ContainsEmpty(hay: string)
    ensures ContainsIgnoreCase(hay, "")
  {
    assert RegionMatches(hay, 0, "");
  }

  /** An exact occurrence is also an occurrence ignoring case. */
  lemma ContainsExactOccurrence(hay: string, i: nat, needle: string)
    requires i + |needle| <= |hay| && hay[i..i + |needle|] == needle
    ensures ContainsIgnoreCase(hay, needle)
  {
    forall k | 0 <= k < |needle|
      ensures CharEqualsIgnoreCase(hay[i + k], needle[k])
    {
      assert hay[i..i + |needle|][k] == hay[i + k];
    }
    assert RegionMatches(hay, i, needle);
  }

  /** Folding the query first does not change the answer. */
  lemma ContainsFoldedNeedle(hay: string, needle: string)
    ensures ContainsIgnoreCase(hay, FoldAll(needle)) == ContainsIgnoreCase(hay, needle)
  {
    var f := FoldAll(needle);
    forall i
      ensures RegionMatches(hay, i, f) == RegionMatches(hay, i, needle)
    {
      if 0 <= i && i + |needle| <= |hay| {
        forall k | 0 <= k < |needle|
          ensures CharEqualsIgnoreCase(hay[i + k], f[k]) == CharEqualsIgnoreCase(hay[i + k], needle[k])
        {
        }
      }
    }
  }

  /** Folding the searched text first does not change the answer either. */
  lemma ContainsFoldedHay(hay: string, needle: string)
    ensures ContainsIgnoreCase(FoldAll(hay), needle) == ContainsIgnoreCase(hay, needle)
  {
    var f := FoldAll(hay);
    forall i
      ensures RegionMatches(f, i, needle) == RegionMatches(hay, i, needle)
    {
      if 0 <= i && i + |needle| <= |hay| {
        forall k | 0 <= k < |needle|
          ensures CharEqualsIgnoreCase(f[i + k], needle[k]) == CharEqualsIgnoreCase(hay[i + k], needle[k])
        {
        }
      }
    }
  }
}
