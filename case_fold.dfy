/**
 * Case-insensitive comparison as the engine uses it: Python's
 * `a.lower().startswith(b.lower())`, with case folding restricted to ASCII.
 */
module CaseFold {

  /** The lower-case form of one character: ASCII capitals map to their small letters. */
  function LowerChar(c: char): char
  {
    if 'A' <= c <= 'Z' then (c as int + 32) as char else c
  }

  /** `s.lower()`, character by character. */
  function Lower(s: string): (r: string)
    ensures |r| == |s|
    ensures forall i :: 0 <= i < |s| ==> r[i] == LowerChar(s[i])
    ensures forall i :: 0 <= i < |r| ==> !('A' <= r[i] <= 'Z')
    ensures forall i :: 0 <= i < |s| && !('A' <= s[i] <= 'Z') ==> r[i] == s[i]
  {
    seq(|s|, i requires 0 <= i < |s| => LowerChar(s[i]))
  }

  /** Folding the case twice is folding it once. */
  lemma LowerIdempotent(s: string)
    ensures Lower(Lower(s)) == Lower(s)
  {
    var r := Lower(s);
    assert forall i :: 0 <= i < |r| ==> Lower(r)[i] == r[i];
  }

  /** `s.lower().startswith(prefix.lower())`. */
  predicate StartsWithCI(s: string, prefix: string)
  {
    Lower(prefix) <= Lower(s)
  }

  /** Folding the case of a concatenation folds each part. */
  lemma LowerConcat(a: string, b: string)
    ensures Lower(a + b) == Lower(a) + Lower(b)
  {
    assert forall i :: 0 <= i < |a + b| ==> Lower(a + b)[i] == (Lower(a) + Lower(b))[i];
  }

  /** A case-insensitive prefix is no longer than the text, and every string starts with itself. */
  lemma StartsWithCIFacts(s: string, prefix: string)
    ensures StartsWithCI(s, prefix) ==> |prefix| <= |s|
    ensures StartsWithCI(s, s)
    ensures StartsWithCI(s, "")
  {
  }

  /**
   * When `prefix` starts `s` up to case, keeping the typed `prefix` and appending
   * the rest of `s` gives a string equal to `s` up to case.
   */
  lemma CompletionFolds(s: string, prefix: string)
    requires StartsWithCI(s, prefix)
    ensures |prefix| <= |s|
    ensures Lower(prefix + s[|prefix|..]) == Lower(s)
  {
    LowerConcat(prefix, s[|prefix|..]);
    assert s == s[..|prefix|] + s[|prefix|..];
    LowerConcat(s[..|prefix|], s[|prefix|..]);
    assert Lower(prefix) == Lower(s)[..|prefix|];
    assert Lower(s[..|prefix|]) == Lower(s)[..|prefix|];
  }
}
