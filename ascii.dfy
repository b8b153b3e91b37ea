/** The truncation routine of Guava's `Ascii` class, as its documentation states it:
    a sequence no longer than the maximum is returned unchanged, a longer one is cut so
    that, with the truncation indicator appended, it is exactly the maximum long. */
module Ascii {

  predicate IsPrefix(p: string, s: string) {
    |p| <= |s| && s[..|p|] == p
  }

  predicate EndsWith(s: string, suffix: string) {
    |suffix| <= |s| && s[|s| - |suffix|..] == suffix
  }

  /** `Ascii.truncate(s, maxLength, indicator)`. Guava rejects an indicator longer than
      the maximum with an IllegalArgumentException; callers here never pass one. */
  function Truncate(s: string, maxLength: nat, indicator: string): (r: string)
    requires |indicator| <= maxLength
    ensures |r| <= maxLength
    ensures |s| <= maxLength ==> r == s
    ensures |s| > maxLength ==> |r| == maxLength
    ensures |s| > maxLength ==> IsPrefix(r[..maxLength - |indicator|], s)
    ensures |s| > maxLength ==> EndsWith(r, indicator)
  {
    if |s| <= maxLength then s
    else s[..maxLength - |indicator|] + indicator
  }

  /** Truncating twice gives what truncating once gives. */
  lemma TruncateIdempotent(s: string, maxLength: nat, indicator: string)
    requires |indicator| <= maxLength
    ensures Truncate(Truncate(s, maxLength, indicator), maxLength, indicator)
         == Truncate(s, maxLength, indicator)
  {
  }

  /** A string is left unchanged exactly when it already fits. */
  lemma TruncateUnchangedIff(s: string, maxLength: nat, indicator: string)
    requires |indicator| <= maxLength
    ensures Truncate(s, maxLength, indicator) == s <==> |s| <= maxLength
  {
  }

  /** The truncated form of a too-long string is the first `maxLength - |indicator|`
      characters of the input followed by the indicator. */
  lemma TruncatedShape(s: string, maxLength: nat, indicator: string)
    requires |indicator| <= maxLength < |s|
    ensures Truncate(s, maxLength, indicator) == s[..maxLength - |indicator|] + indicator
  {
  }
}
