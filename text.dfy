/**
 * The string search behind the `String.prototype.endsWith` polyfill that
 * raspbian-mjpeg.js installs when the runtime has none: `endsWith` is
 * `indexOf(suffix, length - suffix.length) !== -1`, with `indexOf` as
 * JavaScript defines it (the start position is clamped into the string).
 */
module Text {

  /** `sub` occurs in `s` starting at index `k`. */
  predicate MatchAt(s: string, sub: string, k: int) {
    0 <= k && k + |sub| <= |s| && s[k..k + |sub|] == sub
  }

  /** `suffix` is a suffix of `s`. */
  predicate IsSuffix(suffix: string, s: string) {
    |suffix| <= |s| && s[|s| - |suffix|..] == suffix
  }

  /** Where a JavaScript `indexOf(sub, from)` starts looking: `from` clamped into `[0, |s|]`. */
  function ClampIndex(s: string, from: int): (k: nat)
    ensures k <= |s|
    ensures 0 <= from <= |s| ==> k == from
  {
    if from < 0 then 0 else if from > |s| then |s| else from
  }

  /** The first index at or after `k` where `sub` occurs in `s`, or -1 when there is none. */
  function IndexFrom(s: string, sub: string, k: nat): (r: int)
    requires k <= |s|
    decreases |s| - k
    ensures r == -1 || (k <= r && MatchAt(s, sub, r))
    ensures forall j {:trigger MatchAt(s, sub, j)} :: k <= j && (r == -1 || j < r) ==> !MatchAt(s, sub, j)
  {
    if k + |sub| > |s| then -1
    else if s[k..k + |sub|] == sub then k
    else IndexFrom(s, sub, k + 1)
  }

  /** JavaScript's `s.indexOf(sub, from)`. */
  function IndexOf(s: string, sub: string, from: int): (r: int)
    ensures r == -1 || (ClampIndex(s, from) <= r && MatchAt(s, sub, r))
    ensures forall j {:trigger MatchAt(s, sub, j)} :: ClampIndex(s, from) <= j && (r == -1 || j < r) ==> !MatchAt(s, sub, j)
  {
    IndexFrom(s, sub, ClampIndex(s, from))
  }

  /** The polyfilled `s.endsWith(suffix)`. */
  function EndsWith(s: string, suffix: string): bool {
    IndexOf(s, suffix, |s| - |suffix|) != -1
  }

  /** The polyfill answers exactly the suffix question, also when `suffix` is longer than `s`. */
  lemma EndsWithIsSuffix(s: string, suffix: string)
    ensures EndsWith(s, suffix) <==> IsSuffix(suffix, s)
  {
    if IsSuffix(suffix, s) {
      assert MatchAt(s, suffix, |s| - |suffix|);
    }
    if EndsWith(s, suffix) {
      var r := IndexOf(s, suffix, |s| - |suffix|);
      assert MatchAt(s, suffix, r);
    }
  }

  /** Appending a suffix makes the polyfill report it. */
  lemma EndsWithAppended(s: string, suffix: string)
    ensures EndsWith(s + suffix, suffix)
  {
    assert (s + suffix)[|s + suffix| - |suffix|..] == suffix;
    EndsWithIsSuffix(s + suffix, suffix);
  }
}
