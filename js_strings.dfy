/** The part of JavaScript's string API the bot relies on: `replace` with a string pattern. */
module JsStrings {

  /** `pat` occurs in `s` starting at index `i`. */
  predicate OccursAt(s: string, pat: string, i: int)
  {
    0 <= i && i + |pat| <= |s| && s[i..i + |pat|] == pat
  }

  /** `s.includes(pat)` */
  predicate Contains(s: string, pat: string)
  {
    exists i | 0 <= i <= |s| :: OccursAt(s, pat, i)
  }

  /** `i` is `s.indexOf(pat)`: the leftmost index at which `pat` occurs. */
  predicate FirstOccurrence(s: string, pat: string, i: int)
  {
    OccursAt(s, pat, i) && forall j :: 0 <= j < i ==> !OccursAt(s, pat, j)
  }

  /** Occurrences in the tail of `s` are the occurrences in `s` at index 1 or later. */
  lemma OccursInTail(s: string, pat: string)
    requires |s| >= 1
    ensures forall j :: 0 <= j ==> (OccursAt(s[1..], pat, j) <==> OccursAt(s, pat, j + 1))
  {
    forall j | 0 <= j
      ensures OccursAt(s[1..], pat, j) <==> OccursAt(s, pat, j + 1)
    {
      if j + 1 + |pat| <= |s| {
        assert s[1..][j..j + |pat|] == s[j + 1..j + 1 + |pat|];
      }
    }
  }

  /** When `pat` is not at the front of `s`, the search for it moves on to the tail. */
  lemma SearchTail(s: string, pat: string)
    requires |s| >= 1 && !OccursAt(s, pat, 0)
    ensures forall i :: FirstOccurrence(s, pat, i) ==> i >= 1 && FirstOccurrence(s[1..], pat, i - 1)
    ensures Contains(s[1..], pat) ==> Contains(s, pat)
  {
    OccursInTail(s, pat);
    forall i | FirstOccurrence(s, pat, i)
      ensures i >= 1 && FirstOccurrence(s[1..], pat, i - 1)
    {
      assert OccursAt(s[1..], pat, i - 1);
      forall j | 0 <= j < i - 1
        ensures !OccursAt(s[1..], pat, j)
      {
        assert !OccursAt(s, pat, j + 1);
      }
    }
    if Contains(s[1..], pat) {
      var k :| 0 <= k <= |s[1..]| && OccursAt(s[1..], pat, k);
      assert OccursAt(s, pat, k + 1);
    }
  }

  /** A character of an occurrence of `pat` is a character of `s`. */
  lemma OccurrenceChar(s: string, pat: string, k: int)
    requires 0 <= k < |pat|
    ensures Contains(s, pat) ==> pat[k] in s
  {
    if Contains(s, pat) {
      var i :| 0 <= i <= |s| && OccursAt(s, pat, i);
      assert s[i..i + |pat|][k] == s[i + k];
    }
  }

  /**
   * `s.replace(pat, rep)` with a string `pat` and a replacement without `$` patterns (which
   * JavaScript would expand): the first occurrence of `pat`, if any, is
   * replaced by `rep` and the rest of `s` is left alone.
   */
  function ReplaceFirst(s: string, pat: string, rep: string): (r: string)
    ensures !Contains(s, pat) ==> r == s
    ensures forall i :: FirstOccurrence(s, pat, i) ==> r == s[..i] + rep + s[i + |pat|..]
  {
    if |s| < |pat| then
      s
    else if s[..|pat|] == pat then
      assert OccursAt(s, pat, 0);
      rep + s[|pat|..]
    else
      SearchTail(s, pat);
      var r := [s[0]] + ReplaceFirst(s[1..], pat, rep);
      assert forall i :: 1 <= i <= |s| ==> [s[0]] + s[1..][..i - 1] == s[..i];
      r
  }
}
