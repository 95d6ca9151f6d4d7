/**
 * The title helpers of index.js: `sanitizeTitle`, which collapses line breaks and tabs,
 * and the step of the URL handler that turns the list of `<title>` matches of a fetched
 * page into the title that is stored.
 */
module Titles {
  import opened Domain
  import opened JsStrings

  // ---------------------------------------------------------------------------------------
  // sanitizeTitle: title.replace(/[\n\r\t]+/gm, ' ')
  // ---------------------------------------------------------------------------------------

  /** The characters of the class `[\n\r\t]`. */
  predicate IsBreak(c: char)
  {
    c == '\n' || c == '\r' || c == '\t'
  }

  predicate NoBreaks(s: string)
  {
    forall i :: 0 <= i < |s| ==> !IsBreak(s[i])
  }

  predicate AllBreaks(s: string)
  {
    forall i :: 0 <= i < |s| ==> IsBreak(s[i])
  }

  /** Drops the run of breaks at the front of `s`: the rest of a greedy `[\n\r\t]+` match. */
  function SkipBreaks(s: string): (r: string)
    ensures |r| <= |s|
    ensures StartsPlain(r)
  {
    if s != [] && IsBreak(s[0]) then SkipBreaks(s[1..]) else s
  }

  /** A run made only of breaks is skipped whole. */
  lemma {:induction false} SkipBreaksOfRun(run: string)
    requires AllBreaks(run)
    ensures SkipBreaks(run) == []
  {
    if run != [] {
      SkipBreaksOfRun(run[1..]);
    }
  }

  /** `sanitizeTitle`: every maximal run of `\n`, `\r` and `\t` becomes one space. */
  function SanitizeTitle(title: string): (r: string)
    ensures |r| <= |title|
    decreases |title|
  {
    if title == [] then
      []
    else if IsBreak(title[0]) then
      " " + SanitizeTitle(SkipBreaks(title[1..]))
    else
      [title[0]] + SanitizeTitle(title[1..])
  }

  /** Skipping the breaks of `x + y` skips those of `x`, and those of `y` when `x` is all breaks. */
  lemma {:induction false} SkipBreaksAppend(x: string, y: string)
    ensures SkipBreaks(x + y) == if SkipBreaks(x) == [] then SkipBreaks(y) else SkipBreaks(x) + y
  {
    if x == [] {
      assert x + y == y;
    } else if IsBreak(x[0]) {
      assert (x + y)[1..] == x[1..] + y;
      SkipBreaksAppend(x[1..], y);
    }
  }

  /** The result holds no `\n`, `\r` or `\t`. */
  lemma {:induction false} SanitizeTitleHasNoBreaks(title: string)
    ensures NoBreaks(SanitizeTitle(title))
    decreases |title|
  {
    if title == [] {
    } else if IsBreak(title[0]) {
      SanitizeTitleHasNoBreaks(SkipBreaks(title[1..]));
    } else {
      SanitizeTitleHasNoBreaks(title[1..]);
    }
  }

  /** A string without breaks is left unchanged. */
  lemma {:induction false} SanitizeTitleKeepsPlainText(s: string)
    requires NoBreaks(s)
    ensures SanitizeTitle(s) == s
  {
    if s != [] {
      SanitizeTitleKeepsPlainText(s[1..]);
    }
  }

  /** Sanitising twice is sanitising once. */
  lemma SanitizeTitleIdempotent(s: string)
    ensures SanitizeTitle(SanitizeTitle(s)) == SanitizeTitle(s)
  {
    SanitizeTitleHasNoBreaks(s);
    SanitizeTitleKeepsPlainText(SanitizeTitle(s));
  }

  /** Unfolds one step of `SanitizeTitle` on a string that starts with `c`. */
  lemma SanitizeTitleCons(c: char, rest: string)
    ensures SanitizeTitle([c] + rest) ==
      if IsBreak(c) then " " + SanitizeTitle(SkipBreaks(rest)) else [c] + SanitizeTitle(rest)
  {
    assert ([c] + rest)[0] == c && ([c] + rest)[1..] == rest;
  }

  /** `s` does not end inside a run of breaks. */
  predicate EndsPlain(s: string)
  {
    s == [] || !IsBreak(s[|s| - 1])
  }

  /** `s` does not start inside a run of breaks. */
  predicate StartsPlain(s: string)
  {
    s == [] || !IsBreak(s[0])
  }

  /** Skipping leading breaks keeps the last character when that one is not a break. */
  lemma {:induction false} SkipBreaksKeepsEnd(s: string)
    ensures s != [] && !IsBreak(s[|s| - 1]) ==>
      SkipBreaks(s) != [] && SkipBreaks(s)[|SkipBreaks(s)| - 1] == s[|s| - 1]
  {
    if s != [] && IsBreak(s[0]) {
      SkipBreaksKeepsEnd(s[1..]);
    }
  }

  /** When no run of breaks straddles the seam, `a + b` is sanitised piecewise. */
  lemma {:induction false} SanitizeTitleAppend(a: string, b: string)
    requires EndsPlain(a) || StartsPlain(b)
    ensures SanitizeTitle(a + b) == SanitizeTitle(a) + SanitizeTitle(b)
    decreases |a|, 1
  {
    if a == [] {
      assert a + b == b;
    } else if IsBreak(a[0]) {
      SanitizeTitleAppendAfterBreak(a, b);
    } else {
      var x, tail := a[0], a[1..];
      assert a == [x] + tail;
      assert a + b == [x] + (tail + b);
      SanitizeTitleCons(x, tail + b);
      SanitizeTitleCons(x, tail);
      SanitizeTitleAppend(tail, b);
      var st, sb := SanitizeTitle(tail), SanitizeTitle(b);
      assert [x] + (st + sb) == ([x] + st) + sb;
    }
  }

  /** The case of `SanitizeTitleAppend` where `a` starts with a break. */
  lemma {:induction false} SanitizeTitleAppendAfterBreak(a: string, b: string)
    requires a != [] && IsBreak(a[0])
    requires EndsPlain(a) || StartsPlain(b)
    ensures SanitizeTitle(a + b) == SanitizeTitle(a) + SanitizeTitle(b)
    decreases |a|, 0
  {
    var tail := a[1..];
    assert (a + b)[0] == a[0] && (a + b)[1..] == tail + b;
    assert SanitizeTitle(a + b) == " " + SanitizeTitle(SkipBreaks(tail + b));
    assert SanitizeTitle(a) == " " + SanitizeTitle(SkipBreaks(tail));
    SkipBreaksAppend(tail, b);
    var rest := SkipBreaks(tail);
    if rest == [] {
      SkipBreaksKeepsEnd(a);
      assert StartsPlain(b);
      assert SkipBreaks(b) == b;
    } else {
      SkipBreaksKeepsEnd(tail);
      assert EndsPlain(rest) || StartsPlain(b);
      SanitizeTitleAppend(rest, b);
      var sr, sb := SanitizeTitle(rest), SanitizeTitle(b);
      assert " " + (sr + sb) == (" " + sr) + sb;
    }
  }

  /** Every character other than a break is kept, in place, between the results of its two sides. */
  lemma SanitizeTitleKeepsChar(a: string, c: char, b: string)
    requires !IsBreak(c)
    ensures SanitizeTitle(a + [c] + b) == SanitizeTitle(a) + [c] + SanitizeTitle(b)
  {
    SanitizeTitleAppend(a + [c], b);
    SanitizeTitleAppend(a, [c]);
    SanitizeTitleCons(c, []);
    assert [c] + [] == [c];
  }

  /** A run of breaks at the front becomes one space. */
  lemma SanitizeTitleOfRun(run: string, b: string)
    requires run != [] && AllBreaks(run)
    requires StartsPlain(b)
    ensures SanitizeTitle(run + b) == " " + SanitizeTitle(b)
  {
    var more := run[1..] + b;
    assert run + b == [run[0]] + more;
    SanitizeTitleCons(run[0], more);
    SkipBreaksAppend(run[1..], b);
    SkipBreaksOfRun(run[1..]);
  }

  /** A maximal run of breaks between `a` and `b` becomes exactly one space. */
  lemma SanitizeTitleCollapsesRun(a: string, run: string, b: string)
    requires run != [] && AllBreaks(run)
    requires EndsPlain(a) && StartsPlain(b)
    ensures SanitizeTitle(a + run + b) == SanitizeTitle(a) + " " + SanitizeTitle(b)
  {
    assert a + run + b == a + (run + b);
    SanitizeTitleAppend(a, run + b);
    SanitizeTitleOfRun(run, b);
    var sa, sb := SanitizeTitle(a), SanitizeTitle(b);
    assert sa + (" " + sb) == sa + " " + sb;
  }

  // ---------------------------------------------------------------------------------------
  // Title extraction: ent.decode(titleTag.pop().replace('<title>', '').replace('</title>', ''))
  // ---------------------------------------------------------------------------------------

  const OpenTag: string := "<title>"
  const CloseTag: string := "</title>"

  /** Removes the first literal `<title>`, then the first literal `</title>`. */
  function StripTitleTag(m: string): (r: string)
    ensures !Contains(m, OpenTag) && !Contains(m, CloseTag) ==> r == m
  {
    ReplaceFirst(ReplaceFirst(m, OpenTag, ""), CloseTag, "")
  }

  /** `</title>` starts with its only `<`, so it cannot overlap the end of a text it follows. */
  lemma CloseTagFollowsText(t: string)
    requires !Contains(t, CloseTag)
    ensures FirstOccurrence(t + CloseTag, CloseTag, |t|)
  {
    var m := t + CloseTag;
    assert m[|t|..|t| + |CloseTag|] == CloseTag;
    forall j | 0 <= j < |t|
      ensures !OccursAt(m, CloseTag, j)
    {
      if j + |CloseTag| <= |t| {
        assert m[j..j + |CloseTag|] == t[j..j + |CloseTag|];
        assert !OccursAt(t, CloseTag, j);
      } else {
        var k := |t| - j;
        assert m[j..j + |CloseTag|][k] == m[|t|] == '<';
        assert CloseTag[k] != '<';
      }
    }
  }

  /** A match `<title>t</title>` whose text has no `</title>` yields exactly its text. */
  lemma StripTitleTagOfMatch(t: string)
    requires !Contains(t, CloseTag)
    ensures StripTitleTag(OpenTag + t + CloseTag) == t
  {
    var m := OpenTag + t + CloseTag;
    var rest := t + CloseTag;
    assert m == OpenTag + rest;
    assert m[..|OpenTag|] == OpenTag && m[|OpenTag|..] == rest;
    assert FirstOccurrence(m, OpenTag, 0);
    assert ReplaceFirst(m, OpenTag, "") == rest;
    CloseTagFollowsText(t);
    assert rest[..|t|] == t && rest[|t| + |CloseTag|..] == [];
  }

  /**
   * The title regex is case-insensitive but the two `replace` calls are not: a match
   * written without a lower-case `t` is kept whole. Unlike `StripTitleTagKeepsUpperCaseMatch`
   * this needs no particular shape, so it also covers matches whose two tags are written in
   * different mixed cases, such as `<TiTLE>Home</TITLe>`.
   */
  lemma StripTitleTagKeepsUpperCaseTags(m: string)
    requires 't' !in m
    ensures StripTitleTag(m) == m
  {
    OccurrenceChar(m, OpenTag, 1);
    OccurrenceChar(m, CloseTag, 2);
  }

  const UpperOpenTag: string := "<TITLE>"
  const UpperCloseTag: string := "</TITLE>"

  /** `<` is the first character of `pat` and occurs nowhere else in it. */
  predicate OpensWithOnlyAngle(pat: string)
  {
    |pat| >= 1 && pat[0] == '<' && forall k :: 1 <= k < |pat| ==> pat[k] != '<'
  }

  /**
   * A pattern that starts with its only `<` cannot straddle the seam before a `<`: an
   * occurrence in `x + y` lies inside `x` or inside `y`.
   */
  lemma SeamBeforeAngle(x: string, y: string, pat: string)
    requires OpensWithOnlyAngle(pat) && y != [] && y[0] == '<'
    ensures Contains(x + y, pat) ==> Contains(x, pat) || Contains(y, pat)
  {
    var m := x + y;
    forall i | 0 <= i < |x| < i + |pat| <= |m|
      ensures !OccursAt(m, pat, i)
    {
      assert m[i..i + |pat|][|x| - i] == y[0];
    }
    if Contains(m, pat) {
      var i :| 0 <= i <= |m| && OccursAt(m, pat, i);
      if i + |pat| <= |x| {
        assert m[i..i + |pat|] == x[i..i + |pat|];
        assert OccursAt(x, pat, i);
      } else {
        assert m[i..i + |pat|] == y[i - |x|..i - |x| + |pat|];
        assert OccursAt(y, pat, i - |x|);
      }
    }
  }

  /**
   * A tag `a` that starts with its only `<` and differs from `pat` at index `d` hides no
   * occurrence of `pat` that starts inside it: any occurrence in `a + t` is one in `t`.
   */
  lemma LeadingTag(a: string, t: string, pat: string, d: int)
    requires OpensWithOnlyAngle(a) && OpensWithOnlyAngle(pat)
    requires 0 <= d < |a| && d < |pat| && a[d] != pat[d]
    ensures Contains(a + t, pat) ==> Contains(t, pat)
  {
    var m := a + t;
    forall i | 0 <= i < |a| && i + |pat| <= |m|
      ensures !OccursAt(m, pat, i)
    {
      if i == 0 {
        assert m[i..i + |pat|][d] == a[d];
      } else {
        assert m[i..i + |pat|][0] == a[i];
      }
    }
    if Contains(m, pat) {
      var i :| 0 <= i <= |m| && OccursAt(m, pat, i);
      assert m[i..i + |pat|] == t[i - |a|..i - |a| + |pat|];
      assert OccursAt(t, pat, i - |a|);
    }
  }

  /** A lower-case tag occurs in an upper-case match only inside its text. */
  lemma UpperCaseMatchHides(t: string, pat: string, d: int)
    requires OpensWithOnlyAngle(pat) && !Contains(t, pat)
    requires 0 <= d < 7 && d < |pat| && UpperOpenTag[d] != pat[d] && UpperCloseTag[d] != pat[d]
    ensures !Contains(UpperOpenTag + t + UpperCloseTag, pat)
  {
    var front := UpperOpenTag + t;
    assert UpperCloseTag + [] == UpperCloseTag;
    assert !Contains([], pat);
    SeamBeforeAngle(front, UpperCloseTag, pat);
    LeadingTag(UpperOpenTag, t, pat, d);
    LeadingTag(UpperCloseTag, [], pat, d);
  }

  /**
   * The title regex is case-insensitive but the two `replace` calls are not: a match with
   * upper-case tags, `<TITLE>t</TITLE>`, is kept whole, tags included, whenever its text
   * holds no lower-case tag of its own.
   */
  lemma StripTitleTagKeepsUpperCaseMatch(t: string)
    requires !Contains(t, OpenTag) && !Contains(t, CloseTag)
    ensures StripTitleTag(UpperOpenTag + t + UpperCloseTag) == UpperOpenTag + t + UpperCloseTag
  {
    UpperCaseMatchHides(t, OpenTag, 1);
    UpperCaseMatchHides(t, CloseTag, 2);
  }

  /**
   * The title of a fetched page: `match` gives null (no title tag) or the list of full
   * matches; the last one (`pop`) is stripped of its tags and entity-decoded.
   */
  function ExtractTitle(matches: seq<string>, decode: string -> string): (r: Result<string, BotError>)
    ensures r.Err? <==> matches == []
    ensures r.Err? ==> r.error == NoTitleTag
  {
    if matches == [] then Err(NoTitleTag)
    else Ok(decode(StripTitleTag(matches[|matches| - 1])))
  }

  /** Only the last match decides the title; the earlier ones are ignored. */
  lemma ExtractTitleTakesLastMatch(earlier: seq<string>, t: string, decode: string -> string)
    requires !Contains(t, CloseTag)
    ensures ExtractTitle(earlier + [OpenTag + t + CloseTag], decode) == Ok(decode(t))
  {
    StripTitleTagOfMatch(t);
  }
}
