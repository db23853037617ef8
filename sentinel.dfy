/** The error sentinel of the row loop: a captured page is fatal when its
    lower-cased source contains any of a fixed list of keywords. */
module Sentinel {

  /** The keywords of `errorKeywords`, in the order the source lists them. */
  const Keywords: seq<string> := [
    "no data", "session expired", "error", "maintenance", "not available",
    "temporarily unavailable", "try again later", "invalid", "unauthorized", "forbidden",
    "user validation required to continue"
  ]

  /** Lower-casing of one character, for the ASCII letters. */
  function LowerChar(c: char): (l: char)
    ensures !('A' <= l <= 'Z')
    ensures !('A' <= c <= 'Z') ==> l == c
  {
    if 'A' <= c <= 'Z' then (c as int - 'A' as int + 'a' as int) as char else c
  }

  /** `s.toLowerCase()` on ASCII letters. */
  function ToLower(s: string): (r: string)
    ensures |r| == |s|
    ensures forall k :: 0 <= k < |s| ==> r[k] == LowerChar(s[k])
  {
    if s == [] then [] else [LowerChar(s[0])] + ToLower(s[1..])
  }

  /** `needle` occurs in `text` starting at position `at`. */
  predicate OccursAt(text: string, needle: string, at: int) {
    0 <= at && at + |needle| <= |text| && text[at..at + |needle|] == needle
  }

  /** `text.includes(needle)`, searching from the left. */
  function Includes(text: string, needle: string): (found: bool)
    ensures found <==> exists at :: OccursAt(text, needle, at)
    decreases |text|
  {
    if |needle| > |text| then
      assert forall at :: !OccursAt(text, needle, at);
      false
    else if text[..|needle|] == needle then
      assert OccursAt(text, needle, 0);
      true
    else
      var rest := Includes(text[1..], needle);
      assert forall at :: OccursAt(text, needle, at) && at > 0 ==> OccursAt(text[1..], needle, at - 1);
      assert forall at :: OccursAt(text[1..], needle, at) ==> OccursAt(text, needle, at + 1);
      rest
  }

  /** `keywords.some(keyword => text.includes(keyword))`, left to right. */
  function AnyIncluded(text: string, keywords: seq<string>): (found: bool)
    ensures found <==> exists k :: 0 <= k < |keywords| && Includes(text, keywords[k])
  {
    if keywords == [] then false
    else if Includes(text, keywords[0]) then true
    else
      var rest := AnyIncluded(text, keywords[1..]);
      assert forall k :: 1 <= k < |keywords| ==> keywords[k] == keywords[1..][k - 1];
      rest
  }

  /** The sentinel: is this page source a fatal state of the registry? */
  predicate IsFatal(pageSource: string) {
    AnyIncluded(ToLower(pageSource), Keywords)
  }

  /** The page is fatal exactly when some keyword occurs somewhere in its
      lower-cased source. */
  lemma IsFatalMeansKeywordOccurs(pageSource: string)
    ensures IsFatal(pageSource) <==>
              exists k, at :: 0 <= k < |Keywords| && OccursAt(ToLower(pageSource), Keywords[k], at)
  {
    var low := ToLower(pageSource);
    if IsFatal(pageSource) {
      var k :| 0 <= k < |Keywords| && Includes(low, Keywords[k]);
      var at :| OccursAt(low, Keywords[k], at);
      assert OccursAt(ToLower(pageSource), Keywords[k], at);
      assert exists k', at' :: 0 <= k' < |Keywords| && OccursAt(ToLower(pageSource), Keywords[k'], at');
    } else {
      forall k, at | 0 <= k < |Keywords| ensures !OccursAt(low, Keywords[k], at) {
        assert !Includes(low, Keywords[k]);
      }
    }
  }

  /** Lower-casing is idempotent, so the sentinel cannot tell a page from
      its lower-cased copy: the match ignores case. */
  lemma {:induction false} ToLowerIdempotent(s: string)
    ensures ToLower(ToLower(s)) == ToLower(s)
  {
    forall k | 0 <= k < |s| ensures ToLower(ToLower(s))[k] == ToLower(s)[k] {
      assert LowerChar(LowerChar(s[k])) == LowerChar(s[k]);
    }
  }

  lemma IsFatalIgnoresCase(pageSource: string)
    ensures IsFatal(ToLower(pageSource)) == IsFatal(pageSource)
  {
    ToLowerIdempotent(pageSource);
  }

  /** Any page that shows a keyword, in any letter case, is fatal. */
  lemma {:induction false} KeywordAnywhereIsFatal(before: string, k: nat, shown: string, after: string)
    requires k < |Keywords|
    requires ToLower(shown) == Keywords[k]
    ensures IsFatal(before + shown + after)
  {
    var page := before + shown + after;
    var low := ToLower(page);
    assert low[|before|..|before| + |shown|] == ToLower(shown);
    assert OccursAt(low, Keywords[k], |before|);
  }

  /** "Session Expired", in either of two letter cases and anywhere in a
      page, makes it fatal. */
  lemma SessionExpiredIsFatal(before: string, shown: string, after: string)
    requires shown == "Session Expired" || shown == "SESSION EXPIRED"
    ensures IsFatal(before + shown + after)
  {
    LowersToKeyword(shown, 1);
    KeywordAnywhereIsFatal(before, 1, shown, after);
  }

  lemma LowersToKeyword(shown: string, k: nat)
    requires k < |Keywords| && |shown| == |Keywords[k]|
    requires forall j :: 0 <= j < |shown| ==> LowerChar(shown[j]) == Keywords[k][j]
    ensures ToLower(shown) == Keywords[k]
  {
  }

  /** A page shorter than every keyword is never fatal. */
  lemma ShortPageIsNotFatal(pageSource: string)
    requires |pageSource| < 5
    ensures !IsFatal(pageSource)
  {
    forall k | 0 <= k < |Keywords| ensures !Includes(ToLower(pageSource), Keywords[k]) {
      assert |Keywords[k]| >= 5;
    }
  }
}
