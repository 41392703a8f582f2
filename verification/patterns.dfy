/** The two regular expressions the forms test input against: the email
    pattern `\S+@\S+\.\S+` (unanchored) and the phone pattern
    `^\+?[...]{10,}$` with a page-specific character class. */
module Patterns {
  import opened JsStrings

  /** `s[lo..hi]` is a non-empty run of non-white-space characters: what `\S+` matches. */
  predicate NonSpaceRun(s: string, lo: int, hi: int) {
    0 <= lo < hi <= |s| && forall k | lo <= k < hi :: !IsSpace(s[k])
  }

  /** The regex `\S+@\S+\.\S+` matches `s[lo..hi]`, with its '@' at `at` and its '.' at `dot`. */
  ghost predicate EmailMatchAt(s: string, lo: int, at: int, dot: int, hi: int) {
    && NonSpaceRun(s, lo, at)
    && at < |s| && s[at] == '@'
    && NonSpaceRun(s, at + 1, dot)
    && dot < |s| && s[dot] == '.'
    && NonSpaceRun(s, dot + 1, hi)
  }

  /** What `/\S+@\S+\.\S+/.test(s)` means: some substring of `s` matches the regex. */
  ghost predicate EmailRegexTest(s: string) {
    exists lo, at, dot, hi :: EmailMatchAt(s, lo, at, dot, hi)
  }

  /** The shape the executable check looks for: '@' at `at` after a non-space,
      '.' at `dot` with only non-spaces (at least one) between them, and a
      non-space right after the '.'. */
  predicate EmailShapeAt(s: string, at: int, dot: int) {
    && 1 <= at && at + 2 <= dot && dot + 2 <= |s|
    && s[at] == '@' && s[dot] == '.'
    && !IsSpace(s[at - 1]) && !IsSpace(s[dot + 1])
    && forall k | at < k < dot :: !IsSpace(s[k])
  }

  /** Executable form of the email regex test. */
  predicate LooksLikeEmail(s: string) {
    exists at, dot | 0 <= at < |s| && 0 <= dot < |s| :: EmailShapeAt(s, at, dot)
  }

  /** The executable check accepts exactly the strings the regex accepts. */
  lemma LooksLikeEmailIsRegexTest(s: string)
    ensures LooksLikeEmail(s) <==> EmailRegexTest(s)
  {
    if LooksLikeEmail(s) {
      var at, dot :| 0 <= at < |s| && 0 <= dot < |s| && EmailShapeAt(s, at, dot);
      assert EmailMatchAt(s, at - 1, at, dot, dot + 2);
    }
    if EmailRegexTest(s) {
      var lo, at, dot, hi :| EmailMatchAt(s, lo, at, dot, hi);
      assert EmailShapeAt(s, at, dot);
    }
  }

  /** A string without an '@' never passes the email test. */
  lemma EmailNeedsAt(s: string)
    requires forall k | 0 <= k < |s| :: s[k] != '@'
    ensures !EmailRegexTest(s)
  {
    forall lo, at, dot, hi
      ensures !EmailMatchAt(s, lo, at, dot, hi)
    {
      if 0 <= at < |s| {
        assert s[at] != '@';
      }
    }
  }

  /** White space alone never passes the email test. */
  lemma BlankIsNotEmail(s: string)
    requires AllSpace(s)
    ensures !EmailRegexTest(s)
  {
    forall lo, at, dot, hi
      ensures !EmailMatchAt(s, lo, at, dot, hi)
    {
      if 0 <= lo < |s| {
        assert IsSpace(s[lo]);
      }
    }
  }

  /** A character of the phone class: `[\d\s]` when `punctuation` is false,
      `[\d\s\-\(\)]` when it is true. */
  predicate PhoneChar(c: char, punctuation: bool) {
    IsDigit(c) || IsSpace(c) || (punctuation && (c == '-' || c == '(' || c == ')'))
  }

  predicate AllPhoneChars(s: string, punctuation: bool) {
    forall k | 0 <= k < |s| :: PhoneChar(s[k], punctuation)
  }

  /** `/^\+?[class]{10,}$/.test(s)`: an optional leading '+', then ten or more
      characters of the class and nothing else. The '+' is not in the class,
      so the two alternatives are told apart by the first character. */
  predicate PhoneRegexTest(s: string, punctuation: bool) {
    || (|s| >= 10 && AllPhoneChars(s, punctuation))
    || (|s| >= 11 && s[0] == '+' && AllPhoneChars(s[1..], punctuation))
  }

  /** Every phone the strict class accepts, the punctuated class accepts too. */
  lemma StrictPhoneIsPunctuatedPhone(s: string)
    requires PhoneRegexTest(s, false)
    ensures PhoneRegexTest(s, true)
  {
  }

  /** The strict class rejects any dash or parenthesis. */
  lemma StrictPhoneRejectsPunctuation(s: string, k: int)
    requires 0 <= k < |s| && s[k] in {'-', '(', ')'}
    ensures !PhoneRegexTest(s, false)
  {
    assert !PhoneChar(s[k], false);
    if k > 0 {
      assert s[1..][k - 1] == s[k];
    }
  }

  /** A '+' anywhere but the front is rejected. */
  lemma PhonePlusOnlyInFront(s: string, k: int, punctuation: bool)
    requires 0 < k < |s| && s[k] == '+'
    ensures !PhoneRegexTest(s, punctuation)
  {
    assert !PhoneChar(s[k], punctuation);
    assert s[1..][k - 1] == s[k];
  }
}
