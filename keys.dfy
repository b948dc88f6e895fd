// Key validation: `validate_keys` in src/main.rs.
//
// The source tests each key against the anchored pattern `^[a-zA-Z0-9]+$`.
// The model does not run a regular-expression engine; it states what that
// pattern means: one or more characters, each an ASCII letter or digit.
// Rust's `$` (without multi-line mode) matches only at the very end of the
// text, so a key with a trailing newline does not match.

module Keys {

  /** The character class `[a-zA-Z0-9]`. */
  predicate IsAsciiAlphanumeric(c: char) {
    ('a' <= c <= 'z') || ('A' <= c <= 'Z') || ('0' <= c <= '9')
  }

  /** Every character of `s` belongs to `[a-zA-Z0-9]`. */
  predicate AllAsciiAlphanumeric(s: string) {
    forall i :: 0 <= i < |s| ==> IsAsciiAlphanumeric(s[i])
  }

  /** `^[a-zA-Z0-9]+$` read one character at a time: a first character from
      the class, then either the end of the text or another match of the
      same pattern. */
  predicate MatchesKeyPattern(s: string) {
    |s| > 0 && IsAsciiAlphanumeric(s[0]) && (|s| == 1 || MatchesKeyPattern(s[1..]))
  }

  /** The pattern accepts exactly the non-empty strings drawn from the class. */
  lemma {:induction false} MatchesKeyPatternMeaning(s: string)
    ensures MatchesKeyPattern(s) <==> |s| > 0 && AllAsciiAlphanumeric(s)
  {
    if |s| > 1 {
      MatchesKeyPatternMeaning(s[1..]);
      assert forall i :: 1 <= i < |s| ==> s[i] == s[1..][i - 1];
    }
  }

  /** `validate_keys(api_key, app_key)`: both keys non-empty and both
      matching the pattern. */
  function ValidateKeys(apiKey: string, appKey: string): (valid: bool)
    ensures valid <==>
      |apiKey| > 0 && |appKey| > 0 &&
      AllAsciiAlphanumeric(apiKey) && AllAsciiAlphanumeric(appKey)
  {
    MatchesKeyPatternMeaning(apiKey);
    MatchesKeyPatternMeaning(appKey);
    |apiKey| > 0 && |appKey| > 0 && MatchesKeyPattern(apiKey) && MatchesKeyPattern(appKey)
  }

  /** The explicit emptiness tests add nothing to the pattern test: the `+`
      already rejects the empty string. */
  lemma EmptinessTestsAreImplied(apiKey: string, appKey: string)
    ensures ValidateKeys(apiKey, appKey) <==>
      MatchesKeyPattern(apiKey) && MatchesKeyPattern(appKey)
  {
  }

  /** A single character outside the class in either key rejects the pair;
      this covers spaces, punctuation, control characters and every
      non-ASCII character, alphabetic or not. */
  lemma RejectsForeignCharacter(apiKey: string, appKey: string, i: nat)
    requires (i < |apiKey| && !IsAsciiAlphanumeric(apiKey[i])) ||
             (i < |appKey| && !IsAsciiAlphanumeric(appKey[i]))
    ensures !ValidateKeys(apiKey, appKey)
  {
  }

  /** Sample keys: accepted, empty, with a space, with punctuation, with a
      non-ASCII letter, and with a trailing newline. */
  lemma ValidateKeysExamples()
    ensures ValidateKeys("abc123", "XYZ789") && ValidateKeys("abc123", "def456")
    ensures !ValidateKeys("", "XYZ789") && !ValidateKeys("abc123", "")
    ensures !ValidateKeys("abc 123", "XYZ789")
    ensures !ValidateKeys("abc123", "XYZ-789")
    ensures !ValidateKeys("café", "XYZ789")
    ensures !ValidateKeys("abc123\n", "XYZ789")
  {
    assert !IsAsciiAlphanumeric("abc 123"[3]);
    assert !IsAsciiAlphanumeric("XYZ-789"[3]);
    assert !IsAsciiAlphanumeric("café"[3]);
    assert !IsAsciiAlphanumeric("abc123\n"[6]);
  }
}
