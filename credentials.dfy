// The credential branch of `main` (src/main.rs:43-67) and the keys that
// reach the request headers (src/main.rs:73-74).
//
// Inside the `if`, `let mut api_key` and `let mut app_key` declare NEW
// variables that shadow the references taken from the command line. The
// trimmed input is assigned to those inner variables, which go out of scope
// at the closing brace, so the headers are always built from the
// command-line values. `ResolveCredentials` keeps that scoping (a `var`
// inside the block shadows the outer one in Dafny as well);
// `ResolveCredentialsIntended` is the branch with the prompted keys kept.
//
// The two lines read from standard input are parameters: `apiKeyLine` and
// `appKeyLine` are what `read_line` put into the fresh strings.

module Credentials {
  import opened Keys
  import opened Text

  /** The keys placed in the `DD-API-KEY` and `DD-APPLICATION-KEY` headers,
      and whether the user was prompted for keys. */
  datatype Resolution = Resolution(apiKey: string, appKey: string, prompted: bool)

  /** The branch as written. */
  method ResolveCredentials(cliApiKey: string, cliAppKey: string, apiKeyLine: string, appKeyLine: string)
    returns (r: Resolution)
    ensures r.prompted == !ValidateKeys(cliApiKey, cliAppKey)
    ensures r.apiKey == cliApiKey && r.appKey == cliAppKey
  {
    var apiKey := cliApiKey;
    var appKey := cliAppKey;
    var prompted := false;
    if !ValidateKeys(apiKey, appKey) {
      prompted := true;
      var apiKey := apiKeyLine;
      var appKey := appKeyLine;
      apiKey := Trim(apiKey);
      appKey := Trim(appKey);
    }
    r := Resolution(apiKey, appKey, prompted);
  }

  /** The branch with the trimmed input assigned to the outer variables, as
      the prompt evidently means. The input is still not validated again. */
  method ResolveCredentialsIntended(cliApiKey: string, cliAppKey: string, apiKeyLine: string, appKeyLine: string)
    returns (r: Resolution)
    ensures r.prompted == !ValidateKeys(cliApiKey, cliAppKey)
    ensures !r.prompted ==> r.apiKey == cliApiKey && r.appKey == cliAppKey
    ensures r.prompted ==> r.apiKey == Trim(apiKeyLine) && r.appKey == Trim(appKeyLine)
    ensures HasNoOuterWhitespace(r.apiKey) && HasNoOuterWhitespace(r.appKey)
  {
    var apiKey := cliApiKey;
    var appKey := cliAppKey;
    var prompted := false;
    if !ValidateKeys(apiKey, appKey) {
      prompted := true;
      apiKey := Trim(apiKeyLine);
      appKey := Trim(appKeyLine);
    }
    r := Resolution(apiKey, appKey, prompted);
  }

  /** Whenever the user is prompted and types two valid keys, the branch as
      written still sends the command-line keys, which failed validation;
      the intended branch sends keys that pass it. */
  method PromptedKeysAreDiscarded(cliApiKey: string, cliAppKey: string, apiKeyLine: string, appKeyLine: string)
    returns (asWritten: Resolution, intended: Resolution)
    requires !ValidateKeys(cliApiKey, cliAppKey)
    requires ValidateKeys(Trim(apiKeyLine), Trim(appKeyLine))
    ensures asWritten.prompted && intended.prompted
    ensures !ValidateKeys(asWritten.apiKey, asWritten.appKey)
    ensures ValidateKeys(intended.apiKey, intended.appKey)
    ensures asWritten != intended
  {
    asWritten := ResolveCredentials(cliApiKey, cliAppKey, apiKeyLine, appKeyLine);
    intended := ResolveCredentialsIntended(cliApiKey, cliAppKey, apiKeyLine, appKeyLine);
  }

  /** Two valid keys typed at the prompts pass validation once `read_line`'s
      newline is trimmed off. */
  lemma ValidKeyLinesPassAfterTrim(apiKey: string, appKey: string)
    requires ValidateKeys(apiKey, appKey)
    ensures ValidateKeys(Trim(apiKey + "\n"), Trim(appKey + "\n"))
  {
    assert !IsWhitespace(apiKey[0]) && !IsWhitespace(apiKey[|apiKey| - 1]);
    assert !IsWhitespace(appKey[0]) && !IsWhitespace(appKey[|appKey| - 1]);
    TrimDropsLineEnd(apiKey);
    TrimDropsLineEnd(appKey);
  }
}
