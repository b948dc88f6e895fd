# dd-unqueried-metrics, verified model

`dd-unqueried-metrics` is a one-shot command-line tool. It takes a monitoring
vendor's API key and application key from the command line, or prompts for
them, and requests the metrics that were queried in the last 14 days under a
fixed tag filter. It then writes each returned metric id to a CSV file named
after the local date, `dd-unqueried-metrics-DD-MM-Y.csv`.

This project models the decidable logic inside `main` in `src/main.rs`:

- `keys.dfy` (module `Keys`): `validate_keys`. The pattern `^[a-zA-Z0-9]+$`
  is stated by what it means, one or more ASCII letters or digits. It is also
  read one character at a time, and the two readings are proved equal.
- `decimal.dfy` (module `Decimal`): the `{}` and `{:02}` integer formats used
  by `format!`, and a parser that reads the digits back.
- `export_file.dfy` (module `ExportFile`): the date text `DD-MM-Y` and the
  export file name. Both are proved to parse back to the date.
- `text.dfy` (module `Text`): Rust's `str::trim`. Whitespace is Unicode
  White_Space, as `char::is_whitespace` defines it.
- `credentials.dfy` (module `Credentials`): the credential branch, including
  the shadowing that discards the prompted keys (see Findings). A corrected
  branch sits beside it.
- `export.dfy` (module `Export`): the loop that counts the metrics and hands
  each id to the CSV writer.

Two behaviours of the code are easy to misread, and the model follows the code
in both:

- The prompt messages at `src/main.rs:52-55`, and the comment at line 64
  about cleaning up "the input", show that the typed keys are meant to
  replace the command-line keys. The shadowing drops them (see Findings).
- Day and month are printed with `{:02}`, but the year is printed with `{}`,
  which does not pad. So year 987 gives `25-12-987`, not a four-digit year.

## Model

| member | source | states |
|---|---|---|
| Keys.MatchesKeyPatternMeaning | src/main.rs:31 | the anchored pattern `^[a-zA-Z0-9]+$` accepts a string iff it is non-empty and every character is an ASCII letter or digit |
| Keys.ValidateKeys | src/main.rs:30-36 | true iff both keys are non-empty and every character of each is in `[A-Za-z0-9]` |
| Keys.EmptinessTestsAreImplied | src/main.rs:31-35 | the two `is_empty` tests add nothing: the result equals the two pattern matches alone |
| Keys.RejectsForeignCharacter | src/main.rs:31-35 | one character outside `[A-Za-z0-9]` in either key (a space, punctuation, a control or non-ASCII character) makes the pair invalid |
| Keys.ValidateKeysExamples | src/main.rs:30-36 | sample pairs: two alphanumeric keys pass; an empty key, a space, a `-`, `é`, or a trailing newline each fail |
| Decimal.Digits | src/main.rs:48 | `{}` on a non-negative value: at least one decimal digit, no leading zero unless the value is 0, one digit exactly below 10, two digits for 10..99 |
| Decimal.ValueOfDigits | src/main.rs:48 | reading the printed digits back gives the number |
| Decimal.Pad2 | src/main.rs:48 | `{:02}`: only digits, reads back to the value, width 2 for every value below 100, a leading `0` below 10, unchanged digits from 10 up |
| Decimal.FormatInteger | src/main.rs:48 | `{}` on a signed year: a `-` exactly for negative values, no leading zero (unpadded), and the text parses back to the value |
| Decimal.DigitsUnique | src/main.rs:48 | a digit string with no leading zero that denotes `n` is exactly `Digits(n)` |
| Decimal.FormatIntegerUnique | src/main.rs:48 | the unpadded text parsing to `n` is unique and equals `FormatInteger(n)`, so a padded year such as `02024` is never printed |
| ExportFile.FormatDate | src/main.rs:48 | for a day in 1..31 and a month in 1..12: two-digit zero-padded day and month, `-` at positions 2 and 5, then the unpadded year; the text parses back to the same date |
| ExportFile.FormatDateParts | src/main.rs:48 | characters 0-1 read back as the day, 3-4 as the month, and everything after the second `-` as the year |
| ExportFile.FormatDateExample | src/main.rs:48 | 3 January 2024 formats as `03-01-2024` |
| ExportFile.FormatDateShortYearExample | src/main.rs:48 | year 987 is not padded: 25 December 987 formats as `25-12-987` |
| ExportFile.ExportPath | src/main.rs:92 | the name is `dd-unqueried-metrics-`, then the date text, then `.csv`, and it parses back to the date |
| ExportFile.ExportPathInjective | src/main.rs:92 | different dates give different file names |
| ExportFile.ExportPathExample | src/main.rs:92 | 3 January 2024 gives `dd-unqueried-metrics-03-01-2024.csv` |
| Text.TrimStart | src/main.rs:65-66 | the result is a suffix of the input, everything removed is whitespace, and the result does not start with whitespace |
| Text.TrimEnd | src/main.rs:65-66 | the result is a prefix of the input, everything removed is whitespace, and the result does not end with whitespace |
| Text.Trim | src/main.rs:65-66 | the result is a slice of the input with only whitespace cut from each end, and it has no whitespace at either end |
| Text.TrimLeavesTrimmedText | src/main.rs:65-66 | a string with no whitespace at either end is unchanged |
| Text.TrimIdempotent | src/main.rs:65-66 | trimming twice gives the same as trimming once |
| Text.TrimDropsLineEnd | src/main.rs:57-66 | a line read with its newline loses exactly the newline when the text has no whitespace at its ends |
| Text.TrimPaddedExample | src/main.rs:65-66 | `" a b\r\n"` trims to `"a b"`: leading blanks and the `\r\n` go, the inner blank stays |
| Credentials.ResolveCredentials | src/main.rs:43-74 | the user is prompted exactly when the command-line keys fail `validate_keys`, and the header keys are the command-line keys unchanged whatever is typed |
| Credentials.ResolveCredentialsIntended | src/main.rs:50-66 | corrected branch: prompted exactly when the command-line keys fail; if prompted, the header keys are the trimmed typed lines, otherwise the command-line keys; either way no header key has whitespace at its ends |
| Credentials.PromptedKeysAreDiscarded | src/main.rs:56-74 | if the user is prompted and types valid keys, the branch as written still sends the invalid command-line keys, and the corrected branch sends keys that pass validation |
| Credentials.ValidKeyLinesPassAfterTrim | src/main.rs:57-66 | two valid keys typed at the prompts, each with `read_line`'s newline, still pass validation after `trim` |
| Export.Ids | src/main.rs:100-103 | one record per metric, in input order, and record i is the id of metric i |
| Export.ExportMetrics | src/main.rs:98-104 | after the loop the count equals the number of metrics (0 for no data), and the records written are exactly their ids in input order |
| Export.IdsAppend | src/main.rs:100-103 | the records of a concatenation are the records of the first part followed by those of the second |
| Export.ExportIgnoresMetricType | src/main.rs:100-103 | the metric type is never written: inputs that agree on ids give the same records |
| Export.ExportExamples | src/main.rs:98-106 | two metrics give the records `my.metric.one`, `my.metric.two`; empty data gives none |

## Findings

| source | as written | input that shows it | evidently intended | confidence | as-written member | corrected member |
|---|---|---|---|---|---|---|
| src/main.rs:56-74 | `let mut api_key` and `let mut app_key` inside the `if` declare new variables. The trimmed prompt input is stored in them and goes out of scope at line 67, and the headers use the command-line keys. | no `--api-key`/`--app-key` flags (both `""`), with `abc123` and `def456` typed at the prompts: the headers carry `""` and `""` | the typed, trimmed keys replace the command-line keys in the headers | high (not executed) | Credentials.ResolveCredentials, Credentials.PromptedKeysAreDiscarded | Credentials.ResolveCredentialsIntended |

`Keys.ValidateKeysExamples` shows that `("", "")` fails validation and that
`("abc123", "def456")` passes. `Credentials.ValidKeyLinesPassAfterTrim` shows
that the typed lines still pass after `trim`. So this input meets the
conditions of `Credentials.PromptedKeysAreDiscarded`.

## Left out

- HTTP: the endpoint URL, the query string, `HeaderMap`/`HeaderValue::from_str`, the `reqwest` client and sending the request (src/main.rs:69-88). These are network I/O and foreign library code. The keys the headers would carry are the model's output.
- JSON decoding with `serde_json::from_str` (src/main.rs:90). This is a foreign parser. The decoded sequence of `Metric` is the export loop's input.
- The `csv` crate (src/main.rs:94-96, 103, 108): the header line for a bare string record, quoting and escaping, creating and truncating the file, and `flush`. The writer is modelled as the sequence of records it receives. The header content, and reading the file back, are not modelled.
- `Local::today()` and time zones (src/main.rs:47). The date is an input. Checking that a day fits its month is chrono's business and is not modelled.
- `StructOpt` argument parsing (src/main.rs:42), including its empty defaults. The command-line keys are inputs.
- `io::stdin().read_line` (src/main.rs:57, 62). The lines read are inputs. A read failure, which panics through `expect`, is not modelled.
- Console output with `println!` (src/main.rs:51-52, 55, 60, 80, 102, 106), including the per-metric echo and the summary line.
- The `tokio` runtime and `.await` (src/main.rs:38, 86-88). Each stage runs once, in order.
- Every `?` error path (header construction, request, decoding, file creation, `serialize`, `flush`). Each one stops the run. They are left out as foreign-library behaviour. `HeaderValue::from_str` at src/main.rs:73-74 does depend only on the keys this model outputs: it rejects characters outside visible ASCII, so a command-line key `café` fails validation, the typed keys are dropped, and the run then aborts there. The http crate's test is not modelled.
- The regex crate as an engine (src/main.rs:31). Only the character class it encodes is modelled.
- Export.ExportMetrics: `metric_count` is an unbounded `nat`. In the source it is an `i32`, which would overflow above 2147483647 metrics.
