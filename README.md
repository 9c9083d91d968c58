# sārāṃśa page core in Dafny

This project models the logic of the sārāṃśa ("summary") page in
`app/page.tsx`. A user pastes the link of an Instagram reel or post into an
input field and presses the button. The page then does five things:

- It cleans the link: trims it, then cuts it at the first `/?`, where the
  tracking query of a shared link begins.
- It checks the cleaned link against the reel/post URL pattern.
- It posts the link to the analysis service.
- It shows the returned reel data or an error.
- It formats view, like and comment counts (`1.5K`, `2.5M`) and durations
  (`45s`, `1:30`).

The modules follow the page's structure:

- `Strings` holds the JavaScript string operations the page relies on:
  `trim` with ECMAScript's whitespace set, `indexOf` and `padStart`.
- `Numerals` holds `Number.prototype.toString` for integers, with a parser to
  prove it round-trips.
- `Validation` holds `isValidInstagramUrl`. A character-by-character
  recogniser mirrors the regular expression. A declarative description of the
  matched language (`UrlOf`) sits beside it, and the two are proved to agree
  in both directions.
- `Cleaning` holds the trim-then-strip step and what it does to valid and to
  tracked links.
- `Format` holds `formatNumber` and `formatDuration` over integers.
  `toFixed(1)` is modelled as rounding to the nearest tenth, half up, and `%`
  as JavaScript's truncating remainder.
- `Page` holds the component's state, `url`, `data`, `loading` and `error`,
  as class `SaramsaPage`. `handleSubmit` is split into the part before the
  `fetch` (`StartRequest`), the part after it (`FinishRequest`) and the whole
  (`Submit`). The network's answer is an `Outcome` parameter.
- `Scenarios` holds sequences of user actions, proved from the class
  contracts alone.

## Model

| member | source | states |
|---|---|---|
| Strings.Trim | app/page.tsx:40 | The result is empty exactly when the input is all whitespace. Otherwise it is the input with its leading and trailing whitespace runs removed, and its ends are not whitespace. |
| Strings.TrimIdempotent | app/page.tsx:40 | Trimming twice is trimming once. |
| Strings.TrimKeepsAbsence | app/page.tsx:40 | A pattern absent from a string is absent from its trim. |
| Strings.IndexOf | app/page.tsx:42 | Returns -1 exactly when the pattern does not occur. Otherwise it returns an index where the pattern occurs, with no occurrence before it. |
| Strings.PadStart | app/page.tsx:93 | The result has length max(width, \|s\|), ends with `s` and is padded in front with the fill character only. |
| Numerals.NatToString | app/page.tsx:87 | The decimal numeral of n is all digits with no leading zero, denotes n, and has one digit exactly when n < 10. |
| Numerals.IntToString | app/page.tsx:87 | Negative numbers get a `-` in front of the numeral of their magnitude. The result is canonical: no superfluous leading zero and never `-0`. |
| Numerals.CanonicalIntUnique | app/page.tsx:87 | A canonical numeral that parses as `i` is exactly the numeral of `i`, so canonical form and value together fix the string. |
| Numerals.IntRoundTrip | app/page.tsx:87 | Parsing the numeral of any integer gives that integer back. |
| Numerals.IntToStringInjective | app/page.tsx:87 | Different integers have different numerals. |
| Validation.RecogniserMatchesLanguage | app/page.tsx:32-35 | The recogniser accepts a string exactly when it is `https://`, optionally `www.`, then `instagram.com/`, then `reel` or `p`, `/`, a non-empty run of `[A-Za-z0-9_-]` and an optional final `/`. |
| Validation.AcceptsUrlOf | app/page.tsx:33 | Every string built by the pattern is accepted. |
| Validation.AcceptedIsInLanguage | app/page.tsx:33 | Every accepted string is built by the pattern. |
| Validation.AcceptedCharacters | app/page.tsx:33 | An accepted URL uses letters, digits and `:/._-` only, so it holds no whitespace and no `?`. |
| Validation.AcceptedReelExample | app/page.tsx:33 | `https://www.instagram.com/reel/ABC123/` is accepted. |
| Validation.AcceptedPostExample | app/page.tsx:33 | `https://instagram.com/p/xyz_-9` is accepted. |
| Validation.RejectedSchemeExample | app/page.tsx:33 | An `http://` link is rejected. |
| Validation.RejectedEmptyExample | app/page.tsx:33 | The empty string is rejected. |
| Validation.RejectedStoryExample | app/page.tsx:33 | A `/story/` link is rejected. |
| Validation.RejectedEmptyIdExample | app/page.tsx:33 | `https://instagram.com/reel/` with no identifier is rejected. |
| Validation.RejectedQueryExample | app/page.tsx:33 | A link still carrying `?igsh=1` is rejected. |
| Cleaning.StripTracking | app/page.tsx:42-45 | With no `/?` the input is returned whole. Otherwise the input is cut just before the first `/?`. Either way the result holds no `/?`. |
| Cleaning.CleanUrl | app/page.tsx:40-45 | The cleaned URL is a prefix of the trimmed input and holds no `/?`. It is the whole trimmed input when that has no `/?`, and blank input cleans to the empty string. |
| Cleaning.StripIdempotent | app/page.tsx:42-45 | Stripping twice is stripping once. |
| Cleaning.CleanTwice | app/page.tsx:40-45 | Cleaning a cleaned URL again only trims it. |
| Cleaning.CleanNotIdempotent | app/page.tsx:40-45 | Cleaning as a whole is not idempotent: `"a /?x"` cleans to `"a "`, which cleans to `"a"`. |
| Cleaning.CleanKeepsPlain | app/page.tsx:40-45 | A string with no whitespace at its ends and no `?` is left unchanged. |
| Cleaning.ValidUrlIsClean | app/page.tsx:40-45 | Cleaning leaves a valid URL unchanged. |
| Cleaning.CleanDropsTrackingQuery | app/page.tsx:40-45 | Appending `/?` and any query to a valid link, then cleaning, gives back exactly the link. This holds with or without a final slash, and whatever the query ends with, a pasted newline included. |
| Format.RoundToTenths | app/page.tsx:85-86 | Gives the number of tenths of `unit` nearest to n, with halves rounded up. |
| Format.TenthsRoundTrip | app/page.tsx:85-86 | The one-decimal rendering of a count of tenths parses back to that count. |
| Format.FormatNumber | app/page.tsx:83-88 | A missing or zero count shows `0`. A count of a million or more shows its nearest tenth of a million with `M`, and one from a thousand up its nearest tenth of a thousand with `K`. Those numerals have no superfluous leading zero. Any other count shows a canonical numeral that parses as the count, which by `Numerals.CanonicalIntUnique` is its own `toString`. |
| Format.FormatNumberExamples | app/page.tsx:83-88 | A missing count and 0 both show `0`. 500, 1500 and 2500000 show `500`, `1.5K` and `2.5M`. |
| Format.ThousandsOverflowExample | app/page.tsx:86 | 999950 shows as `1000.0K`. |
| Format.FormatNumberRounded | app/page.tsx:83-88 | This is the corrected formatter. From 999950 up it shows millions, so every `K` display is below `1000.0`. The other cases, numeral form included, are as in the original. |
| Format.RoundedAgreesBelowOverflow | app/page.tsx:83-88 | Outside 999950..999999 the corrected formatter and the original agree. |
| Format.JsRemainder | app/page.tsx:92 | JavaScript's `%`: the dividend equals the quotient truncated toward zero, times the divisor, plus the remainder. The remainder takes the dividend's sign and is smaller than the divisor in magnitude. |
| Format.FormatDuration | app/page.tsx:90-94 | 0 to 59 seconds show as `<n>s`. From a minute up the display shows minutes and two-digit seconds that denote the input. A negative input shows its truncating remainder with `s`. |
| Format.MinutesAndSeconds | app/page.tsx:93 | `m:ss` shows `m*60+ss` seconds. |
| Format.TwoDigits | app/page.tsx:93 | Padding the seconds below 60 gives exactly two digits that denote them. |
| Format.FormatSecondsExamples | app/page.tsx:90-94 | 45 shows `45s` and 5 shows `5s`. |
| Format.FormatMinuteAndHalfExample | app/page.tsx:90-94 | 90 shows `1:30`. |
| Format.FormatWholeMinuteExample | app/page.tsx:90-94 | 60 shows `1:00`. |
| Page.SaramsaPage.constructor | app/page.tsx:27-30 | The page starts with an empty input, no data, no error and not loading. |
| Page.SaramsaPage.SetUrl | app/page.tsx:117 | Typing changes only the input text. |
| Page.SaramsaPage.InputDisabled | app/page.tsx:122 | Whenever the input is disabled, the button is disabled too. |
| Page.SaramsaPage.ButtonDisabled | app/page.tsx:126 | The button is disabled exactly while loading or while the input is all whitespace. Disabled with no request in flight implies the input would clean to the empty string. |
| Page.SaramsaPage.StartRequest | app/page.tsx:40-67 | An empty cleaned URL sets the empty-input error, and an invalid one sets the invalid-URL error. Both keep `data` and `loading` and send nothing. A valid one sends a POST of the cleaned URL to the analysis endpoint and sets loading, with data and error cleared. |
| Page.SaramsaPage.FinishRequest | app/page.tsx:61-80 | An ok response stores its body. An HTTP error shows `Analysis failed: <status> <statusText>`. A thrown Error shows its message and any other thrown value shows the fallback text. `loading` ends false. |
| Page.SaramsaPage.Submit | app/page.tsx:37-81 | All five exits of `handleSubmit`. The early ones set the error and keep the old data and loading flag. The others send the cleaned URL and end not loading, with either the new data or an error, never both. |
| Scenarios.StaleResultAfterInvalidSubmit | app/page.tsx:47-55 | A successful analysis followed by submitting a story link leaves the old result on screen beside the validation error, with no request. |
| Scenarios.FailureAfterSuccess | app/page.tsx:57-80 | A failed analysis after a successful one clears the old result and shows the failure message. |
| Scenarios.TrackedLinkSendsCleanUrl | app/page.tsx:40-75 | A valid link followed by `/?` and any tracking query sends the bare link, and the result replaces any error. |
| Scenarios.EnabledButEmptyAfterCleaning | app/page.tsx:46-50 | The input `/?igsh=1` leaves the button enabled, yet submitting it meets the empty-input error and sends nothing. |

## Left out

- The `fetch` call, the HTTP exchange and `response.json()` are not modelled. Their result is passed in as an `Outcome`: an ok body, an HTTP status with its text, or a thrown value. The body is taken to be a `ReelData`, and nothing checks the response's real shape.
- The request is modelled as its method, endpoint, content type and URL. `JSON.stringify`'s escaping of the body text is not modelled.
- `async` interleaving is not modelled. A second submit while a request is in flight, and React's batching of state updates, are outside the model. Each `handleSubmit` runs start to finish, with its state updates applied in order.
- `e?.preventDefault()` (line 38) is a browser event effect and is not modelled.
- Format.FormatNumber: the count is an integer, and `(num / unit).toFixed(1)` is modelled as exact rounding of `num / unit` to tenths, half up. The source rounds the double nearest to the quotient, which differs at exact half-tenths. For example, `1150 / 1000` is the double 1.14999999999999991…, so the source shows `1.1K` (and `1.1M` for 1150000), while the model shows `1.2K`. Non-integer counts are not modelled.
- Format.FormatNumber: every count is printed in full decimal digits. In the source, counts of 2^53 or more are not exact doubles. The `M` branch switches to exponent form from 1e27 up, and the plain branch does so for counts of -1e21 or less. `NaN`, which the source shows as `0`, has no counterpart in the model's count type. Negative counts take the plain branch, as in the source.
- Format.FormatDuration: seconds are integers, and fractional durations are not modelled.
- `maxLength={2048}` on the input is enforced by the browser, so the model puts no bound on the input text.
- Strings.IsWhitespace: it lists ECMAScript's WhiteSpace and LineTerminator characters as of the current Unicode space-separator category. A later Unicode version could add to that set.
- JSX rendering, animations and the result display are not modelled. That includes hiding an empty error string, and `components/loading.tsx` and `components/theme-switcher.tsx`. None of it changes the state.

## Notes on the code

These are behaviours of the code a reader might not expect. The model follows the code in each case.

- **The failure paths keep old data.** A failed submission does not always clear the previous result. Only the paths that reach `fetch` clear `data` (line 59). The empty-input and invalid-URL returns (lines 47-55) leave an earlier result on screen beside the new error. `Scenarios.StaleResultAfterInvalidSubmit` shows this.
- **Trimming comes first, and the cut is at `/?`.** The comment at line 41 speaks of "everything after `?`", but the code cuts at the first `/?`, after trimming. A link such as `…/reel/ABC?igsh=1` is therefore kept whole and then rejected by the pattern (`Validation.RejectedQueryExample`). Because the cut can expose whitespace, cleaning is not idempotent (`Cleaning.CleanNotIdempotent`).
- **There is no phase field.** The state is three independent fields, `data`, `loading` and `error` (lines 28-30), rather than a single phase value, and the class models those three.
- **Missing counts show `0`.** `formatNumber` shows `0` for a missing count (line 84), not a placeholder such as `N/A`.

## Findings

| source | as written | input that shows it | evidently intended | confidence | as-written member | corrected member |
|---|---|---|---|---|---|---|
| app/page.tsx:85-86 | Counts from 1000 up to 999999 are divided by 1000 and rounded to one decimal, so 999950 to 999999 round up to `1000.0` and show as `1000.0K`. | 999950 | Such counts show as `1.0M`, so a `K` display stays below 1000. | not executed; medium: derived from the `toFixed(1)` rounding rule | Format.ThousandsOverflowExample | Format.FormatNumberRounded |
