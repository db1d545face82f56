# QRtichoke input pipeline, modelled in Dafny

QRtichoke is a browser form that turns text into a QR-code image. All of its
logic lives in the `App` component (`src/App.tsx`). When the text or the
options change, the component does four things:

1. it **sanitizes** the text. DOMPurify strips markup, a regular expression
   removes most control characters, and `trim()` removes white space at both
   ends;
2. it **validates** the raw and the sanitized text. An ordered chain of
   checks returns a warning, an error or nothing, and the first check that
   fires wins;
3. it **gates** generation. Only some inputs may generate. The gate itself
   starts at most 30 generations per minute and defers a generation that
   comes less than 100 ms after the last one. The text is encoded with clamped options, and the result is
   kept only if it is a PNG data URL;
4. **download and copy** refuse anything that is not a PNG data URL. The
   download file name keeps only `[A-Za-z0-9.-]`.

The model is split into five modules:

- `JsText` holds JavaScript strings as sequences of UTF-16 code units, since
  `.length` counts code units. It fixes the ECMAScript white-space set used
  by both `trim()` and `\s`: tab, LF, VT, FF, CR, space, U+00A0, U+1680,
  U+2000-U+200A, U+2028, U+2029, U+202F, U+205F, U+3000 and U+FEFF. It also
  defines `trim()` and `replace(/[class]/g, '')`.
- `Sanitizer` models `sanitizeInput`.
- `Validation` models `validateInput`. This includes a scanner for each
  dangerous pattern, and a proof that the greedy scan for `on\w+\s*=` agrees
  with the regular expression's own meaning.
- `RateGate` holds the gate's time checks and counter updates as functions.
  It also proves a bound over whole sequences of runs.
- `QrGenerator` holds the component state as the class `QrApp`. It has
  `RunEffect` (the `useEffect`), `GenerateQrCode`, and the download and copy
  guards.

Three things outside the component are parameters:

- DOMPurify is an arbitrary function `purify`.
- `QRCode.toDataURL` is an arbitrary function `encode` that returns a data
  URL or a failure.
- `Date.now()` is an argument `now`.

DOMPurify returns a string that contains no `<` unchanged. So the lemmas
about plain text assume `purify(text) == text`.

Case-insensitive matching is ASCII case folding. All the patterns are ASCII.
Without the `u` flag, a non-ASCII code unit never matches an ASCII one under
`i`, so ASCII folding is exact here. `\w` is `[A-Za-z0-9_]`.

## Behaviour of the code worth knowing

The model follows the code in each case below.

- The rate limit is 30 per minute in the code (src/App.tsx:304). The only
  other limit in the repository is the 100 of
  `RATE_LIMIT_MAX_REQUESTS_PER_MINUTE_WHEN_ENABLED` in
  src/Helpers/config.ts:12, a file the component does not import.
- There is no debounce and nothing is cancelled. A change that comes less
  than 100 ms after the last generation schedules a timer
  (src/App.tsx:313-315), and every such timer would generate. The model
  returns `Deferred(100 - elapsed)`.
- The time window is measured from the last generation, not from a fixed
  start. `lastGenerationTime` is set on every generation
  (src/App.tsx:328).
- The window resets only after strictly more than 60000 ms, and it blocks
  only below 60000 ms. At exactly 60000 ms it neither resets nor blocks
  (`RateGate.ExactlyOneMinute`).
- The check on the length change runs before the length and pattern checks.
  So plain text whose sanitized form is not empty and that has white space
  at either end always gets the invalid-characters **warning**, and goes on
  to the rate-limit and interval checks
  (`Validation.PlainTextPaddingOnlyWarns`). Text whose sanitized form is
  empty gets no message (src/App.tsx:228-230); if the raw text is blank as
  well, the image is cleared (src/App.tsx:293, 320). An unsafe text followed
  by one space is no longer rejected
  (`QrGenerator.PaddedUnsafeTextReachesEncoder`).
- The gate tests the raw text for blankness (src/App.tsx:293), not the
  sanitized text. A raw input that is not blank but sanitizes to nothing
  passes validation and goes on to the rate-limit and interval checks, so
  the encoder may be asked for the empty text
  (`QrGenerator.EmptySanitizedTextReachesEncoder`). A lone U+0001 is such an
  input (`QrGenerator.ControlOnlyTextReachesEncoder`).
- The sanitized text is never longer than what DOMPurify returned. It can be
  longer than the raw input, because an HTML serialiser escapes `&` and
  similar characters. The model therefore bounds it only by `purify(text)`.

## Model

| member | source | states |
|---|---|---|
| `JsText.Trim` | src/App.tsx:220 | the result is the infix left after removing white space at both ends: everything outside it is white space, it does not start or end with white space, it is empty exactly when the input is all white space, and trimmed input is unchanged |
| `JsText.RemoveAll` | src/App.tsx:219 | the result holds no code unit of the class, is never longer, and has the same length exactly when nothing was removed, in which case it is the input |
| `JsText.RemoveAllConcat` | src/App.tsx:219 | removal distributes over concatenation, so the survivors stay in their order |
| `Sanitizer.Sanitize` | src/App.tsx:209-221 | the output has no code unit in 0x00-0x08, 0x0B, 0x0C, 0x0E-0x1F or 0x7F, has no white space at either end, and is no longer than the purifier's output |
| `Sanitizer.SanitizeIdempotent` | src/App.tsx:209-221 | sanitizing sanitized text changes nothing when the purifier leaves it alone |
| `Sanitizer.PlainTextKept` | src/App.tsx:217-220 | for input the purifier leaves alone, the length is kept exactly when the text is kept, which happens exactly when it has no stripped control character and no white space at either end |
| `Sanitizer.PlainTextPaddingRemoved` | src/App.tsx:218-220 | plain input that starts or ends in white space always gets shorter |
| `Validation.FindLiteralFrom` | src/App.tsx:250-257 | the case-insensitive scan for a literal pattern succeeds exactly when the literal occurs at some offset |
| `Validation.EventHandlerScanIsRegex` | src/App.tsx:254 | the greedy scan for `on\w+\s*=` succeeds at an offset exactly when `on`, one or more word characters, any white space and `=` start there |
| `Validation.FindEventHandlerFrom` | src/App.tsx:254 | the scan for the event-handler pattern succeeds exactly when it matches at some offset |
| `Validation.AnyMatches` | src/App.tsx:260-267 | the loop over the patterns finds a match exactly when some pattern of the list matches |
| `Validation.ControlCount` | src/App.tsx:270 | the number of matches of `[\x00-\x1F\x7F-\x9F]` is how much removing that class shortens the text |
| `Validation.Validate` | src/App.tsx:224-286 | validation only yields the five input issues, never the rate-limit or generation errors |
| `Validation.EmptyInputAccepted` | src/App.tsx:226-230 | empty or all-white-space sanitized text gives no issue |
| `Validation.RemovedContentWarnsFirst` | src/App.tsx:232-238 | for non-empty sanitized text, the invalid-characters warning is given exactly when sanitizing changed the length |
| `Validation.TooLongOnlyWhenNothingRemoved` | src/App.tsx:233-246 | the too-long error is given exactly when nothing was removed and the text exceeds 2953 code units |
| `Validation.LengthBoundary` | src/App.tsx:241-246 | 2953 code units are never a length error; 2954 with nothing removed always are |
| `Validation.DangerousContentRejected` | src/App.tsx:249-267 | once the earlier checks pass, a match of any one dangerous pattern gives the unsafe-content error |
| `Validation.UnsafeContentExactly` | src/App.tsx:232-267 | the unsafe-content error is given exactly when the earlier checks pass and some dangerous pattern matches |
| `Validation.FinalChecks` | src/App.tsx:269-285 | after the pattern check: more than 10 control characters warns first, then more than 1000 code units warns, otherwise no issue |
| `Validation.LongTextRange` | src/App.tsx:241-283 | the long-text warning only occurs between 1001 and 2953 code units |
| `Validation.PlainTextTooLong` | src/App.tsx:226-246 | for plain input, the too-long error is given exactly when it is over 2953 long, has no stripped control character and no white space at either end |
| `Validation.PlainTextPaddingOnlyWarns` | src/App.tsx:218-238 | plain input whose sanitized form is not empty and that starts or ends in white space always gets the invalid-characters warning |
| `RateGate.TimeGate` | src/App.tsx:296-318 | blocked exactly when 30 or more were counted and less than 60000 ms passed; deferred until 100 ms after the last generation when earlier; generated only after at least 100 ms and when under the limit or a minute has passed |
| `RateGate.AfterGeneration` | src/App.tsx:299-301 | after a generation the last time is now, and the count is 1 after more than a minute of quiet, else one more |
| `RateGate.ExactlyOneMinute` | src/App.tsx:299-304 | at exactly 60000 ms the count is neither reset nor blocks, and it grows by one |
| `RateGate.GenerationsAfterOneInWindow` | src/App.tsx:296-310 | after a generation inside a window shorter than a minute, at most the rest of the 30 follow inside it |
| `RateGate.AtMostThirtyPerWindow` | src/App.tsx:296-318 | the gate starts at most 30 generations in any window shorter than a minute, from any prior state |
| `QrGenerator.Clamp` | src/App.tsx:336-337 | the result lies in [lo, hi], equals the input when in range, and is the nearer bound otherwise |
| `QrGenerator.EncoderOptions` | src/App.tsx:334-339 | width is in [128, 1024] and margin in [0, 10], each unchanged when already in range; level and colors pass through |
| `QrGenerator.EffectOutcome` | src/App.tsx:293-321 | the image is cleared exactly when the raw input is blank or validation gave an error; otherwise the time checks decide |
| `QrGenerator.ErrorsNeverGenerate` | src/App.tsx:293 | a validation error always clears the image |
| `QrGenerator.EmptySanitizedTextReachesEncoder` | src/App.tsx:226-230 | raw input that is not blank but sanitizes to nothing validates as fine and passes to the time checks |
| `QrGenerator.ControlOnlyTextReachesEncoder` | src/App.tsx:217-230 | a lone U+0001 sanitizes to nothing, validates as fine and passes to the time checks |
| `QrGenerator.PaddedTextSanitizes` | src/App.tsx:209-221 | text with no stripped control and non-space ends, followed by one space, trims and sanitizes back to the text itself |
| `QrGenerator.PaddedUnsafeTextReachesEncoder` | src/App.tsx:232-267 | unsafe plain text is rejected, but the same text and one space sanitizes back to it, only warns, and passes to the time checks |
| `QrGenerator.Decimal` | src/App.tsx:370 | the timestamp's text is one or more decimal digits without a leading zero |
| `QrGenerator.DecimalRoundTrip` | src/App.tsx:370 | those digits denote the timestamp |
| `QrGenerator.DownloadFilename` | src/App.tsx:369-370 | the file name contains only `[A-Za-z0-9.-]` and is exactly `qr-code-<digits>.png` |
| `QrGenerator.QrApp.constructor` | src/App.tsx:166-177 | the initial state: empty text and image, no issue, default options, both counters 0 |
| `QrGenerator.QrApp.SetInputText` | src/App.tsx:464 | only the text changes |
| `QrGenerator.QrApp.SetWidth` | src/App.tsx:492-494 | only the option width changes |
| `QrGenerator.QrApp.GenerateQrCode` | src/App.tsx:324-358 | records now and one more generation, encodes the sanitized text with clamped options, and keeps the result only if it is a PNG data URL; otherwise the generic error and no image; the held image stays empty or a PNG data URL |
| `QrGenerator.QrApp.RunEffect` | src/App.tsx:289-322 | shows the validation outcome, then either clears the image, sets the rate-limit warning, defers, or resets and generates, as `EffectOutcome` says, leaving the counters untouched unless it generates |
| `QrGenerator.QrApp.DownloadQrCode` | src/App.tsx:360-373 | refused exactly when the image is not a PNG data URL, which in every valid state means exactly when there is no image; otherwise it links the image under `qr-code-<digits>.png` |
| `QrGenerator.QrApp.CopyToClipboard` | src/App.tsx:388-398 | refused exactly when the image is not a PNG data URL, which in every valid state means exactly when there is no image; then it needs a secure clipboard; otherwise it writes the image |

## Left out

- DOMPurify's HTML parsing and serialisation (src/App.tsx:211-215). It is a foreign library, so it is the arbitrary parameter `purify`.
- The QR matrix and PNG encoding of `QRCode.toDataURL` (src/App.tsx:341). It is a foreign library, so it is the arbitrary parameter `encode`, which returns a data URL or a failure; each call counts as one awaited call.
- `Date.now()`. It is the argument `now`. When the effect calls `generateQRCode` directly, both read the same instant.
- React scheduling. State updates are applied in the order they are issued. This matches the batched updates here: the effect reads the counters from the render, and the reset to 0 and the `prev => prev + 1` update queue in that order. The `async`/`await` and any interleaving during it are not modelled.
- The `setTimeout` callback firing (src/App.tsx:314). Only the decision to defer is modelled. A fired timer runs `generateQRCode` on the text and options of the render that set the timer, which may be older than the current ones. Several timers can be pending at once, and whichever awaited encoding finishes last sets the image. These stale snapshots and out-of-order results are not modelled.
- RateGate.AtMostThirtyPerWindow: counts only the generations the gate itself starts. Deferred generations from fired timers are outside the bound, because `generateQRCode` checks nothing.
- The `console.error` diagnostics (src/App.tsx:351, 383, 419, 430). They are logging only and change no state.
- Width and margin are integers. NaN and fractional values are not modelled.
- QrGenerator.Decimal: gives digits only, which is how `${timestamp}` prints every non-negative integer below 10^21. That includes every `Date.now()` value.
- Presentation and browser glue. This covers JSX, styles, toasts, the color pickers with their TinyColor conversions (src/App.tsx:182-191, 543-556), the DOM link click, and `fetch`, blob checks, clipboard writes and the text fallback (src/App.tsx:366-433).
- `vite.config.ts` and `example_api_call.js`. One is build configuration and the other is a network client.
- `src/Helpers/config.ts`, `helpers.ts` and `helpers.js`. They hold constants, logging and a write of a version number into a header element's `innerHTML` (src/Helpers/helpers.js:10-13), and the component does not import them.
- The query-string API mode. No source file of the component implements it.
