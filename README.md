# SmartPrompt extension: quota gate and optimizer state

This project models the two pieces of the SmartPrompt browser extension that
keep logic of their own, and proves properties of them in Dafny.

- **Daily quota gate** (`background.js`). The background worker answers a
  `"checkLimit"` runtime message. It reads the counter stored under
  `limit_<fingerprint>_<day>` in the extension's local storage, where a missing
  counter reads as 0. If the counter has reached `DAILY_LIMIT = 10`, the reply is
  blocked and carries the stored count. Otherwise the counter goes up by one and
  the reply carries the new count. Other actions get no reply. Module
  `QuotaGate` gives the rule as functions (`Usage`, `Consume`, `Handle`,
  `Replay` over many messages). The class `LimitStore` holds the storage as a
  `map<string, int>` field, and its `OnMessage` method changes it in place.
- **Per-textarea optimizer state** (`content.js`). Each enhanced textarea has a
  score display, an Optimize button and the last analysis result. Module
  `OptimizerUI` models these. It classifies a score into a colour band for the
  display and handles the empty prompt. Optimize applies the cached rewording
  only when the trimmed text still equals the text that was analysed. Reset
  clears the display, and a page-wide set makes sure each textarea is enhanced
  only once. `TextareaUI` holds one textarea's fields (`value`, `lastResult`,
  `display`, `color`, `border`, `boxShadow`, `buttonDisabled`). `Page` holds the
  set of enhanced textareas.
- Module `JsText` models the two JavaScript string operations these rules use:
  `String.prototype.trim` with ECMAScript's whitespace and line-terminator sets,
  and the decimal text of an integer score (below 10^21 in magnitude) inside
  `${score}%`.
- Module `Wrappers` defines `Option`.

Inputs that come from the environment are parameters:
- the day string `new Date().toDateString()` is the `today` parameter;
- the fingerprint is the message's `traits` field;
- the textarea element is a `TextareaId`;
- the analysis service's callback argument is a `Reply`.

The handler has no check-only mode. Every `checkLimit` message that is not
blocked uses up one call.

## Model

| member | source | states |
|---|---|---|
| `QuotaGate.StorageKey` | background.js:14 | the key is "limit_", then the fingerprint, then "_", then the day; each part can be read back from its position |
| `QuotaGate.Usage` | background.js:17 | an absent key reads as usage 0; a stored key reads as its stored count |
| `QuotaGate.StorageKeyInjective` | background.js:12-14 | for day strings of equal length (as `toDateString` gives), equal keys mean the same fingerprint and the same day |
| `QuotaGate.StorageKeyCollision` | background.js:14 | without that length condition two different (fingerprint, day) pairs can share a key |
| `QuotaGate.Consume` | background.js:17-23 | the reply is blocked exactly when the usage read is at or over the limit; the reply's usage is the counter as stored after the call; the reply carries `DAILY_LIMIT`; at most the one key is added |
| `QuotaGate.ConsumeBlocked` | background.js:18-19 | at or over `DAILY_LIMIT` the reply is blocked with the stored usage and the limit, and the store is unchanged |
| `QuotaGate.ConsumeIncrements` | background.js:20-22 | under the limit the key's counter becomes usage+1 and the reply is unblocked with usage+1 |
| `QuotaGate.Handle` | background.js:10-26 | there is a reply exactly when the action is "checkLimit"; without one the store is unchanged; a reply's usage is the stored count under `limit_<traits>_<today>` after the call |
| `QuotaGate.HandleIgnoresOtherActions` | background.js:10 | a message whose action is not "checkLimit" gets no reply and leaves the store unchanged |
| `QuotaGate.HandleFrame` | background.js:12-21 | every key other than `limit_<traits>_<today>` keeps its presence and its value |
| `QuotaGate.ReplayStaysWithinLimit` | background.js:18-21 | a counter that starts at or under the limit is at or under it after any sequence of messages, for any fingerprints and days |
| `QuotaGate.SameDayReplay` | background.js:6-22 | n same-day calls from one fingerprint starting at usage u: call i is admitted with usage u+i+1 while u+i is under the limit, then blocked with usage 10; the counter ends at min(u+n, 10) |
| `QuotaGate.FreshDayScenario` | background.js:6-22 | from an empty store, ten calls report usage 1..10 unblocked and the eleventh reports blocked with usage 10 |
| `QuotaGate.LimitStore.constructor` | background.js:16 | the storage starts with the given counters |
| `QuotaGate.LimitStore.OnMessage` | background.js:9-27 | the in-place handler leaves the storage and gives the reply exactly as `Handle` does on the old storage |
| `JsText.TrimStart` | content.js:37 | never longer than its input; its shape is stated by `TrimStartShape` |
| `JsText.TrimEnd` | content.js:37 | never longer than its input; its shape is stated by `TrimEndShape` |
| `JsText.TrimStartShape` | content.js:37 | what `TrimStart` keeps is a suffix of the input that is empty or starts with a non-whitespace character, and everything dropped is whitespace |
| `JsText.TrimEndShape` | content.js:37 | what `TrimEnd` keeps is a prefix of the input that is empty or ends with a non-whitespace character, and everything dropped is whitespace |
| `JsText.Trim` | content.js:37 | the trimmed prompt is no longer than the input and neither of its ends is whitespace; `TrimShape` states that only the two whitespace ends are removed |
| `JsText.TrimShape` | content.js:37 | the trimmed prompt is the slice of the input after its leading whitespace, and every character outside that slice is whitespace |
| `JsText.TrimOfTrimmed` | content.js:98 | a text that neither starts nor ends with whitespace trims to itself |
| `JsText.TrimIdempotent` | content.js:37 | trimming the trimmed prompt again changes nothing |
| `JsText.TrimEmptyIff` | content.js:37-38 | the prompt trims to "" exactly when every character is whitespace |
| `JsText.NatToDecimal` | content.js:87 | a score's digits are non-empty, all decimal digits, without a leading zero |
| `JsText.DecimalRoundTrip` | content.js:87 | reading the printed digits of n back gives n |
| `JsText.NatToDecimalInjective` | content.js:87 | two naturals with the same digits are equal |
| `JsText.NegativeSign` | content.js:87 | an integer's text is non-empty and starts with "-" exactly when the integer is negative |
| `JsText.IntToDecimal` | content.js:87 | a score's text is non-empty and starts with "-" when the score is negative; `NegativeSign` and `IntToDecimalInjective` state the rest |
| `JsText.IntToDecimalInjective` | content.js:87 | two integers with the same decimal text are equal |
| `OptimizerUI.Classify` | content.js:84-85 | the band is good iff score ≥ 80, fair iff 60 ≤ score < 80, poor iff score < 60 |
| `OptimizerUI.BandColor` | content.js:84-85 | each band is shown in one of the three colours #4CAF50, #FFC107, #F44336 |
| `OptimizerUI.ScoreColor` | content.js:84-85 | the colour is #4CAF50 iff score ≥ 80, #FFC107 iff 60 ≤ score < 80, #F44336 iff score < 60, so exactly one applies |
| `OptimizerUI.ClassifyMonotone` | content.js:84-85 | a higher score never falls into a lower band |
| `OptimizerUI.Score` | content.js:83 | a missing accuracy scores 0; a present one is the score |
| `OptimizerUI.ScoreText` | content.js:87 | the display text ends in "%" and everything before it is the score's decimal text |
| `OptimizerUI.ScoreTextInjective` | content.js:87 | the display text `${score}%` determines the score |
| `OptimizerUI.HasReword` | content.js:96 | holds only when there is a last result whose rewording is present and non-empty |
| `OptimizerUI.TextareaUI.constructor` | content.js:16-33 | a new display is empty, the new button is disabled and there is no last result |
| `OptimizerUI.TextareaUI.Evaluate` | content.js:36-46 | an empty trimmed prompt shows "Empty", disables the button and sends nothing; otherwise it shows "Evaluating..." in #FF9800, disables the button and sends the trimmed prompt; the text and last result are kept |
| `OptimizerUI.TextareaUI.UpdateUI` | content.js:82-93 | the display is the score followed by "%", in its band colour on text, border and shadow, and the button is enabled |
| `OptimizerUI.TextareaUI.OnAnalysisReply` | content.js:55-71 | a failed reply changes nothing; an answer becomes the last result with the analysed prompt and is shown as `updateUI` shows it |
| `OptimizerUI.TextareaUI.OnOptimizeClick` | content.js:95-114 | without a non-empty rewording nothing changes; if the trimmed text equals the analysed prompt the text becomes the rewording and the display "Optimized!"; otherwise the text is kept and the display is "Please analyze again" in #FF9800 |
| `OptimizerUI.TextareaUI.ResetUI` | content.js:116-123 | the display is "Empty", colour, border and shadow are cleared and the button is disabled |
| `OptimizerUI.Page.constructor` | content.js:3 | no textarea is enhanced yet |
| `OptimizerUI.Page.Enhance` | content.js:6-8 | the textarea is in the set afterwards; a textarea already in it gets no new UI and no request; a new one gets a fresh UI, evaluated once with its text |
| `OptimizerUI.AnalyseEditOptimize` | content.js:95-111 | after an analysis of `text`, Optimize applies the rewording exactly when the edited text trims to the analysed text, and otherwise keeps the edit and asks for a new analysis |

## Left out

- Storage and messaging plumbing: `chrome.storage.local` get/set and `sendResponse` are treated as one atomic step per message. Two messages that interleave their read and write can both be admitted on the same count; that race is not modelled.
- The clock: `new Date().toDateString()` is the `today` parameter.
- The keep-alive timer (background.js:1-4) keeps the worker alive and has no logic.
- Storage holds only integer counters. A non-numeric value stored by another writer under a `limit_` key is not modelled.
- The fingerprint is a string. JavaScript's string conversion of a non-string `traits` value is not modelled.
- Accuracy is an integer. A fractional or non-numeric accuracy and its text form are not modelled. A score is taken below 10^21 in magnitude: larger Numbers print in exponent notation (`1e+21`), and above 2^53 a Number cannot hold every integer exactly.
- DOM construction and styling of the container, display and button (content.js:11-31), and the hostname check (content.js:2), are page plumbing.
- The textarea's own inline border and shadow before enhancement are taken as empty.
- The `MutationObserver`, the `querySelectorAll` wiring and the `onSuspend` cleanup (content.js:134-165) are not modelled. The brace placement puts them inside `enhanceTextarea`, which nothing at top level calls.
- `resetUI` (content.js:116-123) is modelled, although nothing in the source calls it.
- Timers and debounce (content.js:105-107, 112, 117, 126-129) are not modelled. This includes the display text restored 1.5 s after "Optimized!" and the re-evaluation 2 s after "Please analyze again".
- `OptimizerUI.TextareaUI.Evaluate`: only the synchronous part of `evaluate` is modelled (content.js:37-46). The API-key lookup and its catch block (content.js:50-51, 74-79) run after an `await` and are not modelled. An error thrown in the callback escapes the `try`, so that catch never sees it.
- `OptimizerUI.TextareaUI.OnAnalysisReply`: a `lastError`, an error reply and a missing reply are all one `Failed` case. A missing (`undefined`) reply would in fact set `lastResult` and then throw inside `updateUI`; that case is not modelled.
- Disabled buttons do not deliver clicks in a browser. `OnOptimizeClick` models the handler itself, whatever the button state.
- `popup/popup.js` saves and loads the API key. It is storage and DOM wiring only.
