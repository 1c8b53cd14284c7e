# Multiplayer Headlines — a Dafny model of the ticker view and its API client

Multiplayer Headlines is a single-page front end. It polls a backend for the latest
headline every five seconds, appends it to a ticker of at most five headlines, scrolls
that ticker leftwards two pixels per animation tick, and lets the user submit a headline
through a small API client. The client never throws: every failure comes back as a
uniform envelope.

This project models the deterministic core of that front end:

- `js_runtime.dfy` (module `JsRuntime`) models the JavaScript behaviour the core relies on:
  - JSON values as `JSON.parse` produces them;
  - truthiness, `typeof`, `in` and property reads on those values;
  - `String(v)` and the message of `new Error(v)`;
  - `String.prototype.trim`, with its full white-space set;
  - `toUpperCase` on ASCII text.
- `api_call.dfy` (module `ApiCall`) models `makeApiCall` from `src/utils/api-call.ts`:
  - the request it builds;
  - the `try` block's three guards, in their order;
  - the failure envelope the `catch` block builds.

  The network round trip is an input (`Exchange`).
- `ticker.dfy` (module `Ticker`) holds the pure updaters of `src/App.tsx`:
  - the bounded FIFO append;
  - the scroll step;
  - the separator rule of the rendered list;
  - the mapping from an API response to the submission message;
  - the submit request.
- `view.dfy` (module `View`) models the component as the class `HeadlinesApp`:
  - its fields are `headlines`, `input`, `tickerOffset`, `tickerOffsetRef` and `submitResp`;
  - its methods are the handlers that change them (`Poll`, `ChangeInput`, `ScrollTick`, `Submit`);
  - `Valid()` is the object invariant that the ticker holds at most five headlines.

Three facts about the code are easy to miss. The model keeps all three:

- **The poll ignores the status code.** `fetch` does not reject on a non-2xx status, and
  the poll never looks at `resp.ok` (src/App.tsx:26-31). So the text of an error reply is
  trimmed and appended like any headline, and an empty body becomes an empty headline
  (`HeadlinesApp.Poll`).
- **Success is truthiness.** Both the client's third guard and the submit handler test
  the truthiness of `status` (src/utils/api-call.ts:25, src/App.tsx:95 and 99), not
  `=== true`. The model uses `Truthy`.
- **A non-ok reply with a `null` body.** The client reads `data.message` on it
  (src/utils/api-call.ts:18), which raises a `TypeError`. The failure message is
  therefore that error's text, not "Unknown error!" (`ApiCall.NonOkFails`).

Both append paths trim first (src/App.tsx:28 and 101), so every stored headline is
trimmed; `HeadlinesApp.Valid()` carries that together with the five-headline bound.

## Model

| member | source | states |
|---|---|---|
| `JsRuntime.TypeOf` | src/utils/api-call.ts:21 | `typeof` is "object" exactly for `null`, arrays and objects |
| `JsRuntime.Get` | src/utils/api-call.ts:18 | reading `message` or `status` gives a value exactly when the body is an object with that own field, and that value is the field |
| `JsRuntime.ToJsString` | src/utils/api-call.ts:26 | `String(v)` leaves a string unchanged and is non-empty for `null`, booleans, numbers and objects |
| `JsRuntime.Decimal` | src/utils/api-call.ts:18 | a numeric `message` prints as decimal digits, without leading zeros, that denote the number |
| `JsRuntime.ErrorMessage` | src/utils/api-call.ts:26 | `new Error(undefined)` has an empty message; a string argument becomes the message verbatim |
| `JsRuntime.Trim` | src/App.tsx:28 | the trimmed text has no white space at either end, is no longer than the input, and is empty exactly when the input is all white space |
| `JsRuntime.TrimOfPadded` | src/App.tsx:28 | trim removes exactly the surrounding white space: white space around a trimmed core trims to that core |
| `JsRuntime.TrimSplits` | src/App.tsx:28 | every string is its trimmed form with white space before and after it |
| `JsRuntime.TrimIdempotent` | src/App.tsx:28 | trimming an already trimmed text changes nothing: a submitted headline (trimmed at line 93) that the server hands back to the poll is stored as submitted |
| `JsRuntime.ToUpperAscii` | src/utils/api-call.ts:8 | the upper-cased method has the same length, no lower-case ASCII letter, and each letter replaced by its capital |
| `ApiCall.BuildRequest` | src/utils/api-call.ts:7-14 | the URL is base URL plus path; the method is the argument upper-cased; the headers are the two JSON headers; the body is the given object, or `{}` when none is given |
| `ApiCall.TryBlock` | src/utils/api-call.ts:17-29 | the `try` block returns exactly when the response is ok and the body is an object whose `status` field is truthy, and then it returns the body itself |
| `ApiCall.MakeApiCall` | src/utils/api-call.ts:5-40 | never throws; always yields an object with a `status` field; succeeds exactly for an ok response with an accepted body, which it returns unchanged; otherwise yields a failure envelope with status false, code 500, context "unknown", empty data and the given timestamp |
| `ApiCall.NonOkFails` | src/utils/api-call.ts:17-19 | a non-ok response fails even when its body would be accepted; the message is the body's truthy `message` as text, else "Unknown error!", and for a `null` body it is the TypeError text |
| `ApiCall.MalformedFails` | src/utils/api-call.ts:21-23 | an ok response whose body is not an object with a `status` field fails with "Invalid API response format!" |
| `ApiCall.FalsyStatusFails` | src/utils/api-call.ts:25-27 | an ok, well-formed body with a falsy `status` fails with the body's `message` as text, or an empty message when there is none |
| `ApiCall.ThrownFails` | src/utils/api-call.ts:30-38 | a network or parse exception becomes the failure envelope carrying the error's message, or "Unknown error occured!" for a non-Error value |
| `Ticker.Slice` | src/App.tsx:31 | `slice(start)` yields a suffix; a negative start keeps `min(len, -start)` elements |
| `Ticker.Append` | src/App.tsx:29-32 | the appended list has `min(|prev|+1, 5)` entries, is the last five of `prev ++ [h]` in order, ends with `h`, and is exactly `prev ++ [h]` while `prev` has fewer than five |
| `Ticker.AppendKeepsTrimmed` | src/App.tsx:28-32 | appending a trimmed headline to a list of trimmed headlines leaves every headline trimmed |
| `Ticker.AppendAllKeepsLatest` | src/App.tsx:29-32 | after any run of appends the ticker holds the five most recently received headlines, oldest first |
| `Ticker.Scroll` | src/App.tsx:46-55 | the ref always receives `prev - 2`; the new offset is `prev - 2` while its magnitude is within the content width and the container width otherwise, so it is either the container width or within the band |
| `Ticker.SteadyDescent` | src/App.tsx:46-55 | while the content stays in view, n ticks lower the offset by exactly 2n |
| `Ticker.WrapPeriod` | src/App.tsx:46-55 | starting at the container width W, with content width C ≥ W, the offset is W − 2k for 0 < k < (W+C)/2+1 and returns to W at that tick |
| `Ticker.EmptyTickerHolds` | src/App.tsx:44-55 | when the content measures 0 px wide, an offset at the container width stays there on every tick, because each step overshoots and wraps straight back, unless the container is 2 px wide |
| `Ticker.Render` | src/App.tsx:77-82 | one item per headline, in order, each with its text; item i has a separator exactly when i < n−1 |
| `Ticker.SeparatorsBetween` | src/App.tsx:80 | n headlines render with n−1 separators, none when n = 0 |
| `Ticker.SubmitResult` | src/App.tsx:94-97 | `isError` is exactly "status is falsy"; the message is the response's truthy `message`, else "Headline submitted successfully!" on success or "Failed to submit headline!" on failure |
| `Ticker.BlankIsWhitespace` | src/App.tsx:91 | the submit guard `!input.trim()` holds exactly for empty or white-space-only input |
| `Ticker.SubmitRequest` | src/App.tsx:93 | a submission issues PUT to base URL + "/headline" with body `{headline: input.trim()}` |
| `Ticker.SubmitResultOfCall` | src/App.tsx:93-97 | through the API client, the shown result is an error exactly when the server did not accept the submission, and then shows the failure text, or "Failed to submit headline!" when that is empty |
| `Ticker.AcceptedWithoutMessage` | src/App.tsx:94-97 | an ok `{status: true}` reply shows "Headline submitted successfully!" as a non-error |
| `Ticker.RejectedWithMessage` | src/App.tsx:94-97 | an ok `{status: false, message: m}` reply with non-empty m shows m as an error |
| `View.HeadlinesApp.constructor` | src/App.tsx:15-20 | on mount: no headlines, empty input, offset and ref 0, no submission result |
| `View.HeadlinesApp.Poll` | src/App.tsx:23-35 | a received text is trimmed and appended with the five-bound whatever the status and even when empty; a thrown error leaves the list unchanged; afterwards at most five headlines, all trimmed |
| `View.HeadlinesApp.ChangeInput` | src/App.tsx:117 | the input becomes the typed value; the headline invariant is kept |
| `View.HeadlinesApp.ScrollTick` | src/App.tsx:40-56 | without a ticker element nothing changes; otherwise offset and ref follow one scroll step from the current offset; the headline invariant is kept |
| `View.HeadlinesApp.Submit` | src/App.tsx:88-108 | blank input issues no request and changes nothing. Otherwise the PUT request is issued and the submission result is set. On success the trimmed input is appended with the five-bound and the input is cleared. On failure the list and the input stay as they were. The list never exceeds five headlines, and every one is trimmed |

## Left out

- Network I/O (`fetch`, `resp.text()`, `resp.json()`, `JSON.stringify`) is not modelled. The poll's outcome is the input `PollResult` and the API call's outcome is the input `Exchange`. Serialisation of the request body is not modelled.
- Timers and lifecycle are not modelled: `setInterval`/`clearInterval`, the `useEffect` mount and cleanup, the 5000 ms and 16 ms cadences, and the race of a response that arrives after unmount. Each poll and each tick is an explicit method call.
- The submit handler awaits the API call. Polls and ticks that run during that wait are not interleaved: `Submit` is one atomic step. Like the handler, it uses the input as it was when the form was submitted.
- DOM measurement (`scrollWidth`, `getBoundingClientRect().width || 0`) is not modelled; the widths are the input `Measurement`. The model does not capture which widths the DOM produces. For example, the flex row spans its parent, so an empty ticker measures about the container width rather than 0. Widths and offsets are integers (`nat` widths, `int` offsets); the browser's fractional widths are not modelled.
- The timestamp of the failure envelope (`new Date().toISOString()`) is an input.
- The input's `minLength`/`maxLength` attributes are enforced by the browser, not by the code, so no length bound is modelled.
- These are presentation and configuration, and are not modelled: JSX markup, CSS classes, the transform style, the footer year and `console.error` logging. The `import.meta.env` base URL is a parameter.
- JSON numbers are integers. NaN, fractions and `-0` (a falsy number) are not modelled.
- JavaScript strings are UTF-16 code units; here a character is a Unicode scalar value.
- `HasProperty` and `Get` cover only the two keys the client reads, `status` and `message`. Neither is inherited or an array index.
- `NullMessageRead` uses V8's wording of the `TypeError` raised by reading a property of `null`. Other engines word it differently.
- ToUpperAscii: upper-cases ASCII letters only, because JavaScript's full Unicode case mapping is not modelled. The method used here, "put", is ASCII.
- SubmitResult: shows a truthy non-string `message` through `String(v)`. React itself renders a boolean child as nothing and rejects an object child; that rendering is not modelled.
- ToJsString: prints any integer in plain decimal. JavaScript numbers are doubles, so `JSON.parse` rounds integers beyond 2^53, and `String` writes magnitudes of 10^21 or more in exponent form ("1e+21"). For a parsed object with its own `toString` field, `String(v)` throws a `TypeError`; the model gives "[object Object]".
- BuildRequest: always attaches a body, as `body || {}` does (src/utils/api-call.ts:13). `fetch` rejects a body on GET and HEAD, so such a call always ends in the failure envelope. `Exchange` is an unconstrained input, so the model lets one succeed. The app only uses "put".
