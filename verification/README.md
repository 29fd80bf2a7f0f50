# LinguaAI request/response contract in Dafny

LinguaAI is a single-page English↔Hindi translator. A browser page
(`LinguaAI/frontend/script.js`) posts `{text, source, target}` to a small
FastAPI service (`LinguaAI/backend/main.py`), which validates the request,
runs a Hugging Face translation model and answers with `translated_text` or an
HTTP error carrying `detail`. This project models the decision logic on both
sides of that exchange and proves how the two fit together.

- `strings.dfy` — module `Strings`: Python's `str.strip()` and JavaScript's
  `String.prototype.trim()` (one `Strip`, parameterised by the runtime's
  white-space set, because the two sets differ), and ASCII lower-casing.
- `results.dfy` — module `Results`: `Option` and `Result`.
- `backend.dfy` — module `Backend`: `SUPPORTED_MODELS`, the field validators of
  `TranslationRequest`, the 1..5000 length bound, request validation with
  per-field errors (422), the `translate` endpoint with the model as a
  function parameter, and `Serve`, the whole `POST /translate`.
- `frontend.dfy` — module `Frontend`: the page as a record
  `{source, target, input, output, alert, loading}`; selector normalisation,
  the two halves of `translate` (before and after the request settles), copy,
  clear, and the event loop `Run`.
- `exchange.dfy` — module `Exchange`: the page's request as the server reads
  it, the server's answer as the page reads it, and end-to-end lemmas about
  what the user sees.

Things worth knowing:

- After validation both codes are `en` or `hi`, so two different codes always
  form a key of `SUPPORTED_MODELS`: the "Unsupported translation pair" answer
  is unreachable (`Backend.UnsupportedPairUnreachable`).
- The page's selector rule keeps the two selectors different for any values,
  and keeps them on a supported pair when only `en`/`hi` are offered
  (`Frontend.Run`, `Exchange.RunKeepsSupportedSelectors`).
- The page trims with JavaScript's white-space set, the server strips with
  Python's. Python also strips U+001C..U+001F and U+0085, so input made only
  of such characters, a lone U+001C for instance, passes the page's empty
  check and is rejected by the server.
  Text longer than 5000 characters is also rejected. In both cases FastAPI
  answers 422 with a `detail` that is a list of objects, and the page shows
  the danger alert "[object Object]"
  (`Exchange.OverlongInputShowsObjectText`, `Exchange.PythonOnlySpaceShowsObjectText`).
- The page uses `payload.detail || fallback`, so `detail` is used only when it
  is truthy: an empty-string `detail` falls back to the generic message, and a
  non-string `detail` is shown through its `String(...)` conversion.

## Model

| member | source | states |
|---|---|---|
| Strings.Strip | LinguaAI/backend/main.py:34 | the stripped text has no removable character at either end, is empty exactly when the input is all white space, and is the stretch of the input between its leading white space and a white-space-only tail |
| Strings.StripOfPadded | LinguaAI/backend/main.py:34 | stripping any white-space padding around an already stripped string gives that string back, so strip is fully determined |
| Strings.StripIdempotent | LinguaAI/backend/main.py:34 | stripping twice is stripping once |
| Backend.LowerIsCode | LinguaAI/backend/main.py:26-27 | a string lower-cases to `en` or `hi` exactly when it is one of the eight case spellings of those codes |
| Backend.ValidateLanguageCode | LinguaAI/backend/main.py:23-29 | a code is accepted iff its stripped form is a case spelling of `en` or `hi`; the accepted value is the lower-cased stripped form, always `en` or `hi`; otherwise the "Only 'en' and 'hi' are supported." error |
| Backend.CodesValidate | LinguaAI/backend/main.py:25-29 | `en` and `hi` pass code validation unchanged |
| Backend.ValidateLanguageCodeIdempotent | LinguaAI/backend/main.py:25-29 | validating an accepted code again accepts it unchanged |
| Backend.ValidateText | LinguaAI/backend/main.py:31-37 | text is rejected with "Text cannot be empty." iff it is all white space; accepted text is the stripped input, non-empty, with no white space at either end |
| Backend.ValidateTextIdempotent | LinguaAI/backend/main.py:33-37 | validating accepted text again accepts it unchanged |
| Backend.ValidateTextField | LinguaAI/backend/main.py:19-37 | raw text shorter than 1 or longer than 5000 characters is rejected before the validator runs; in-bounds text that is all white space is rejected with "Text cannot be empty."; the field is accepted iff its length is in 1..5000 and it is not all white space, and the accepted value is the stripped input, 1..5000 characters with no white space at either end |
| Backend.ValidateRequest | LinguaAI/backend/main.py:18-37 | a request is valid iff all three fields are; a valid request holds the three normalised field values, so two codes from {en, hi} and stripped text of 1..5000 characters; a rejected one lists exactly the failing fields, in declaration order, each with the violation its own validation gave |
| Backend.ValidatedPairIsSupported | LinguaAI/backend/main.py:12-29 | after validation, different source and target codes always form a key of `SUPPORTED_MODELS` |
| Backend.TaskName | LinguaAI/backend/main.py:50-51 | the task name is "translation_", the source code, "_to_" and the target code, in that order |
| Backend.CallFor | LinguaAI/backend/main.py:44-52 | the model is called with the pair's model name from `SUPPORTED_MODELS`, the pair's task name and the validated text |
| Backend.Translate | LinguaAI/backend/main.py:75-109 | equal codes give 400 "Source and target must be different languages."; different codes without a model give 400 "Unsupported translation pair. Use en->hi or hi->en."; a 400 happens only in those two cases; a 500 only after the model was called, with "Translation error: " plus the exception text, or "Model returned empty translation." for blank output; success carries the stripped model output, which is non-empty |
| Backend.SameLanguageNeverTranslates | LinguaAI/backend/main.py:81-85 | with equal codes the answer is the same 400 whatever the translator would do, so the translator is never consulted |
| Backend.Serve | LinguaAI/backend/main.py:75-109 | the endpoint answers 422 with the field errors exactly when validation fails, answers a valid body with the endpoint decision on the validated request, and any translation it returns is non-empty and stripped |
| Backend.UnsupportedPairUnreachable | LinguaAI/backend/main.py:87-91 | whatever the body and the model, the endpoint never answers "Unsupported translation pair" |
| Backend.DistinctCodesNeverSameLanguage | LinguaAI/backend/main.py:81-85 | a body whose two codes validate to different values never gets the "must be different languages" answer |
| Backend.RejectedTextServed | LinguaAI/backend/main.py:18-37 | a body with accepted codes and rejected text is answered with 422 and one error, for the `text` field, carrying that field's violation |
| Frontend.NormalizedOther | LinguaAI/frontend/script.js:43-47 | the other selector's new value always differs from the changed one; it is left alone if it already differed, and otherwise becomes `hi` when the changed value is `en` and `en` for any other value |
| Frontend.NormalizedOtherIdempotent | LinguaAI/frontend/script.js:43-47 | normalising twice gives the same value as normalising once |
| Frontend.SelectSource | LinguaAI/frontend/script.js:144-146 | after a source change the source holds the new value, the selectors differ, the target changes only if it collided, and nothing else on the page changes |
| Frontend.SelectTarget | LinguaAI/frontend/script.js:148-150 | after a target change the target holds the new value, the selectors differ, the source changes only if it collided, and nothing else on the page changes |
| Frontend.StartTranslate | LinguaAI/frontend/script.js:49-75 | a request is issued iff the trimmed input is non-empty; without one the only change is the "Please enter text before translating." warning; with one the request carries the trimmed input and both selector values, the alert is hidden, loading is on and the output is emptied |
| Frontend.FailureMessage | LinguaAI/frontend/script.js:84-87 | a failed response's message is its `detail` when that is truthy, otherwise "Translation failed. Please try again." |
| Frontend.SettleTranslate | LinguaAI/frontend/script.js:77-98 | loading always ends; a reply with a truthy `translated_text` sets the output to it and shows no new alert; any other reply leaves the output alone and shows a danger alert with the fetch error, the failure message, or "No translated output returned by the API." |
| Frontend.Translate | LinguaAI/frontend/script.js:49-99 | with blank input only the warning appears and loading is untouched; otherwise loading ends off, the alert is hidden iff the reply delivers a translation, which then fills the output; on every failure the output is empty and the danger alert shows the fetch error, the truthy `detail` or "Translation failed. Please try again.", or "No translated output returned by the API." |
| Frontend.CopyOutput | LinguaAI/frontend/script.js:101-123 | a clipboard write is attempted iff the trimmed output is non-empty; otherwise "Nothing to copy. Translate text first." is shown; an attempted write reports success or "Copy failed. Please copy manually."; only the alert changes |
| Frontend.ClearTranslator | LinguaAI/frontend/script.js:125-130 | input and output are emptied and the alert hidden; selectors and loading are untouched |
| Frontend.Run | LinguaAI/frontend/script.js:144-159 | over any sequence of events, selectors that start different stay different, and a page that starts idle is idle after every event |
| Exchange.StepKeepsSupportedSelectors | LinguaAI/frontend/script.js:43-47 | one event offering only `en`/`hi` keeps the selectors on a supported pair |
| Exchange.RunKeepsSupportedSelectors | LinguaAI/frontend/script.js:144-159 | selectors that start on a supported pair stay on one over any sequence of events that offers only `en`/`hi` |
| Exchange.Deliver | LinguaAI/frontend/script.js:65-75 | the JSON body the page posts reaches the server as the same text, source and target (a conversion, no contract of its own) |
| Exchange.ObjectListString | LinguaAI/frontend/script.js:85-86 | a list of n objects renders as n copies of "[object Object]" joined by commas: empty iff n is 0, otherwise starting with "[object Object]" |
| Exchange.Encode | LinguaAI/backend/main.py:75-109 | the page sees an ok reply exactly for a translation, with `translated_text` equal to it; endpoint errors arrive with their message as `detail` |
| Exchange.TranslationShown | LinguaAI/frontend/script.js:89-93 | a translation the server returns fills the output area unchanged, leaves the alert alone and ends loading |
| Exchange.MessageShown | LinguaAI/frontend/script.js:84-87 | an endpoint error reaches the user as a danger alert carrying exactly the server's message |
| Exchange.SingleFieldErrorShown | LinguaAI/frontend/script.js:84-87 | a validation error for one field reaches the user as the danger alert "[object Object]" |
| Exchange.RoundTrip | LinguaAI/frontend/script.js:49-98 | a click answered by the server keeps selectors and input, gives only the warning on blank input, and otherwise always ends with loading off |
| Exchange.RoundTripSettles | LinguaAI/frontend/script.js:61-98 | a click that issues a request ends as the page settling the encoded answer of the server to the trimmed input and the two selector values |
| Exchange.AcceptedRequestValidates | LinguaAI/backend/main.py:18-37 | for supported selectors and input the server accepts, the request validates to the server-stripped text and the page's codes |
| Exchange.AcceptedRequestServed | LinguaAI/backend/main.py:75-96 | for such a request the server's answer is the endpoint's decision on the page's codes and the text stripped by both sides |
| Exchange.AcceptedRoundTrip | LinguaAI/frontend/script.js:61-98 | for accepted input on supported selectors, a click ends as the page settling whatever the endpoint decides on that request |
| Exchange.TranslationReachesOutput | LinguaAI/frontend/script.js:89-93 | a non-blank model output reaches the output area stripped, with the alert hidden and loading off |
| Exchange.TranslatorErrorReachesAlert | LinguaAI/backend/main.py:93-101 | a model exception reaches the user as a danger alert "Translation error: " plus its text, with an empty output |
| Exchange.EmptyTranslationReachesAlert | LinguaAI/backend/main.py:103-107 | a blank model output reaches the user as the danger alert "Model returned empty translation.", with an empty output |
| Exchange.SupportedSelectorsNeverSameLanguage | LinguaAI/backend/main.py:81-85 | a request from selectors on a supported pair never gets the "must be different languages" answer |
| Exchange.RejectedTextShowsObjectText | LinguaAI/frontend/script.js:84-86 | non-blank input whose trimmed text the server's `text` field rejects ends with the danger alert "[object Object]", an empty output and loading off |
| Exchange.OverlongInputShowsObjectText | LinguaAI/backend/main.py:19 | trimmed input over 5000 characters ends in the danger alert "[object Object]" |
| Exchange.PythonOnlySpaceShowsObjectText | LinguaAI/backend/main.py:33-36 | input made only of characters Python strips but JavaScript keeps passes the page's empty check but ends in the danger alert "[object Object]" |
| Exchange.InformationSeparatorIsPythonOnlySpace | LinguaAI/backend/main.py:34 | U+001C is stripped by Python but kept by JavaScript's trim |

## Left out

- HTTP transport, `fetch` and `response.json()`: the settled request is a
  parameter (`Frontend.Reply`); a body that fails to parse is the empty payload
  `Frontend.EmptyPayload`. A JSON `null` body, on which reading
  `payload.detail` throws a `TypeError`, is not modelled.
- The translation model: `get_translator`, tokenizer and model loading, the
  `lru_cache`, and the `max_length=512, truncation=True` arguments. The model is
  the function parameter `translator`, called with the pair's model name, task
  name and text; anything it raises (including a malformed result) is `Raised`
  with the exception's text.
- FastAPI construction, CORS middleware and the `/health` route: framework plumbing.
- DOM details: spinner and label toggling, `d-none` classes, focus, the year
  display. The Ctrl+Enter shortcut calls the same handler as the button and is
  the same `TranslateRequested` event.
- Clipboard: the asynchronous API and the `execCommand` fallback collapse into
  one `written` flag. The fallback copies the whole output field rather than
  its trimmed text, and ignores `execCommand`'s boolean result; neither is
  modelled.
- The contact form: its validity comes from the browser's `checkValidity`.
- Overlapping translate requests: a translation runs to completion before the
  next event.
- Python's `str.lower()` is modelled on ASCII letters only. This does not change
  which codes are accepted: no other character lower-cases to `e`, `n`, `h`
  or `i`.
- Request bodies with missing or non-string fields, which pydantic also
  answers with 422: the body is three strings.
- The text of pydantic's error entries (`type`, `loc`, `msg`, `input`): a field
  error records only the field and the violation.
- JavaScript strings are UTF-16 and may hold lone surrogates; strings here are
  sequences of Unicode scalar values, which matches Python's `len` for the
  5000-character bound.
- Browsers normalise line breaks when a text area's value is set; the output
  holds the assigned string as is.
