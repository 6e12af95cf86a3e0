# HTML fragmenter page: the session state machine

This project models the state machine behind the `Home` page of the HTML
fragmenter front end. The page lets a user split an HTML document into
fragments of bounded length. The document is either an uploaded file or the
default document `/source.html`, fetched when the page mounts. The page
posts the document and a maximum length (`max_len`) to an external splitting
service as a multipart form. It then shows the fragments that come back, the
document's total character count, or an error.

The page keeps seven state slots: `fragments`, `error`, `loading`,
`totalCharacters`, `maxLen`, `file` and `sourceHtml`. Events drive them:

- the default-document fetch settles;
- the auto-submit effect runs when `sourceHtml` becomes truthy;
- the user picks files or edits `max_len`;
- the user submits the form;
- the split request's answer arrives.

Files:

- `wrappers.dfy`: `Option`, standing for JavaScript's `null`/`undefined`.
- `decimal.dfy`: the base-10 text of an integer of magnitude at most 2^53, as `Number.prototype.toString()` gives it. The reading of such text back into a number is its partner: both round trips are proved.
- `session.dfy`: the seven slots as one value (`Slots`), with one function per event. Each function writes exactly the slots the page's handler sets. It also holds the request the page builds and a strict reading of that request (`DecodeSplitForm`), which the request's contract is stated through.
- `home.dfy`: the class `Home`. Its seven fields are the slots, and its methods overwrite them one setter at a time, as the page does. Each method's `ensures` ties the new state to the `Session` function of the old state.
- `render.dfy`: the render projection. It decides whether the count line, the error banner, the fragment list and a busy button are shown.
- `trace.dfy`: runs of the page from mount, as sequences of events. Each event applies its handler's writes, then the auto-submit effect whenever `sourceHtml` changed to a truthy value. Inductive lemmas cover it: at most two requests are in flight at once; the auto-submit fires exactly once if the default text is non-empty and never otherwise; `sourceHtml` comes only from the fetch; and a chosen file is what every later request uploads. Concrete runs show how answers can mix.

The network is reduced to datatypes. A split request is a value (`SplitRequest`). Its answer is an `Outcome`:

- `Ok(fragments?, totalCharacters?)`: a 2xx answer with a JSON body.
- `NotOk(error?)`: a non-2xx answer with a JSON body.
- `Exception(message)`: fetch rejected, or the body was not JSON.
- `OtherThrow`: a thrown value that is not an `Error`.

The default fetch ends as `Loaded(text)` or `LoadFailed`.

## Behaviour kept as the code has it

These are points where the code is not the idealised design. The model follows the code:

- A rejected submission is not a no-op: the guard sets `error` to "Default HTML source is not loaded yet." (app/page.tsx:92). It leaves `loading`, `fragments` and `totalCharacters` alone.
- An empty default document counts as no source. The guard and the auto-submit both test `sourceHtml` for truthiness (app/page.tsx:81, 91).
- A failed request does not always show the generic message. A transport failure, or a body that is not JSON (on any status), shows the thrown error's own message: the parse of a non-2xx body throws at app/page.tsx:121, the parse of a 2xx body at app/page.tsx:126, and app/page.tsx:130 shows the message. "Unknown error occurred" appears only for a JSON error body whose `error` field is absent or empty.
- An answer does not replace the state as a whole. An ok answer writes `fragments` and `totalCharacters` but not `error`. A failed answer writes `error` but not the result slots. With two requests in flight, the result can mix an error with fragments (`Trace.OverlappingAnswersMix`). There is also no phase slot: the phase is only implied by the four result slots.
- The error banner can appear beside fragments. This happens after a late default-fetch failure (`Trace.LateFetchFailureBesideFragments`) and after a rejected submission (`Trace.CancelledChoiceKeepsFragments`).
- A chosen file can be dropped again. Choosing no file in the dialog sets `file` to null, so the default document becomes the source again (app/page.tsx:150; `Session.EmptySelectionRevertsToDefault`).
- Two requests can be in flight, but only once the auto-submit has happened. The submit button is disabled while `loading` (app/page.tsx:171), but the auto-submit effect does not test `loading`. Also, any answer sets `loading` false (app/page.tsx:132), so after the first of two overlapping answers the user can submit again while the other request is still out (`Trace.InFlightBound`).

## Model

| member | source | states |
|---|---|---|
| Decimal.NaturalString | app/page.tsx:112 | the digits of a natural number: non-empty, digits only, a leading '0' exactly for zero |
| Decimal.IntegerString | app/page.tsx:112 | `maxLen.toString()` is an integer numeral without padding, and reading it back gives `maxLen` |
| Decimal.NaturalStringValue | app/page.tsx:112 | the digits of `n` have the value `n` |
| Decimal.IntegerRoundTrip | app/page.tsx:112 | reading back the text of any integer, negative ones included, gives that integer |
| Decimal.NumeralValue | app/page.tsx:112 | a natural numeral is the text of its own value |
| Decimal.NumeralRoundTrip | app/page.tsx:112 | every integer numeral is the `toString()` text of exactly the integer it reads as |
| Decimal.IntegerStringInjective | app/page.tsx:112 | different `max_len` values are sent as different texts |
| Session.Submit | app/page.tsx:88-112 | rejected exactly when no file is chosen and the default text is null or empty, and then only `error` changes; otherwise `loading` is set, the result slots are cleared, and the request is a POST to the split endpoint whose form reads back as the chosen file (or "source.html"/"text/html" holding the default text) and `maxLen` |
| Session.Complete | app/page.tsx:120-133 | every answer ends `loading` and keeps `file`, `sourceHtml` and `maxLen`; an ok answer keeps `error`; a failed answer keeps the result slots and sets some error |
| Session.FetchSettled | app/page.tsx:62-85 | a failed fetch only sets "Failed to load default HTML source." and submits nothing; a load submits exactly when its text is non-empty and differs from the current `sourceHtml` (from a null one, exactly when non-empty); without a submission it only sets `sourceHtml`; with one it sets `sourceHtml`, sets `loading`, clears the result slots and posts the chosen file if there is one (else "source.html"/"text/html" holding the loaded text) with `maxLen` |
| Session.GuardRejects | app/page.tsx:91-94 | with no file and a null or empty default text, submitting sends nothing, sets the not-loaded error and keeps `loading`, `fragments` and `totalCharacters` |
| Session.UploadTakesPrecedence | app/page.tsx:103-104 | a chosen file is uploaded unchanged whatever the default text is |
| Session.DefaultDocumentSynthesized | app/page.tsx:105-110 | without a file, the upload is named "source.html", typed "text/html" and holds exactly the default text |
| Session.RequestParts | app/page.tsx:102-112 | the form has exactly the parts `file` and `max_len`, the latter the base-10 text of `maxLen` |
| Session.SubmitThenComplete | app/page.tsx:96-133 | a submission followed by its answer: an ok answer leaves no error and the answer's fragments (in order, or none) and count (or null); a failed one leaves empty fragments, a null count and the body's `error` if truthy, else "Unknown error occurred", or the thrown message; `loading` ends false |
| Session.NonJsonBodySurfacesParserMessage | app/page.tsx:120-130 | a body that is not JSON shows the parser's message, not the generic one |
| Session.FetchSettles | app/page.tsx:64-74 | a failed default fetch sets only the load error; a successful one only `sourceHtml` |
| Session.FetchAutoSubmits | app/page.tsx:62-85 | from mount, a loaded default document auto-submits exactly when its text is non-empty, sending it as "source.html" with `max_len` 4096 |
| Session.OnlyFetchRunsEffect | app/page.tsx:80-85 | submitting, answers, file choice and `max_len` edits never change `sourceHtml`, so they never re-run the auto-submit |
| Session.EmptySelectionRevertsToDefault | app/page.tsx:150 | choosing no file clears `file`, and the next submission sends the default text as "source.html" of type "text/html", with `maxLen` |
| Page.Home.constructor | app/page.tsx:51-59 | the slots start empty, null, not loading, with `maxLen` 4096 |
| Page.Home.BeginSubmit | app/page.tsx:88-118 | the guard, the four resets and the form appended part by part give the state and request of `Session.Submit` |
| Page.Home.CompleteSubmit | app/page.tsx:120-133 | the writes after the answer give the state of `Session.Complete`, with `loading` false |
| Page.Home.DefaultFetchSettled | app/page.tsx:62-85 | the fetch's writes, then the effect's submission when `sourceHtml` changed to a truthy text, give `Session.FetchSettled` |
| Page.Home.ChooseFiles | app/page.tsx:150 | `file` becomes the first chosen file, or null when none is chosen |
| Page.Home.ChangeMaxLen | app/page.tsx:166 | `maxLen` becomes the edited value and nothing else changes |
| Page.DefaultLoadScenario | app/page.tsx:62-133 | on a fresh page, loading a non-empty default document sends it, and an ok answer leaves its fragments and count with no error and `loading` false |
| Presenter.Cards | app/page.tsx:194-208 | one card per fragment, in the order received |
| Presenter.RenderShows | app/page.tsx:171-211 | the count line shows exactly when `totalCharacters` is not null, and reads back as it; the banner shows exactly when `error` is a non-empty string; the list shows exactly when there are fragments; the button is disabled exactly while loading |
| Presenter.CardShowsFragment | app/page.tsx:194-205 | each card shows its fragment's file name and content verbatim, and its raw length when present (nothing when absent) |
| Presenter.ViewRightAfterSubmit | app/page.tsx:96-99 | straight after a submission that passes the guard: no count line, no banner, no fragment list, and a disabled button labelled busy |
| Presenter.ViewAfterSuccess | app/page.tsx:126-128 | after an ok answer to a lone request: no banner, the fragments in order, and the count exactly when sent |
| Presenter.ViewAfterFailure | app/page.tsx:129-133 | after a failed lone request: no fragments and no count, and the banner exactly when the message is non-empty |
| Presenter.OneFragmentExample | app/page.tsx:176-208 | a 200 answer with fragment "a.html" of raw length 7 and a total of 100 shows "100", no banner, and that one card |
| Presenter.BadFileExample | app/page.tsx:120-122 | a 400 answer with `{"error":"bad file"}` shows the banner "bad file" and no fragments |
| Trace.StepKeepsInv | app/page.tsx:80-133 | each event keeps the run invariant: at most one auto-submit, and only after the fetch; a null default text before the fetch settles; and no more requests outstanding than the auto-submits, plus one while `loading` |
| Trace.StepFacts | app/page.tsx:62-85 | one event settles the fetch exactly if it is the fetch, adds an auto-submit exactly if it is the first fetch and loads a non-empty text, and changes `sourceHtml` only then |
| Trace.FetchStepIsFetchSettled | app/page.tsx:62-85 | in a run, the first settling of the fetch gives the state and the automatic request of `Session.FetchSettled` |
| Trace.AutoSubmitStep | app/page.tsx:80-85 | a first load of a non-empty text, while no text is set, issues one more request, counted as automatic, and clears the results |
| Trace.RunKeepsInv | app/page.tsx:80-133 | every run keeps that invariant |
| Trace.InFlightBound | app/page.tsx:80-85 | at most two requests are ever outstanding at once, and two only once an auto-submit has happened |
| Trace.AutoSubmitsFrom | app/page.tsx:62-85 | from any reachable state, the auto-submit count grows by one exactly when the fetch was pending and its first settling loads a non-empty text |
| Trace.AutoSubmitOnce | app/page.tsx:62-85 | over any run from mount, the auto-submit fires once if the default document loaded non-empty, never otherwise |
| Trace.SourceFrom | app/page.tsx:59-85 | from any reachable state, `sourceHtml` is set only by the fetch's first settling |
| Trace.SourceOnlyFromFetch | app/page.tsx:59-85 | over any run from mount, `sourceHtml` is the loaded text, or null if the fetch failed or is pending |
| Trace.StepSendsUpload | app/page.tsx:103-104 | one event other than a file choice keeps the file, and every request it issues uploads it |
| Trace.UploadSentThroughout | app/page.tsx:103-104 | once a file is chosen, every request sent until the file input changes uploads it, whether the default document arrives before or after |
| Trace.SubmitBeforeLoad | app/page.tsx:91-94 | submitting on a fresh page sends nothing and changes nothing but the error |
| Trace.OverlappingAnswersMix | app/page.tsx:115-133 | with the user's request and the auto-submit overlapping, the answer applied last wins the slots it writes, and a failed answer's error stays beside a later ok answer's fragments |
| Trace.CancelledChoiceKeepsFragments | app/page.tsx:150 | after a file's fragments are shown, an empty choice and a submit before the default loads show the not-loaded error beside the old fragments |
| Trace.LateFetchFailureBesideFragments | app/page.tsx:71-74 | a default fetch failing after a file's fragments are shown puts the load error beside them |

## Left out

- The `Label`, `Input` and `Button` wrappers (app/page.tsx:8-47) are styling over Radix UI components that are not part of this model. So are the JSX markup, the CSS classes, the headings and `app/layout.tsx`, which holds only the page shell and metadata.
- `fetch`, `FormData`, `File`, `response.json()`, `response.text()` and `console.error` are not modelled. The request becomes a `SplitRequest` value whose form is a sequence of named parts. The answer becomes an `Outcome`, and the default fetch's result a `FetchOutcome`. The default fetch's failure text (`statusText`) goes only to the console, so it is dropped.
- The synthesized file's body is modelled as `Utf8Text(text)`. The UTF-8 encoding that `File` applies is not modelled.
- The splitting itself runs on the external service at `localhost:8002` and is not part of this model.
- Async scheduling and React's state batching are not modelled. Each event is applied whole, and the auto-submit effect runs right after a fetch settles. Answers to outstanding requests are separate events, applied in any order, last writer wins. React's development double-run of effects is not modelled either.
- `Trace.Step`: a click while the button is disabled does nothing. This includes an Enter-key submission, which HTML blocks when the form's default button is disabled.
- `Page.Home.ChangeMaxLen`: takes the value `parseInt` produced as an `int`. `NaN` from a non-numeric input (app/page.tsx:166) is not modelled.
- `Decimal.IntegerString`: models `toString()` for integers only. It does not model the exponent form JavaScript uses from 1e21 up, or non-integer numbers, nor integers above 2^53, where JavaScript prints the shortest digits that round-trip followed by zeros (2**60 prints as "1152921504606847000"). The same holds for the raw lengths and counts the page displays.
- `Session.Complete`: takes the answer's `error` field as a string. A truthy non-string `error` value, which `new Error(...)` would convert to text, is not modelled. An `Ok` answer's `fragments` is taken to be a list of fragments; a malformed one is not modelled.
- `e.preventDefault()` (app/page.tsx:89) is browser behaviour and is not modelled.
