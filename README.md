# Vouch landing page: the signup form controller

A Dafny model of the logic behind the signup card of the Vouch landing page
(`src/App.js`). It covers:

- **Client-side validation.** `validate` decides whether a name and an email are
  acceptable. The email must match the unanchored pattern `/.+@.+/`. The result
  is "no issues" (`None`) or a non-empty map from field to issue code.
- **Issue reconciliation.** `issuesIntersection` keeps the entries on which the
  server's last issues and the current local issues agree.
- **The submission state machine.** `handleSubmit` moves the status through
  `fresh`, `pending`, `error(issues, params?)` and `success`.
- **The display state derived on every render.** This is whether the form can
  be submitted, the issues shown next to the fields (a server `not-unique`
  email issue stays while the field still holds the submitted email), the
  form-level message, and the button label, which depends on the response count.
- **The count fetched on mount.** A failed or falsy count falls back to 0, and a
  count that arrives after unmount is dropped.
- **The path dispatch.** `/` renders the landing page; any other path renders
  the 404 text.

The files are:

- `wrappers.dfy`: `Option`, which stands for a value that may be `undefined`.
- `validation.dfy`: the form parameters, the issue keys and codes, the email
  pattern, `Validate`, `IssuesIntersection`, and the loop that computes it.
- `signup.dfy`: the status machine as functions, the derived display state, and
  class `Landing`. The class holds `name`, `email`, `status`, `responseCount`
  and the unmount flag, and its methods are the setters, the two halves of the
  submit handler, and the count callbacks. A ghost `history` field records every
  status that is set, so the contracts can say which statuses a submission
  passes through.
- `routing.dfy`: `Route`.
- `scenarios.dfy`: client methods that walk through whole sessions using only
  the class's contracts.

The backend calls are parameters, not code. For `postResponse`, what the awaited
call came to is a `PostOutcome`: a reply with its `status` string and optional
`issues`, or `Threw`. For `getResponseCount`, the resolved value is an
`Option<int>`, where `None` is a falsy non-number; a rejection is the separate
method `CountFailed`.

Some behaviours of the code that a reader might expect to be otherwise:

- There is no `/privacy` branch: that path renders the 404 text (`Routing.PrivacyIsNotFound`).
- Only the empty string counts as a missing name. A name made of blanks is
  accepted (`Validation.ValidateBlankName`).
- The `not-unique` email issue depends only on the field holding the submitted
  email again. Typing that email back shows the issue again without a new
  submission (`Scenarios.SubmitTakenEmail`).
- A failed local validation goes straight from `fresh` (or `error`) to `error`,
  without `pending`.

The submit handler has no guard of its own. The page only stops it from running
by disabling the button while `canSubmit` is false and by not rendering the form
after `success`. The model's handler methods do not check this either.

## Model

| member | source | states |
|---|---|---|
| `Validation.EmailPatternMatches` | src/App.js:41 | the unanchored pattern test; a string it accepts has at least three characters and an `@` that is neither first nor last |
| `Validation.EmailPatternCharacterization` | src/App.js:41 | `/.+@.+/` tested on a string (search semantics; `.` excludes `\n`, `\r`, U+2028 and U+2029) holds exactly when some `@` has a non-line-terminator immediately before and after it |
| `Validation.Validate` | src/App.js:34-45 | the result is absent exactly when the name is non-empty and the email is non-empty and matches the pattern; otherwise it is a non-empty map over `name`/`email` only; `name` is present iff the name is empty, with `required`; `email` is present iff the email is empty (`required`) or does not match (`invalid`) |
| `Validation.ValidateClean` | src/App.js:34-45 | no issues exactly when both fields are non-empty and the email has a qualifying `@` |
| `Validation.ValidateCodes` | src/App.js:36-43 | local codes are only `required` or `invalid`; `name` never gets `invalid`; `base` never appears |
| `Validation.ValidateEmptyForm` | src/App.js:34-45 | an empty form gives `{name: required, email: required}` |
| `Validation.ValidateMalformedEmail` | src/App.js:39-43 | name `A` with email `not-an-email` gives exactly `{email: invalid}` |
| `Validation.ValidateWellFormedEmail` | src/App.js:34-45 | `A` / `a@b.co` gives no issues |
| `Validation.ValidateBlankName` | src/App.js:36 | a name of blanks is not reported as missing |
| `Validation.ValidateLineBreakAroundAt` | src/App.js:41 | a line break right before the `@` makes the email `invalid` |
| `Validation.IssuesIntersection` | src/App.js:47-59 | absent iff either input is absent; otherwise key `k` is in the result iff it is in both inputs with equal codes, and the result's code equals both |
| `Validation.ComputeIssuesIntersection` | src/App.js:47-59 | the loop over the keys of `y` that adds each agreeing key returns exactly `IssuesIntersection(x, y)`, in whatever order the keys are visited |
| `Validation.IntersectionCommutes` | src/App.js:47-59 | the intersection does not depend on the order of its arguments |
| `Validation.IntersectionIdempotent` | src/App.js:47-59 | a set intersected with itself is itself |
| `Validation.IntersectionMayBeEmpty` | src/App.js:47-59 | two present sets that disagree give a present, empty map, not an absent one |
| `Validation.IntersectionExamples` | src/App.js:47-59 | `{email: invalid}` with `{email: invalid, name: required}` gives `{email: invalid}`; an absent first argument gives absent |
| `Signup.ValidatedStatus` | src/App.js:106-117 | the first status a submit sets is `pending` iff validation finds nothing; otherwise `error` with exactly the local issues and no snapshot |
| `Signup.SettledStatus` | src/App.js:119-141 | a settled submission is `error` or `success`; `success` iff the reply's status is not `"error"`; an error carries a snapshot iff the server reported it; the snapshot is the submitted params and the issues are the server's, or `{base: error}` when it sent none; an error without a snapshot comes from a failed call and is `{base: error}` |
| `Signup.SubmitStatuses` | src/App.js:103-142 | submitting sets statuses ending in `error` or `success`; `pending` occurs iff local validation passes; with local issues the only status set is `error(issues)` without a snapshot; otherwise `pending` and then the settled status |
| `Signup.ServerErrorOutcomes` | src/App.js:121-141 | the four outcomes: server error with issues, server error without issues, an `ok` reply, a thrown call |
| `Signup.SubmitEmptyForm` | src/App.js:106-113 | the only status set when the empty form is submitted is `error({name: required, email: required})` without a snapshot; that no request is made follows from `Signup.Landing.HandleSubmit` |
| `Signup.SubmitWellFormedForm` | src/App.js:115-141 | submitting `A` / `a@b.co` goes `pending`, then settles |
| `Signup.SubmissionReenablesForm` | src/App.js:144 | with the count loaded, every status a submission passes through before the last disables the form, and the final one enables it again; without the count the form is never enabled |
| `Signup.CanSubmit` | src/App.js:144 | the button is enabled iff the count is loaded and the status is `fresh`, `error` or `success`, that is, not `pending` |
| `Signup.SubmitIssues` | src/App.js:145 | `status.issues` when the status is an error, otherwise empty |
| `Signup.NotUniqueStands` | src/App.js:152-156 | the server's `not-unique` email issue stands only when the status's issues carry it and the snapshot's email equals the current one |
| `Signup.UnresolvedIssues` | src/App.js:145-158 | no `base` key; the email issue shown is `not-unique` iff the server reported it and the snapshot's email equals the current email; every other issue shown (any issue other than a `not-unique` email) is reported with the same code by both the last submission and current validation, and every such issue is shown |
| `Signup.NotUniqueFollowsEmail` | src/App.js:150-158 | after a server `not-unique` error, the issue is shown exactly while the email equals the submitted one |
| `Signup.FixedIssueDisappears` | src/App.js:145-148 | after a local validation error, a field's issue is shown iff current validation still reports it with the same code |
| `Signup.LabelFor` | src/App.js:190-196 | spinner iff the count is absent; "Vouch with N others" iff the count N is above 1, carrying N; otherwise "I'll vouch for that" |
| `Signup.FetchedCount` | src/App.js:87 | the fetched count, or 0 for a falsy non-number |
| `Signup.CountFallbackLabel` | src/App.js:84-96 | once the fetch settles the spinner is gone; a missing count, 0 and 1 all read "I'll vouch for that" |
| `Signup.Messages` | src/App.js:20-32 | the catalog: `not-unique` and `invalid` have a text only under `email`, `required` under `name` and `email`, `error` only under `base`, and no other code has a text |
| `Signup.MessageShown` | src/App.js:20-32 | a field shows the text for a code iff the catalog has that code under that field; an unknown code shows nothing |
| `Signup.FieldMessage` | src/App.js:173-185 | a field shows a text iff its unresolved issue's code is in the catalog under that field, and then it is that code's text |
| `Signup.BaseMessage` | src/App.js:186-188 | the form-level text is shown iff the status is an error whose own `base` issue is in the catalog, whatever the fields hold now |
| `Signup.MessagesCovered` | src/App.js:175-187 | every locally raised issue and the server's `not-unique` have a text; a failed call shows the base message; a local validation failure shows none |
| `Signup.Landing.Params` | src/App.js:80 | the parameters a render sees are the current name and email |
| `Signup.Landing.constructor` | src/App.js:74-83 | on mount the name and email are empty, the status is `fresh`, the count is not loaded and the unmount flag is clear |
| `Signup.Landing.SetName` | src/App.js:173-178 | only `name` changes, to the typed value |
| `Signup.Landing.SetEmail` | src/App.js:179-185 | only `email` changes, to the typed value |
| `Signup.Landing.ReceiveCount` | src/App.js:85-89 | before unmount, the count becomes `FetchedCount(count)`; after unmount nothing changes |
| `Signup.Landing.CountFailed` | src/App.js:90-96 | before unmount, the count becomes 0; after unmount nothing changes |
| `Signup.Landing.Unmount` | src/App.js:98-100 | sets the flag the count callbacks check |
| `Signup.Landing.BeginSubmit` | src/App.js:103-117 | the status becomes `ValidatedStatus` of the current params; the params are returned for posting iff it is `pending`; exactly one status is appended to the history |
| `Signup.Landing.CompleteSubmit` | src/App.js:119-141 | the status becomes `SettledStatus(submitted, outcome)`; exactly one status is appended; the object invariant is kept |
| `Signup.Landing.HandleSubmit` | src/App.js:103-142 | the statuses appended are exactly `SubmitStatuses` of the params; a request is made iff validation passes |
| `Routing.Route` | src/App.js:66-70 | the landing view iff the pathname is exactly `/`, the not-found view otherwise |
| `Routing.PrivacyIsNotFound` | src/App.js:66-70 | `/privacy` renders the not-found view |

## Left out

- Rendering is not modelled: JSX, styled-components, the logos, the footer links, the loading bar and the thank-you haiku are presentation.
- Browser navigation is not modelled: `createBrowserHistory`, `history.listen` and `navigate` are plumbing. Only the pathname-to-view choice is kept, as `Route`.
- `event.preventDefault()` at the start of the submit handler is not modelled. It only stops the browser's own form submission and page load, which the model has no notion of.
- `postResponse` and `getResponseCount` are foreign asynchronous calls. What they come to is a parameter of the methods that handle it.
- Concurrency is not modelled. The `await` is the split between `BeginSubmit` and `CompleteSubmit`, so edits can fall in between. Several submissions in flight at once, which the code does not prevent, are not.
- The message texts are left out. Only which (field, code) pairs have a text is kept.
- Issue keys other than `name`, `email` and `base` are not modelled, though a server could send them.
- Codes that name inherited object properties (such as `constructor`) are not modelled. In JavaScript, `messages.email[code]` would find something for them.
- A resolved reply that is not an object is not a case of its own. A `null` or `undefined` reply throws on `result.status`, so its effect is the one `Threw` gives. Any other non-object reply has no `status` and gives `success`, as a `Resolved` with a status other than `"error"` does.
- Non-integer and `NaN` counts are not modelled.
- `BaseMessage`: a truthy `base` code that the catalog lacks still renders an issue element, an empty one. The model gives no message in that case and does not model the empty element.
- `UnresolvedIssues`: when a `not-unique` email issue has no snapshot, the JavaScript render would throw on `status.params.email`. The model reads that case as "does not stand" instead. `Landing.Valid()` shows that no reachable status has this shape.
- The `setStatus` calls that follow the `await` are not guarded against unmount in the code, and React ignores them. The model does not track this.
