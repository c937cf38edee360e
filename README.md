# Letter editor email flow

A Dafny model of the email-sending part of the letter editor in
`frontend/script.js`: the test that shows the placeholder of the editable area,
the weaker emptiness test of the two send buttons, the email-shape check
`^[^\s@]+@[^\s@]+\.[^\s@]+$`, and the small state machine of the page
(editor shown, email form shown, the two address fields) driven by the
"send letter", "cancel" and "send email" buttons and by the reply to the
email request.

Files and modules:

- `js_string.dfy`, module `JsString`: JavaScript's `trim` and the whitespace
  class `\s` (one character set serves both, as in ECMAScript), with the
  proof that `Trim` removes exactly the surrounding whitespace, is unique,
  idempotent and blind to added whitespace.
- `letter_content.dfy`, module `LetterContent`: the placeholder test (nine
  serialisations count as empty), the send gate (trimmed content `''` or
  `'<br>'`), and `VisibleText`, an independent reading of "holds no text"
  (the characters outside tags).
- `email_shape.dfy`, module `EmailShape`: the email-shape test three ways —
  in plain words (`WellShaped`), as the split the regular expression looks for
  (`MatchesPattern`) and as a one-pass scanner (`IsEmailShaped`) — proved to
  agree.
- `letter_page.dfy`, module `LetterPage`: class `Page` with the page's
  fields and one method per handler. The network call is an output value
  (`Blocked(reason)` or `Request(sender, recipient, content)`), the reply an
  input to `OnResponse(ok)`. `Gate` states the handler's checks in order.

The test at `frontend/script.js:236` lists nine empty forms (bold, italic and
underline each empty and around a line break, plus `''`, `'<br>'` and
`'<p></p>'`); its comment invites adding more, and the model takes the nine as
written.

## Model

| member | source | states |
|---|---|---|
| `JsString.IsWhitespace` | frontend/script.js:235 | the ECMAScript WhiteSpace and LineTerminator characters, the one set that `trim` (also `frontend/script.js:299-300`) and `\s` (`frontend/script.js:310`) use |
| `JsString.Trim` | frontend/script.js:235 | `String.prototype.trim`: the leading and then the trailing whitespace removed; its meaning is stated by the lemmas below |
| `JsString.TrimRemovesSurroundingWhitespace` | frontend/script.js:299-300 | `trim` leaves a string with no whitespace at either end, and what it removed on both sides is whitespace |
| `JsString.TrimStartDropsLeadingWhitespace` | frontend/script.js:299 | the leading half of `trim` keeps a suffix not starting with whitespace and drops only whitespace |
| `JsString.TrimEndDropsTrailingWhitespace` | frontend/script.js:299 | the trailing half keeps a prefix not ending with whitespace and drops only whitespace |
| `JsString.TrimOfUnique` | frontend/script.js:235 | there is exactly one way to strip surrounding whitespace, so `Trim` is determined by that description |
| `JsString.TrimOfTrimmed` | frontend/script.js:235 | a string with no whitespace at its ends is unchanged by `trim` |
| `JsString.TrimIdempotent` | frontend/script.js:235 | trimming twice gives the same as trimming once |
| `JsString.TrimIgnoresSurroundingWhitespace` | frontend/script.js:235 | whitespace added at either end does not change the trim |
| `LetterContent.IsVisuallyEmpty` | frontend/script.js:236 | the nine serialisations the placeholder test counts as empty, as written |
| `LetterContent.ShowsPlaceholder` | frontend/script.js:235-236 | the placeholder test applied to the trimmed content |
| `LetterContent.IsBlankLetter` | frontend/script.js:263 | the send gate of both send handlers: trimmed content `''` or `'<br>'` |
| `LetterPage.Page.UpdatePlaceholder` | frontend/script.js:232-243 | the `editable-area-empty` flag is set iff the trimmed content is one of the nine empty forms; the new flag does not depend on the old, so a repeated call changes nothing |
| `LetterPage.Page.constructor` | frontend/script.js:521-525 | the loaded page shows the editor, hides the form, has empty fields and the placeholder flag of its initial content |
| `LetterPage.Page.Edit` | frontend/script.js:245-251 | an edit, possible only while the editable area is shown (it is hidden with the form open, `frontend/script.js:268-270`), replaces the content, keeps the editor screen and leaves the placeholder flag matching the new content |
| `LetterContent.PlaceholderTestStable` | frontend/script.js:232-243 | the placeholder test gives the same answer on already trimmed content |
| `LetterContent.TestsIgnoreSurroundingWhitespace` | frontend/script.js:235 | neither emptiness test depends on whitespace around the content |
| `LetterContent.TestsOnTrimmedContent` | frontend/script.js:236 | on content without surrounding whitespace both tests compare the content itself against their lists |
| `LetterContent.BlankLetterShowsPlaceholder` | frontend/script.js:318 | every content the send gate refuses also shows the placeholder |
| `LetterContent.SendGateIsWeaker` | frontend/script.js:263 | `<b></b>` and `<p></p>` show the placeholder but pass the send gate |
| `LetterContent.VisuallyEmptyHasNoText` | frontend/script.js:233-236 | each of the nine empty forms has no characters outside its tags |
| `LetterContent.TagOnlyContentMissedByPlaceholder` | frontend/script.js:236 | `<div></div>` and `<div><br></div>` have no text yet do not show the placeholder: the list is not every tag-only content |
| `EmailShape.IsEmailShaped` | frontend/script.js:310-311 | the scanner accepts exactly the strings with no whitespace, one `@` with something before it, and after it a `.` with a character on each side |
| `EmailShape.WellShaped` | frontend/script.js:310 | the shape in plain words: no whitespace, exactly one `@` with something before it, and after it a `.` with a character on each side |
| `EmailShape.MatchesPattern` | frontend/script.js:310 | the regular expression as the split it looks for: a non-empty `[^\s@]` run, `@`, a non-empty run, `.`, a non-empty run |
| `EmailShape.WellShapedIffMatchesPattern` | frontend/script.js:310 | that description accepts exactly the strings the regular expression matches: non-empty `[^\s@]` run, `@`, non-empty run, `.`, non-empty run |
| `EmailShape.AcceptsCommonAddresses` | frontend/script.js:310 | `a@b.com`, `c@d.com` and `x.y@mail.example.org` are accepted |
| `EmailShape.RejectsMalformedAddresses` | frontend/script.js:310 | no domain dot, empty local part, dot right after `@`, trailing dot, two `@`s and inner whitespace are all refused |
| `LetterPage.Page.OnSendLetter` | frontend/script.js:260-275 | a letter whose trimmed content is `''` or `'<br>'` changes nothing and the form stays hidden; otherwise editor, actions row and download button are hidden and the form shown, fields and content untouched |
| `LetterPage.Page.RestoreEditor` | frontend/script.js:282-291 | the updates shared by "cancel" and a successful reply (also `frontend/script.js:349-355`): form hidden, both fields `''`, editor, actions row and download button shown |
| `LetterPage.Page.OnCancel` | frontend/script.js:280-292 | the form is hidden, both fields are `''`, editor, actions row and download button are shown again; content and placeholder untouched |
| `LetterPage.Page.OnSendEmail` | frontend/script.js:298-336 | the outcome is the first failing gate in source order (empty trimmed field, malformed trimmed address, blank letter), else one request with the trimmed sender, trimmed recipient and untrimmed content; the page is not changed; on the form screen of a valid page the empty-letter gate never fires |
| `LetterPage.Page.OnResponse` | frontend/script.js:338-360 | on success the form closes, the editor UI returns and both fields are cleared; on failure nothing on the page changes |
| `LetterPage.Gate` | frontend/script.js:304-336 | the checks of "send email" in source order on the trimmed fields and the untrimmed content, ending in the one request body |
| `LetterPage.ComposingLetterIsNotBlank` | frontend/script.js:316-321 | while the form is shown the letter has already passed "send letter" and cannot be edited, so the "letter is empty" alert of "send email" is unreachable |
| `LetterPage.RequestIsValidated` | frontend/script.js:299-336 | a request is produced iff both trimmed addresses are well shaped and the letter passes the send gate, and its fields are exactly those values |
| `LetterPage.GateOrder` | frontend/script.js:304-321 | which alert is shown: a missing field wins, then a malformed address, then an empty letter |
| `LetterPage.GateOnCleanInput` | frontend/script.js:327-336 | addresses and letter that need no trimming and pass every gate are sent as they are |
| `LetterPage.HelloLetterIsSent` | frontend/script.js:298-356 | `Hello` from `a@b.com` to `c@d.com` opens the form, gives one request with those values, and a successful reply hides the form and clears both fields |
| `LetterPage.EmptyDraftKeepsFormHidden` | frontend/script.js:263-266 | with an empty draft "send letter" opens nothing and the form stays hidden |

## Left out

- Fingerprint collection and submission (`frontend/script.js:4-145`): browser probes and a telemetry request, with no logic to verify; not modelled.
- Formatting toolbar (`frontend/script.js:165-217`): a wrapper over the browser's editing commands; not modelled.
- Image export and heart backgrounds (`frontend/script.js:366-515`): DOM construction, random styling and an external rasteriser; not modelled.
- `backend/app.py` and `app.py`: server routes, storage and a geolocation lookup; not part of this model.
- Alerts and console output: each blocked path is represented by its `BlockReason`, the success and failure alerts by the `ok` argument of `OnResponse`; the message texts are not modelled.
- The network: the request is returned as a value and the reply is a boolean; the HTTP status, the JSON body and its error message are not modelled. A reply that is 2xx but has an unreadable body also takes the failure path in the source; the model only sees `ok == false`.
- Timing and reentrancy: the source has no "submitting" state and no guard against a second click or a late reply, so `OnResponse` is accepted whatever the page currently shows, as the source's callbacks are.
- Display values: `block`, `flex` and `none` are abstracted to booleans; the initial layout (editor shown, form hidden) and the initially empty sender and recipient fields come from the page's HTML and CSS, which are not part of this model; a browser that restores form values on reload would start with other field values, which the constructor does not cover.
- The handlers are registered only when their elements exist (`frontend/script.js:259`, `279`, `297`); the model assumes all elements exist, and a missing `.actions-row`, which would throw in the source, is not modelled.
- Strings: JavaScript strings are UTF-16 code units, Dafny's `string` is a sequence of Unicode scalar values. Every whitespace character is in the Basic Multilingual Plane and a surrogate is never whitespace or `@`, so trim and the email test give the same answers on both readings. The browser's serialisation of the editable area into `innerHTML` is not modelled: the content is taken as the string it produces.
- `LetterContent.VisibleText`: a simple reading of markup (anything between `<` and the next `>` is a tag); entities such as `&nbsp;` count as text.
