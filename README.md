# QR hand-off of the QR manager server, in Dafny

The QR manager server passes a one-time pairing code (the "QR string") from an
administrator to one named client. The system holds a single session made of
two independent slots, the current client id and the current QR string. Each
slot is a file of its own.

- The admin page's form posts a pair to `POST /set-qr`. The server checks that
  both fields are non-empty strings. It then writes the trimmed QR string and
  the trimmed client id, one after the other. Either write may fail on its own,
  and nothing is rolled back.
- A client polls `GET /scan/:clientId`. When the requested id is non-empty and
  equal, exactly and untrimmed, to the stored id, the page shows the stored QR
  string as an image. It shows a waiting notice when that string is empty, and
  an error notice when the encoder fails. Any other requester sees an
  "inactive" notice that names the stored client, or "None".
- The admin page shows the stored client id, or "None".

The model has three modules:

- `JsText` (`js_text.dfy`): JavaScript's `String.prototype.trim`. It is
  specified by the whitespace set ECMAScript defines, and it is pinned down by
  lemmas: trim returns the core of any padded string, it is idempotent, and it
  returns "" exactly on whitespace-only input.
- `HandOff` (`handoff.dfy`): the pure part. It covers validation, the effect
  of a submission on the two slots (`SubmitEffect`), the scan decision
  (`View`), the page choice (`Page`) and the admin status line. The lemmas
  state the properties of the protocol.
- `SessionStore` (`session_store.dfy`): the store as a class with the two
  `Option<string>` slots. Its `Submit` method performs the two writes step by
  step with a success flag and is proved equal to `SubmitEffect`. A scenario
  method states four hand-offs from first boot. It is verified for any two
  distinct non-empty client ids and any non-empty codes, none with surrounding
  whitespace. It uses `Submit` through its contract alone.

The outcomes of the two file writes and the encoder's success are parameters.
A slot read that throws is the value `None`.

The model follows the code where it departs from the behaviour one would
expect of a hand-off:

- One would expect both fields to be required non-empty after trimming. The
  code checks only that they are truthy strings, so a whitespace-only value is
  accepted and stored as "" (`WhitespaceOnlyPasses`, `WhitespaceClientLocksOut`).
- One would expect a failed read on the client path to read as "no session".
  The code does this for the client-id read only. The QR-string read at
  server.js:113 is not guarded, so a matching id with no QR file ends in
  `ReadFault`, where no page is sent. It is not `Pending`.
- One would expect the success page to link to the stored (trimmed) client id.
  The code links to the untrimmed one (see Findings).

## Model

| member | source | states |
|---|---|---|
| JsText.TrimStart | server.js:72 | the result is a suffix of the input, everything dropped is whitespace, and the result is empty or starts with a kept character |
| JsText.TrimEnd | server.js:79 | the result is a prefix of the input, everything dropped is whitespace, and the result is empty or ends with a kept character |
| JsText.Trim | server.js:72 | trim never lengthens a string, and its result is empty or starts and ends with a kept character |
| JsText.TrimIsSlice | server.js:72 | trim's result is a slice of the input with only whitespace before and after it |
| JsText.TrimOfPadded | server.js:72 | whatever whitespace surrounds a string with kept ends, trim returns exactly that string (uniqueness of trim's result) |
| JsText.TrimKeepsSolid | server.js:79 | a string that is empty or starts and ends with a kept character is unchanged by trim |
| JsText.TrimFixedIff | server.js:79 | trim leaves a string unchanged if and only if it is empty or starts and ends with a kept character |
| JsText.TrimIdempotent | server.js:79 | trimming twice is trimming once |
| JsText.TrimEmptyIff | server.js:79 | trim returns "" if and only if every character of the input is whitespace |
| HandOff.Validate | server.js:68-69 | a submission is accepted if and only if both fields are non-empty strings, and it carries the fields unchanged and untrimmed |
| HandOff.SubmitEffect | server.js:67-98 | invalid input gives 400 and the slots unchanged; 200 if and only if both writes land; 500 if and only if either fails; each slot becomes its trimmed field exactly when its own write lands and otherwise keeps its old value |
| HandOff.View | server.js:101-124 | inactive if and only if the requested id is empty or differs from the stored id; inactive names exactly what the admin status line shows (the stored id, or "None"); a rendered image encodes exactly the stored non-empty QR string; pending if and only if active with a stored "", read fault if and only if active with an unreadable QR file, error if and only if active and the encoder fails |
| HandOff.Page | server.js:137 | the page shows an image if and only if the view rendered one, and that image; an inactive page shows the notice naming the active client, a pending one the waiting notice, a failed encoding the generation-error notice; no page when the QR read threw |
| HandOff.AdminStatus | server.js:28-38 | the status line is never empty: it is the stored client id, or "None" when nothing (or "") can be read |
| HandOff.ConfirmationLinkId | server.js:89 | as written, the confirmation link's id equals the stored (trimmed) id if and only if the submitted id has no surrounding whitespace |
| HandOff.CorrectedConfirmationLinkId | server.js:88-89 | the corrected link's id is exactly the id a submission that writes the client id stores, and it has no surrounding whitespace |
| HandOff.AdminLinkId | server.js:49 | the admin page's link id is empty exactly when no non-empty client id can be read; otherwise it is the one id the scan page treats as active |
| HandOff.InvalidSubmitChangesNothing | server.js:95-96 | a submission with a missing, empty or non-string field reports 400 and leaves both slots as they were |
| HandOff.WhitespaceOnlyPasses | server.js:69-79 | a whitespace-only client id passes validation and, once written, is stored as "" |
| HandOff.SavedReplacesSession | server.js:70-87 | after a submission whose writes both land, the slots hold exactly the trimmed pair, whatever they held before |
| HandOff.SubmitTwiceJoins | server.js:70-84 | submitting a form twice leaves the slots as one submission in which every write that landed in either attempt landed |
| HandOff.SubmitIdempotent | server.js:72-79 | submitting the same form twice with the same write outcomes gives the same slots and status as submitting it once |
| HandOff.PartialWriteServesOldClient | server.js:70-93 | when the QR write lands and the client-id write fails, the status is 500 and the previous client's page shows the new QR string (no rollback) |
| HandOff.InactiveViewIgnoresQr | server.js:108-111 | an inactive view is the same whatever the stored QR string and encoder outcome are, so it cannot reveal the QR string; its page is the notice naming the admin page's active client |
| HandOff.EmptyRequestInactive | server.js:110 | an empty requested id is inactive whatever is stored |
| HandOff.AdminAgreesWithScan | server.js:29-49 | the scan page is active for exactly one requested id, the admin page's link id, and for none when that id is empty (taking the link's id to reach the route unchanged) |
| HandOff.HandOffRoundTrip | server.js:67-124 | after a saved submission, the trimmed client id's page shows an image of exactly the trimmed QR string (or the error notice if encoding fails), or waits if the QR string was whitespace only |
| HandOff.LaterSubmitRetiresEarlierClient | server.js:79-111 | after a saved submission for another client, an earlier client's page is inactive and names the new client |
| HandOff.WhitespaceClientLocksOut | server.js:69-111 | once a whitespace-only client id is stored, every requester's page is inactive and names "None" |
| HandOff.ConfirmationLinkMissesPaddedId | server.js:79-89 | as written, the confirmation link for a client id made of one leading whitespace character other than tab, LF or CR and a solid id, such as " client1", reaches an inactive page naming the stored id "client1" |
| HandOff.CorrectedLinkOpensActivePage | server.js:79-89 | with the corrected link, every saved submission whose client id is not whitespace only links to an active page (taking the link's id to reach the route unchanged) |
| SessionStore.Store.constructor | server.js:11-13 | the store starts with whatever the two files hold; on first boot both slots are absent |
| SessionStore.Store.Submit | server.js:67-98 | the two sequential writes with the success flag produce exactly the slots and status of SubmitEffect |
| SessionStore.Store.Scan | server.js:101-124 | over the store's slots: inactive if and only if the requested id is empty or is not the stored client id, naming what the admin status shows; a rendered image is exactly the stored non-empty QR string and needs the encoder to succeed; the generation error exactly when it fails on a matching id and non-empty QR string; pending and read fault exactly for a stored "" and a missing QR file |

## Left out

- HTTP routing, the root redirect, body parsing and the listening port are
  framework plumbing. The body parser's output is the `FormField` datatype:
  absent, a string, or an array or object.
- The HTML of both pages, the meta-refresh polling tag and the admin page's
  `oninput` script are presentation. The notices are constructors of
  `Notice`, not their texts.
- The `qrcode` encoder is a foreign call. It is the boolean `encodes`, and an
  image is identified by the text it encodes. The data-URL format is not
  modelled.
- The data directory, its environment-configured path and its creation at
  startup are filesystem details. The two files are the two slots.
- SessionStore.Store.Submit: a failed write leaves its slot unchanged. A write
  that truncates the file and then fails part-way (which `writeFileSync` can
  do) is not modelled, so such a slot is never left holding a prefix of the
  new text.
- A client-id read that throws on an existing file is not a state of the
  store. `View` takes the two reads as `Option` values and covers it there,
  but the store's `Scan` passes the slots as they are.
- What Express and Node do with the exception from the unguarded QR read
  depends on their versions. The model stops at `ReadFault`: no page is sent.
- Requests that interleave between the two writes are concurrency, which is
  outside this model. Submit and scan are atomic steps. Only the sequential
  partial write (one write lands, the other fails) is kept.
- Console logging.
- A link's id is taken to reach `/scan/:clientId` unchanged (`AdminLinkId`,
  `ConfirmationLinkId`, `CorrectedConfirmationLinkId` and the lemmas about
  them). The browser's URL parsing and Express's percent-decoding are not
  modelled. Ids outside this include those holding `?`, `#`, `/`, `%` or `"`,
  those with a tab, LF or CR anywhere (the URL parser deletes them), and
  those with trailing whitespace (the URL parser strips it).
- JavaScript strings are UTF-16 and Dafny's `char` is a Unicode scalar value.
  Every character trim removes is in the Basic Multilingual Plane, so trim
  agrees on both. Lone surrogates, and the UTF-8 round trip through the files,
  are not modelled.

## Findings

| source | as written | input that shows it | evidently intended | confidence | as-written member | corrected member |
|---|---|---|---|---|---|---|
| server.js:89 | the confirmation link is `/scan/` followed by the submitted client id untrimmed, while server.js:79 stores the trimmed id, and server.js:110 compares exactly | client id " client1" with a non-empty QR string, both writes succeeding: the link's id " client1" differs from the stored "client1", so the linked page is inactive | the link names the stored (trimmed) id, so it opens the client's active page | medium, not executed; a browser strips trailing whitespace from a link and deletes tabs, LF and CR, but keeps a leading space as %20, which Express decodes back | HandOff.ConfirmationLinkMissesPaddedId | HandOff.CorrectedLinkOpensActivePage |
