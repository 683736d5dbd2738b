# Buku tamu: the guest form, modelled in Dafny

The guest book is a single React page. A visitor types their name, presses
"Cek Undangan", and the name is checked against an invitation list fetched once
from a spreadsheet proxy. If the name is on the list, the visitor confirms
attendance, the number of guests and a message. The response is appended to a
JSON array kept in the browser's local storage under the key `bukuTamu`, and an
admin panel lists every stored response.

This project models the part of `App.jsx` that has logic in it:

- `js_string.dfy` (module `JsString`): JavaScript's `String.prototype.trim`.
  It strips the WhiteSpace and LineTerminator code points of the ECMAScript
  Language Specification from both ends of a string. The module proves that
  `trim` splits a string into white space, trimmed text and white space, that
  it is idempotent, that its result is empty exactly for blank input, and that
  padding never changes it.
- `guest_list.dfy` (module `GuestList`): the guest verifier. It covers
  `data.map(entry => entry.Nama?.trim()).filter(...)`, the checks of
  `fetchGuestList` (not ok, not an array, empty list, and the TypeError the map
  throws on a `null` entry or on a `Nama` that is neither nullish nor a
  string), and the membership test `guestList.includes(name.trim())`.
- `submissions.dfy` (module `Submissions`): the local-storage log. It covers the
  read (an absent key reads as `[]`), the push and write-back of one record, and
  the rows `AdminPanel` renders. The browser storage is a class whose map from
  keys to logs the submit handler reassigns.
- `guest_form.dfy` (module `GuestBook`): the component. It has:
  - the state slots as a datatype `FormState`;
  - the render precedence as `ViewOf`;
  - the events the handlers react to, with the guard that says where each
    handler is rendered (`Enabled`) and their effect (`Step`);
  - `Run` and `Recorded` over event sequences, and the reachable-state
    invariant `Inv`.

  The class `GuestForm` holds the same slots as fields, and its handler methods
  each produce `Step` of the old state. A ghost field `checkedName` remembers
  the name the last check looked at.
- `scenarios.dfy` (module `Scenarios`): concrete instances on literal data.
- `wrappers.dfy` (module `Wrappers`): `Option` and `Result`.

Two behaviours of the code are stated on purpose:

- Editing the name does not reset `isValid`.
- The record stores the raw `name` field, not its trimmed form, and that field
  may have been edited after the check (App.jsx:53, 76).

So the recorded name need not be the name that passed the check.
`StaleVerdictFromMount` proves this for every sheet that loads, every invited
name and every other name, and `RawNameRecordedFromMount` proves that
surrounding white space is kept.

Two further facts about the code shape the model:

- An entry that is `null`, or whose `Nama` is neither nullish nor a string,
  makes the load fail with a TypeError: the property read (on `null`) or the
  `trim` call throws inside the `try` (App.jsx:29, 35-37). A `null` or absent
  `Nama` short-circuits `?.` to `undefined`, and the filter drops that entry
  (App.jsx:29-30).
- The form has no `noValidate`, so the browser's constraint validation blocks
  the submit while the guest count is below `min="1"` (App.jsx:86, 98-104,
  113). The model has this as a guard on the submit event, and every stored
  record counts at least one guest.

## Model

| member | source | states |
|---|---|---|
| JsString.TextStart | buku-tamu-wedding/src/App.jsx:29 | the first non-space position at or after `i`: everything before it is white space, the character there is not |
| JsString.TextEnd | buku-tamu-wedding/src/App.jsx:29 | the end of the text: white space from there to the end, and no white space just before it |
| JsString.Lead | buku-tamu-wedding/src/App.jsx:29 | what `trim` removes at the front is white space |
| JsString.Trail | buku-tamu-wedding/src/App.jsx:29 | what `trim` removes at the back is white space |
| JsString.Trim | buku-tamu-wedding/src/App.jsx:29 | definition of `String.prototype.trim`; its properties are in `TrimIsTrimmed`, `TrimSplits`, `TrimFinds`, `TrimEmptyIff`, `TrimIdempotent` and `TrimIgnoresPadding` |
| JsString.TrimIsTrimmed | buku-tamu-wedding/src/App.jsx:29 | the result of `trim` is empty or starts and ends with a non-space character |
| JsString.TrimSplits | buku-tamu-wedding/src/App.jsx:29 | every string is its removed lead, its `trim` and its removed trail, in that order |
| JsString.TrimEmptyIff | buku-tamu-wedding/src/App.jsx:30 | `trim` yields the empty string exactly when the input is all white space |
| JsString.TrimFinds | buku-tamu-wedding/src/App.jsx:29 | white space + non-empty trimmed text + white space trims to that text |
| JsString.TrimmedIsFixed | buku-tamu-wedding/src/App.jsx:29 | a trimmed string is its own `trim` |
| JsString.TrimIdempotent | buku-tamu-wedding/src/App.jsx:47 | trimming twice is trimming once |
| JsString.TrimIgnoresPadding | buku-tamu-wedding/src/App.jsx:47 | added white space on either side never changes `trim` |
| GuestList.MapEntry | buku-tamu-wedding/src/App.jsx:29 | `entry.Nama?.trim()` yields a trimmed string whenever it yields a string |
| GuestList.Kept | buku-tamu-wedding/src/App.jsx:30 | definition of the filter `typeof name === "string" && name.length > 0` on the mapped entry; its properties are in `NamesSelectKept` and `BlankNeverInvited` |
| GuestList.Names | buku-tamu-wedding/src/App.jsx:28-30 | the map and filter succeed exactly when no entry throws, and then give at most one name per entry, each non-empty and trimmed |
| GuestList.NamesSelectKept | buku-tamu-wedding/src/App.jsx:28-30 | the names are, in sheet order, the trimmed `Nama` of exactly the entries whose `Nama` is a non-blank string; every other entry is dropped |
| GuestList.NamesCount | buku-tamu-wedding/src/App.jsx:28-30 | there are as many names as kept entries |
| GuestList.LoadGuestList | buku-tamu-wedding/src/App.jsx:23-32 | loading succeeds exactly for an ok array response whose entries all map and leave a name; the list is then non-empty and clean; the empty-list error occurs exactly when no name survives |
| GuestList.LoadedListKeepsOrder | buku-tamu-wedding/src/App.jsx:28-34 | the list a successful load stores has one name per kept entry, in sheet order |
| GuestList.Includes | buku-tamu-wedding/src/App.jsx:47 | `includes` is true exactly when some element equals the value |
| GuestList.IsInvited | buku-tamu-wedding/src/App.jsx:47 | the verdict is exact, case-sensitive membership of the trimmed candidate |
| GuestList.InvitedIgnoresPadding | buku-tamu-wedding/src/App.jsx:47 | white space around the typed name never changes the verdict |
| GuestList.BlankNeverInvited | buku-tamu-wedding/src/App.jsx:30 | a blank name is never invited by a loaded list |
| Submissions.AttendanceValue | buku-tamu-wedding/src/App.jsx:93-94 | the stored attendance is "hadir" or "tidak" |
| Submissions.ReadLog | buku-tamu-wedding/src/App.jsx:52 | an absent key reads as the empty log |
| Submissions.Appended | buku-tamu-wedding/src/App.jsx:52-54 | after an append the key is present, and no other key is added or changed |
| Submissions.AppendGrowsByOne | buku-tamu-wedding/src/App.jsx:52-54 | an append grows the log by exactly one, keeps every earlier entry in place and puts the new one last |
| Submissions.AppendAllAccumulates | buku-tamu-wedding/src/App.jsx:50-55 | any number of appends made one after another, from one mount of the form or several sharing the storage, leave the old log followed by the new entries in submission order |
| Submissions.LocalStorage.constructor | buku-tamu-wedding/src/App.jsx:127 | a fresh storage holds no keys |
| Submissions.LocalStorage.GetLog | buku-tamu-wedding/src/App.jsx:52 | the read returns the stored log, or the empty log when the key is absent |
| Submissions.LocalStorage.SetLog | buku-tamu-wedding/src/App.jsx:54 | the write replaces the `bukuTamu` value and nothing else |
| Submissions.RowOf | buku-tamu-wedding/src/App.jsx:143-147 | definition of one table row: name, attendance value, count and message; its properties are in `AdminPanel` and `AttendanceValue` |
| Submissions.AdminPanel | buku-tamu-wedding/src/App.jsx:126-149 | one table row per stored entry, in storage order, with its name, attendance, count and message |
| GuestBook.Initial | buku-tamu-wedding/src/App.jsx:6-14 | definition of the `useState` defaults; its properties are in `InitialInv` and `LoadedState` |
| GuestBook.ViewOf | buku-tamu-wedding/src/App.jsx:58-121 | definition of the render: the early returns in order, then the form with its two guarded parts; its properties are in `ViewPrecedence` |
| GuestBook.Enabled | buku-tamu-wedding/src/App.jsx:58-61 | definition of where each handler is rendered (lines 58-61, 85, 119) and of the submit's constraint validation (lines 98-104), the load only while loading; its properties are in `FailureIsFinal`, `SubmittedIsFinal`, `SubmitOutcome` and `RecordedGuestsPositive` |
| GuestBook.AfterLoad | buku-tamu-wedding/src/App.jsx:34-39 | definition of the `try`/`catch`/`finally`: store the list or the message, then end loading; its properties are in `LoadOutcome` and `LoadedState` |
| GuestBook.Step | buku-tamu-wedding/src/App.jsx:17-76 | definition of every handler's effect on the state (lines 17-55, 76, 91, 102, 110); its properties are in `StepInv`, `CheckVerdict`, `CheckIdempotent`, `EditKeepsVerdict` and `SubmitOutcome` |
| GuestBook.SubmissionOf | buku-tamu-wedding/src/App.jsx:53 | definition of the pushed record, with the raw name; its properties are in `RawNameRecordedFromMount` and `StaleVerdictFromMount` |
| GuestBook.Run | buku-tamu-wedding/src/App.jsx:16-121 | definition of one mount of the form as a sequence of events, each allowed only where it can happen; its properties are in `RunInv`, `RunFirst` and `FailureIsFinal` |
| GuestBook.Recorded | buku-tamu-wedding/src/App.jsx:50-55 | definition of the records one mount pushes, in order; its properties are in `AtMostOneSubmission`, `RecordedGuestsPositive` and the from-mount lemmas |
| GuestBook.InitialInv | buku-tamu-wedding/src/App.jsx:6-14 | the mount state is reachable-consistent and shows the loading notice |
| GuestBook.StepInv | buku-tamu-wedding/src/App.jsx:16-121 | every event that can happen keeps the invariant (loading means untouched, error means the fixed failure state, a loaded list is non-empty and clean, submitted implies a positive verdict) |
| GuestBook.RunInv | buku-tamu-wedding/src/App.jsx:16-121 | every state reachable by a sequence of events satisfies the invariant |
| GuestBook.LoadOutcome | buku-tamu-wedding/src/App.jsx:23-39 | once the fetch settles, loading ends on every outcome; on success the list is stored and the bare form is shown; on failure the list stays empty and the error view is shown |
| GuestBook.LoadedState | buku-tamu-wedding/src/App.jsx:34-39 | a successful load stores the list, clears loading and shows the form with neither the submission form nor the notice |
| GuestBook.ViewPrecedence | buku-tamu-wedding/src/App.jsx:58-121 | loading, then error, then thank-you, then the form; the submission form shows exactly when `isValid`; the notice exactly when `!isValid` and the name is non-empty |
| GuestBook.FailureIsFinal | buku-tamu-wedding/src/App.jsx:59 | within one mount, after a failed load no event can happen and the error view stays |
| GuestBook.SubmittedIsFinal | buku-tamu-wedding/src/App.jsx:61-68 | within one mount, after a submit no event can happen and the thank-you view stays |
| GuestBook.CheckVerdict | buku-tamu-wedding/src/App.jsx:46-48 | after a check `isValid` is exactly whether the trimmed name is on the list |
| GuestBook.CheckIdempotent | buku-tamu-wedding/src/App.jsx:47 | checking again with the same name and list changes nothing |
| GuestBook.EditKeepsVerdict | buku-tamu-wedding/src/App.jsx:76 | editing the name keeps `isValid` and the list, so the submission form stays as it was, and the notice follows the new text |
| GuestBook.SubmitOutcome | buku-tamu-wedding/src/App.jsx:50-64 | submitting needs a positive verdict, no earlier submit and a guest count of at least one; afterwards the thank-you view shows the raw name |
| GuestBook.RecordedGuestsPositive | buku-tamu-wedding/src/App.jsx:86-104 | every record a possible run pushes has a guest count of at least one, because constraint validation blocks the submit below `min="1"` |
| GuestBook.AtMostOneSubmission | buku-tamu-wedding/src/App.jsx:55-61 | one mount of the form pushes at most one record, however its events go |
| GuestBook.UnderflowBlocksSubmit | buku-tamu-wedding/src/App.jsx:98-104 | a guest count set below one makes the next submit impossible |
| GuestBook.RunFirst | buku-tamu-wedding/src/App.jsx:16-121 | a run is its first event followed by the rest, for both the state and the records pushed |
| GuestBook.CheckedNameRecordedAsTyped | buku-tamu-wedding/src/App.jsx:46-55 | with a guest count of at least one, a name that passes the check can be submitted at once and is recorded as typed |
| GuestBook.EditAfterSubmitEnabled | buku-tamu-wedding/src/App.jsx:76-86 | with a guest count of at least one, after a positive check any other name can be typed and submitted, and is the one recorded |
| GuestBook.RawNameRecordedFromMount | buku-tamu-wedding/src/App.jsx:47-53 | from mount and for every sheet, a name that passes the check is recorded untrimmed, with the default attendance, count and message |
| GuestBook.StaleVerdictFromMount | buku-tamu-wedding/src/App.jsx:76-86 | from mount and for every sheet, one positive check lets any name, invited or not, be recorded |
| GuestBook.GuestForm.constructor | buku-tamu-wedding/src/App.jsx:6-14 | the component starts in the mount state |
| GuestBook.GuestForm.FetchGuestList | buku-tamu-wedding/src/App.jsx:17-40 | the load handler produces the load step: list on success, the fixed message on failure, loading false either way |
| GuestBook.GuestForm.SetName | buku-tamu-wedding/src/App.jsx:76 | only `name` changes |
| GuestBook.GuestForm.HandleCheck | buku-tamu-wedding/src/App.jsx:46-48 | `isValid` becomes the verdict on the current name; nothing else changes |
| GuestBook.GuestForm.SetAttendance | buku-tamu-wedding/src/App.jsx:91 | only `attendance` changes |
| GuestBook.GuestForm.SetGuests | buku-tamu-wedding/src/App.jsx:102 | only `guests` changes |
| GuestBook.GuestForm.SetMessage | buku-tamu-wedding/src/App.jsx:110 | only `message` changes |
| GuestBook.GuestForm.HandleSubmit | buku-tamu-wedding/src/App.jsx:50-56 | the log gains the raw `{name, attendance, guests, message}` at its end, `submitted` becomes true, and some earlier check had passed, though perhaps on another name |
| Scenarios.TrimPaddedBob | buku-tamu-wedding/src/App.jsx:29 | `" Bob "` trims to `"Bob"` |
| Scenarios.NamesOfTwo | buku-tamu-wedding/src/App.jsx:28-30 | two entries with non-blank names load as those names in order |
| Scenarios.PaddedAliceInvited | buku-tamu-wedding/src/App.jsx:47 | `" Alice "` passes against the list holding `"Alice"` |
| Scenarios.AliceAndBobLoad | buku-tamu-wedding/src/App.jsx:28-34 | the sheet `[{Nama: "Alice"}, {Nama: " Bob "}]` loads as `["Alice", "Bob"]` |
| Scenarios.AliceAndBobCheck | buku-tamu-wedding/src/App.jsx:47 | `"Bob"` is invited and `"bob"` is not |
| Scenarios.EmptySheetFails | buku-tamu-wedding/src/App.jsx:32 | an empty sheet is the empty-list failure |
| Scenarios.MalloryNotInvited | buku-tamu-wedding/src/App.jsx:47 | `"Mallory"` is not invited by the list holding `"Alice"` |
| Scenarios.FirstSubmission | buku-tamu-wedding/src/App.jsx:52-54 | one submission against an empty storage is the whole log |
| Scenarios.TwoSessions | buku-tamu-wedding/src/App.jsx:52-54 | two submissions made one after another on one storage leave both, in order |

## Left out

- The `fetch` of the sheet, its HTTP status and the JSON decoding of its body
  are network I/O. They are an abstract `Response`: unreachable, not ok, not an
  array, or an array of entries.
- An entry that is an object with a `Nama` getter or its own `trim` method is
  not modelled. Number, string and boolean entries, and arrays, behave as
  `Record(Missing)`; a `null` entry throws.
- `console.error` logging on a failed load is output only.
- React's hooks, the asynchrony of `useEffect`, re-rendering and all markup and
  styling are left out. The render is the abstract `View`, and a handler is
  callable only in a state whose view renders it. Two submits fired before a
  re-render are not modelled.
- `localStorage` is not modelled as JSON text. A stored string that
  `JSON.parse` rejects, or one that parses to something other than an array
  (such as `"null"` or `"{}"`), throws unhandled in the code, at the parse, at
  `data.push` (line 53) or at `data.map` (line 142). The model stores only
  logs, so it does not model these. A quota error from `setItem` is not
  modelled either.
- Submissions.AppendAllAccumulates: appends are atomic in the model. Sessions in
  several tabs whose read, push and write (lines 52-54) interleave can lose an
  entry, since the last writer wins.
- The `App` toggle (lines 165-180) unmounts `GuestForm`. Switching back starts
  a new mount at `Initial()` with a new fetch, so a visitor can retry a failed
  load or submit again without reloading the page. The model covers one mount:
  `FailureIsFinal`, `SubmittedIsFinal` and `AtMostOneSubmission` hold per
  mount, and successive mounts append to the same storage
  (`AppendAllAccumulates`).
- `Number(e.target.value)` can give fractions (an emptied field gives 0).
  `guests` is an `int`, so the `step` check of constraint validation, which
  rejects fractions, has nothing to act on. Attendance is one of the two select options.
- Strings are sequences of Unicode scalar values, not UTF-16 code units, so lone
  surrogates are not representable.
- GuestBook.GuestForm.HandleSubmit: the `e.preventDefault()` call has no state
  effect in the model.
