# Event-planning app: RSVP editor, expense endpoint and client session, modelled in Dafny

This project models the few state-changing rules of a small event app written in Next.js and React. The rest of the app is CRUD glue.

- **RSVP page** (`pages/invite.tsx`, module `Invite`). The page holds a main guest and a list of companion guests. The list holds at most 4 companions when the `sg` query parameter is present and at most 1 otherwise. Each companion has a name-input ref and an age-input ref, and the two ref lists grow and shrink in lockstep with the guest list. Names are stored upper-cased and ages as typed. The form only submits once the main guest's required name and age are filled in. Submit then looks for the first companion that has a name but no age; when there is none, the confirmation modal opens. Confirming posts the invite, always closes the modal, and sets `confirmed` only when the request succeeds. The page is the class `InvitePage`. The list operations are functions: `RemoveAt`, `EditGuestAt`, `FirstIncomplete`.
- **Expense collection endpoint** (`pages/api/expenses.ts`, module `Expenses`). `Handle` takes the data file as read and returns the response plus the list written back, if any. GET returns 200 and the list. POST appends one record with id `last.id + 1`, or 1 for an empty list, and returns 201 and that record. Any other method returns 405 and writes nothing. A missing or empty file reads as the empty list. Lemmas show that, when the file's ids increase, POSTs keep them strictly increasing, so the new id is distinct from every id stored in the file (an id freed by a delete can be handed out again), and that POSTs starting from an empty file number the records 1, 2, 3, …
- **Client session** (`pages/login.tsx`, `pages/index.tsx`, modules `Session`, `Login`, `Home`). Both pages share one store, the class `LocalStorage`. A successful login writes `loggedIn = "true"` and `loginExpiry = now + 864000000` as decimal text, then navigates to `/`. A failed login sets only the error message. When the home page loads, it admits the visitor only while both keys are set and the expiry is not in the past; otherwise it removes both keys and redirects to `/login`. Logout does the same whatever was stored. The home page also has three small state machines: the add form, inline editing, and delete confirmation. The add form and save-edit share one guard: the description is not blank and the value is not 0.
- **Text** (module `Text`). `toUpperCase` for Basic Latin and Latin-1 letters, and the blank test `!s.trim()`.

Inputs that come from outside are passed in as parameters: the clock (`now`), the server's replies (`reply`, `succeeded`), the query string (`query`) and the data file's parsed contents (`DataFile`). Outputs that leave the page are returned as results: request bodies, navigations, and the list written to the file.

The expense collection endpoint numbers records from the data file itself: last id + 1, or 1 for an empty file. An unsupported method gets 405 with a JSON message and no `Allow` header.

## Model

| member | source | states |
|---|---|---|
| `Text.UpperChar` | pages/invite.tsx:69 | a character changes exactly when it is a lower-case Basic Latin or Latin-1 letter; the result holds no lower-case letter; it is two characters exactly for ß |
| `Text.UpperCharRoundTrip` | pages/invite.tsx:69 | every lower-case letter except ß and µ becomes one different character whose lower-case form is the letter again, so distinct letters get distinct capitals |
| `Text.IsBlank` | pages/index.tsx:102 | `!s.trim()`: every character is whitespace or a line terminator that trim strips; the empty string is blank (used by `Home.SubmitSendsOnce`) |
| `Text.Upper` | pages/invite.tsx:78 | upper-casing a string never makes it shorter |
| `Text.UpperConcat` | pages/invite.tsx:78 | upper-casing distributes over concatenation |
| `Text.UpperHasNoLower` | pages/invite.tsx:78 | no lower-case letter is left in an upper-cased string |
| `Text.UpperFixesUpperFree` | pages/invite.tsx:78 | a string with no lower-case letters is unchanged by upper-casing |
| `Text.UpperIdempotent` | pages/invite.tsx:69 | upper-casing twice gives the same result as upper-casing once |
| `Invite.MaxGuests` | pages/invite.tsx:30 | the capacity is 4 exactly when `sg` is in the query and 1 exactly when it is not |
| `Invite.EditGuest` | pages/invite.tsx:65-70 | a name edit stores the upper-cased value and keeps the age; an age edit stores the value verbatim and keeps the name |
| `Invite.EditGuestAt` | pages/invite.tsx:73-81 | editing companion `i` changes entry `i` as `EditGuest` says and leaves the length and every other entry unchanged |
| `Invite.TypingIntoName` | pages/invite.tsx:76-79 | typing a character after a name already shown keeps the shown text and appends that character upper-cased |
| `Invite.RemoveAt` | pages/invite.tsx:95 | the filter removes one element when the index is in range and none otherwise |
| `Invite.RemoveAtInRange` | pages/invite.tsx:95-97 | for an in-range index the result is exactly the elements before the index followed by the elements after it |
| `Invite.RemoveAtKeepsOrder` | pages/invite.tsx:95 | earlier elements keep their positions; later elements move down one place, in the same order |
| `Invite.RemoveAtOutOfRange` | pages/invite.tsx:95 | an out-of-range index (negative or too large) leaves the list unchanged |
| `Invite.RemoveUndoesAppend` | pages/invite.tsx:87-97 | removing the last index after an append gives back the original list |
| `Invite.IsIncomplete` | pages/invite.tsx:104 | a guest has a non-empty name and an empty age; `Invite.EmptyRowDoesNotBlock` proves an empty row is not incomplete |
| `Invite.FirstIncomplete` | pages/invite.tsx:104-105 | returns -1 exactly when no companion has a name without an age; otherwise returns the smallest index of such a companion |
| `Invite.EmptyRowDoesNotBlock` | pages/invite.tsx:87-104 | a guest with an empty name and empty age passes; appending one does not change the submit result |
| `Invite.InvitePage.constructor` | pages/invite.tsx:30-63 | the page starts with the capacity taken from the query, empty guests and ref lists, and the modal closed and not confirmed |
| `Invite.InvitePage.EditMainGuest` | pages/invite.tsx:65-71 | the main guest becomes `EditGuest` of the old main guest |
| `Invite.InvitePage.EditOtherGuest` | pages/invite.tsx:73-81 | only the companion list changes, as `EditGuestAt` says, and the lockstep invariant is kept |
| `Invite.InvitePage.AddGuest` | pages/invite.tsx:83-92 | below capacity: appends one empty guest and one fresh ref to each ref list, keeping what was there. At capacity: nothing changes. The length bound and lockstep lengths are kept |
| `Invite.InvitePage.RemoveGuest` | pages/invite.tsx:94-98 | the same index is removed from all three lists, which keeps the invariant |
| `Invite.InvitePage.Submit` | pages/invite.tsx:101-111 | called only with the main guest's name and age filled in, as the `required` inputs (invite.tsx:278, 288) ensure; returns the first incomplete index, which always has an age ref to focus. The modal opens exactly when the index is -1; otherwise it stays as it was |
| `Invite.InvitePage.CancelConfirm` | pages/invite.tsx:352-380 | closing or cancelling the dialog closes the modal |
| `Invite.InvitePage.Confirm` | pages/invite.tsx:114-137 | posts the current main guest and companions, always closes the modal, and becomes confirmed only on success |
| `Invite.FillCompanions` | pages/invite.tsx:84 | without `sg`, two adds leave 1 companion and five adds still leave 1. With `sg`, two adds leave 2 and five adds leave 4 |
| `Expenses.Load` | pages/api/expenses.ts:14-18 | a missing or empty data file reads as the empty list; a stored one reads as its records |
| `Expenses.NextId` | pages/api/expenses.ts:25 | the new id: 1 for an empty list, otherwise the last record's id + 1; `Expenses.PostAppendsOne` and `Expenses.PostKeepsIdsIncreasing` state what it guarantees |
| `Expenses.Posted` | pages/api/expenses.ts:24-29 | the list after one POST; `Expenses.PostAppendsOne` proves it is the old list with exactly one record appended |
| `Expenses.Handle` | pages/api/expenses.ts:13-35 | GET: 200, the list unchanged, no write. POST: writes `Posted` of the list and answers 201 with the appended last record. Any other method: 405, no write |
| `Expenses.PostAppendsOne` | pages/api/expenses.ts:24-29 | a POST adds exactly one record at the end, carrying the body's description and value, and keeps every earlier record. Its id is 1 on an empty list, otherwise the last record's id + 1 |
| `Expenses.PostKeepsIdsIncreasing` | pages/api/expenses.ts:25-29 | if the ids increase strictly, the new id is greater than every stored id and the ids still increase strictly after the POST |
| `Expenses.UnorderedFileCanRepeatId` | pages/api/expenses.ts:25 | if the file's ids do not increase in order, the assigned id can equal an id already stored |
| `Expenses.PostAllAppends` | pages/api/expenses.ts:25-29 | a run of POSTs keeps the starting records and appends one record per body, in order, with consecutive ids |
| `Expenses.PostsFromEmptyNumberFromOne` | pages/api/expenses.ts:25 | starting from no records, the k-th POST gets id k and the ids strictly increase |
| `Session.LocalStorage.constructor` | pages/index.tsx:21-22 | the store starts with the given items |
| `Session.LocalStorage.SetItem` | pages/login.tsx:20-21 | sets one key and leaves the other keys unchanged |
| `Session.LocalStorage.RemoveItem` | pages/index.tsx:24-25 | removes one key and leaves the other keys unchanged |
| `Session.DecimalString` | pages/login.tsx:21 | the stored expiry text is a non-empty string of decimal digits |
| `Session.NumberOf` | pages/index.tsx:23 | `Number(expiry)`: a digit string (the empty one included) reads as its value, anything else as NaN; `Session.NumberOfDecimalString` proves it inverts `DecimalString` |
| `Session.NumberOfDecimalString` | pages/index.tsx:23 | reading the stored expiry text back as a number gives the timestamp that was written |
| `Session.Truthy` | pages/index.tsx:21-23 | `getItem(key)` is truthy: the key is present (not `null`) and its text is not empty |
| `Session.AdmitsAsWritten` | pages/index.tsx:23 | the gate as written: both keys truthy and not (the expiry is a number less than now); `Session.NonNumericExpiryIsAdmitted` shows it admits a non-numeric expiry |
| `Session.Admits` | pages/index.tsx:21-23 | the corrected gate: both keys truthy and the expiry a number not less than now; `Session.LoginLastsTenDays` and `Session.GateIsMonotoneInTime` state its properties |
| `Session.SignedIn` | pages/login.tsx:20-21 | the store after a login at `now`: `loggedIn` is "true" and `loginExpiry` is the decimal text of now + 864000000, other keys kept; `Session.LoginLastsTenDays` proves what the gate makes of it |
| `Session.SignedOut` | pages/index.tsx:24-25 | the store with both session keys removed, other keys kept; `Session.SignedOutIsRefused` proves no time is admitted |
| `Session.AdmitsNarrowsAsWritten` | pages/index.tsx:23 | the intended gate never admits more than the code as written, and the two agree whenever the expiry is numeric |
| `Session.NonNumericExpiryIsAdmitted` | pages/index.tsx:23 | with `loggedIn` set and expiry "abc", the check as written admits at every time and the intended check refuses |
| `Session.LoginLastsTenDays` | pages/login.tsx:20-21 | after a login at `t`, both gates admit exactly when `now <= t + 864000000` |
| `Session.SignedOutIsRefused` | pages/index.tsx:24-25 | once both keys are removed, no time is admitted, and removing them again changes nothing |
| `Session.GateIsMonotoneInTime` | pages/index.tsx:23 | the gate passes at a time only if it also passes at every earlier time |
| `Login.ErrorMessage` | pages/login.tsx:24 | returns the server's message when it is present and non-empty, otherwise "Falha no login"; the result is never empty |
| `Login.LoginPage.constructor` | pages/login.tsx:7-9 | a new page has an empty username, password and error |
| `Login.LoginPage.Submit` | pages/login.tsx:11-25 | the request carries exactly the entered credentials. On success the store becomes `SignedIn(old, now)`, the browser goes to `/` and the error is unchanged. On failure the store is not touched and only the error changes |
| `Home.Submittable` | pages/index.tsx:102 | the shared guard of add and save-edit (also index.tsx:123): the description is not blank and the value is not 0; `Home.SubmitForm` and `Home.HomePage.SaveEdit` send exactly when it holds |
| `Home.SubmitForm` | pages/index.tsx:99-106 | sends `{description, value}` and resets the form to `""` and `0` exactly when the description is not blank and the value is not 0; otherwise nothing changes |
| `Home.SubmitSendsOnce` | pages/index.tsx:102-105 | submitting the form again right after a submit sends nothing |
| `Home.HomePage.constructor` | pages/index.tsx:38-47 | a new page has empty inputs, edits no expense and has no delete pending |
| `Home.HomePage.CheckSession` | pages/index.tsx:19-29 | an admitted store is left as it is and the page stays; otherwise both keys are removed and the browser is sent to `/login` |
| `Home.HomePage.Logout` | pages/index.tsx:31-35 | both keys are removed and the browser is sent to `/login`, whatever was stored |
| `Home.HomePage.Submit` | pages/index.tsx:99-106 | the form and the request after the call are exactly what `SubmitForm` gives for the form before it |
| `Home.HomePage.Edit` | pages/index.tsx:109-113 | the expense's id, description and value are copied into the edit state |
| `Home.HomePage.CancelEdit` | pages/index.tsx:116-118 | editing ends |
| `Home.HomePage.SaveEdit` | pages/index.tsx:121-125 | an update `{id, description, value}` is sent exactly when the edited fields pass the same guard as the add form |
| `Home.HomePage.UpdateSucceeded` | pages/index.tsx:81-84 | a successful update ends editing |
| `Home.HomePage.DeleteDialogOpen` | pages/index.tsx:252 | the confirmation dialog is open exactly while an id is pending; `Delete` opens it, `ConfirmDelete` and `CancelDelete` close it |
| `Home.HomePage.Delete` | pages/index.tsx:128-146 | the id is held pending confirmation and the dialog is open |
| `Home.HomePage.ConfirmDelete` | pages/index.tsx:132-137 | sends a delete for the pending id only when one is set, then clears it and the dialog is closed |
| `Home.HomePage.CancelDelete` | pages/index.tsx:139-141 | the pending id is cleared, the dialog is closed and no delete is sent |
| `Home.LoginThenVisitHome` | pages/login.tsx:19-22 | after a login at `t` on the shared store, the home page stays open at every `now <= t + 864000000` and sends the browser to `/login` after that |

## Findings

| source | as written | input that shows it | evidently intended | confidence | as-written member | corrected member |
|---|---|---|---|---|---|---|
| pages/index.tsx:23 | the page redirects only when the expiry, read as a number, is less than the clock. An expiry that is not a number reads as NaN, the comparison is false, and the page admits | `loggedIn` = "true" and `loginExpiry` = "abc", at any time | admit only while the expiry is a number not in the past | medium, not executed | `Session.NonNumericExpiryIsAdmitted` | `Session.LoginLastsTenDays` |

`Session.AdmitsAsWritten` is the condition as written. `Session.Admits` is the corrected condition, and `Home.HomePage.CheckSession` uses it. For any expiry the login page can write, the two agree (`Session.AdmitsNarrowsAsWritten`, `Session.LoginLastsTenDays`).

## Left out

- Home.HomePage.CheckSession: it follows the corrected gate, so it refuses a non-numeric expiry, which the code admits (see Findings).
- Invite.InvitePage.EditOtherGuest: requires the index to be a row that exists, because the page only calls it from the rows it renders. The JavaScript behaviour of writing past the end of the array is not modelled.
- Invite.InvitePage.Confirm: `succeeded` stands for "the response was ok and its JSON parsed". The alert on failure and the console output are not modelled.
- Invite.InvitePage.Submit: the alert and the focus on the age input are not modelled. The postcondition only says that the input to focus exists. The browser's `required` check on the main guest is a precondition here, not a modelled step: a submit with an empty main-guest name or age never reaches the handler.
- Invite.InvitePage.AddGuest: the focus timer on the new name input is not modelled.
- Stale-closure races are not modelled: two clicks handled before React re-renders the page. Each handler runs against the state of the last render, so handlers are modelled as atomic steps.
- The capacity is fixed when the page is constructed. A query string that arrives after the first render is not modelled.
- Text.Upper: only Basic Latin and Latin-1 letters are mapped, with ß to "SS", ÿ to Ÿ and µ to Greek capital mu. The rest of Unicode case mapping is not modelled.
- Text.IsBlank: tests whether every character is one that trim strips. It does not model trim itself.
- Session.NumberOf: models `Number` only for strings of decimal digits, including the empty string, which reads as 0. Every other string is NaN in this model. That includes the signs, fractions, exponents, hex and padding that JavaScript also accepts.
- Session.DecimalString: models `toString` of the expiry as the exact decimal digits of an integer. JavaScript numbers are doubles, and this is exact only below 2^53; above it `toString` prints the shortest digits that round-trip. Current timestamps are far below 2^53.
- Expenses.NextId: ids are modelled as exact, unbounded integers. JavaScript numbers are doubles, so `id + 1` is exact only below 2^53. From a stored last id of 2^53 the source assigns 2^53 again; the model assigns 2^53 + 1. Expenses.PostKeepsIdsIncreasing therefore holds for the source only while ids stay below 2^53.
- Non-integer ids such as 1.5, which a JSON file can hold, are not modelled: an expense's id is an `int`.
- File I/O is abstracted away: existence test, reading, writing, and JSON parsing and serialisation. `DataFile` gives the parsed contents and `Handle` returns the list to write.
- Expense values are reals. These parts are not modelled: the `Number(...)` coercions of the POST body and of the input fields, NaN, floating-point rounding, and the running total printed with two decimals.
- The input `onChange` handlers only assign a field and are not modelled as methods: `setDescription`, `setValue`, `setEditDescription`, `setEditValue`, `setUsername` and `setPassword`.
- These are not modelled: fetch transport, request failures in the login submit, React Query caching and invalidation, and the mutations' replies other than the update's success.
- These are not modelled: rendering, confetti and its timers, video playback and seeking, and showing the form.
- `pages/api/expenses/[id].ts`, `pages/api/login.ts` and `pages/api/invite.ts` are not part of this model. Neither are the repositories, `pages/_app.tsx` or the database connection pool. They are SQL, bcrypt and provider wiring with no logic of their own to model.
