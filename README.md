# Winner declaration and two-step login, modelled in Dafny

This project models the two pieces of real logic in the KitKat batch-code
admin dashboard:

- **Winner declaration.** The dialog (`WinnerDeclarationModal`) takes one
  manually typed mobile number and a date and posts it to `createWinner`.
  Its code also holds a CSV mode that imports a batch of numbers, but as
  written nothing switches to that mode (see below). The stand-alone page
  (`WinnerDeclaration`) does the same for a single number and reports the
  outcome in a snackbar. The model covers:
  - the mobile validator `^[6-9]\d{9}$`;
  - the keystroke filter of the manual field;
  - the CSV pipeline: `split(/\r?\n/)`, `trim`, quote stripping, the
    validity filter, and the 1 to 200 batch bound;
  - the submit gate and the payload chosen for each mode;
  - the busy indicator around the request, the refresh flags and the form
    reset.
- **Admin login** (`GLogin`). It is a two-step state machine. E-mail and
  password obtain an OTP key. The six-digit OTP, sent with that key, obtains
  the access token. The Yup rules for the OTP and the password are modelled
  too.

How the model is built:

- Each backend call is an abstract `Reply<T>`: `Resolved(value)` carries the
  field the handler reads (`message`, `data.key` or `data.token`), and
  `Rejected(message)` carries the server's error message. An empty string
  stands for a missing field, because the source tests these fields for
  truthiness.
- Every visible effect is appended, in order, to the event log of `Common.Ui`.
  That covers toasts, loader show and hide, requests, navigation and the
  dialog's `onClose`.
- The Redux refresh flags and the access token live in `Common.Store`.
- Dates are opaque strings. "Today" is a parameter.

Modules, one per file:

- `Common` (common.dfy): shared datatypes, the event log and the store.
- `Pattern` (pattern.dfy): anchored regular expressions made of
  single-character classes.
- `Mobile` (mobile.dfy): the mobile validator and the keystroke filter.
- `CsvImport` (csv_import.dfy): the pure CSV pipeline and the import
  decision.
- `WinnerModal` (winner_modal.dfy): the dialog, as a class.
- `WinnerPage` (winner_page.dfy): the page, as a class.
- `Login` (login.dfy): the login state machine, as a pure transition
  function and as the class whose handlers are proved against it.

Four behaviours of the code worth stating:

- The dialog's mode toggle renders no buttons: both `ToggleButton`
  children are commented out (`WinnerDeclarationModal.tsx:183-184`). So
  `handleModeChange` never fires, and `mode` stays `"manual"` (its initial
  value, restored by `handleClose`). The file input exists only in CSV
  mode, so `handleFileChange` is unreachable too. The CSV import,
  `HandleModeChange` and `HandleFileChange` are modelled as the code is
  written. They become reachable only if those buttons are restored.

- A failed or empty OTP answer leaves the page at the OTP step with its key.
  It does not go back to the credentials step.
- The CSV import keeps duplicate numbers.
- The anti-bot challenge token and the "clear the session on 401" policy do
  not appear in the login code and are not modelled.

A detail worth knowing: `handleClose` resets the dialog's date to the
current day. The date picker's `max` only allows yesterday, and
`isSubmitEnabled` does not look at the date.

## Model

The table lists the members whose contracts state something about the
source. The definitions those contracts are about have no rows of their
own: `Mobile.IsValidMobile` (`isValidMobile`), `Mobile.KeystrokeAccepted`
(the manual field's filter), `CsvImport.StripQuotes`, `CsvImport.Normalise`
and `CsvImport.ParseMobiles` (the `split / map / filter` pipeline),
`WinnerModal.SubmitEnabled` (`isSubmitEnabled`), `WinnerModal.SubmitTrace`
(the effects of `handleSubmit`) and `Login.Next` (one login transition).

| member | source | states |
|---|---|---|
| `Pattern.FullMatchPointwise` | src/components/userPopup/WinnerDeclarationModal.tsx:32-34 | an anchored single-class pattern matches exactly the strings of its length whose characters each lie in their class |
| `Mobile.ValidMobileShape` | src/components/userPopup/WinnerDeclarationModal.tsx:32-34 | `isValidMobile(s)` holds iff `s` has 10 characters, all ASCII digits, the first in 6–9 |
| `Mobile.ValidMobileCanBeTyped` | src/components/userPopup/WinnerDeclarationModal.tsx:73-78 | every prefix of a valid mobile passes the keystroke filter, so a valid number can be typed |
| `Mobile.AcceptedValueIsValidWhenComplete` | src/components/userPopup/WinnerDeclarationModal.tsx:73-78 | a value the filter accepts is a valid mobile iff it has 10 characters and starts with 6–9 |
| `CsvImport.SplitLines` | src/components/userPopup/WinnerDeclarationModal.tsx:98-99 | `split(/\r?\n/)` yields at least one line and no line contains `\n` |
| `CsvImport.SplitJoinCrLf` | src/components/userPopup/WinnerDeclarationModal.tsx:98-99 | text written with `\r\n` line ends splits back into exactly its lines |
| `CsvImport.SplitJoinLf` | src/components/userPopup/WinnerDeclarationModal.tsx:98-99 | text written with `\n` line ends splits back into its lines when no line but the last ends in `\r` |
| `CsvImport.Trim` | src/components/userPopup/WinnerDeclarationModal.tsx:100 | `trim` returns the slice of the line after its leading white space, everything after the slice is white space, and the slice neither starts nor ends with white space |
| `CsvImport.TrimPadded` | src/components/userPopup/WinnerDeclarationModal.tsx:100 | trimming white-space padding around a word gives the word back |
| `CsvImport.StripQuotesWrapped` | src/components/userPopup/WinnerDeclarationModal.tsx:100 | the quote-stripping `replace` removes exactly one surrounding pair of quotes, whatever is inside |
| `CsvImport.StripQuotesPlain` | src/components/userPopup/WinnerDeclarationModal.tsx:100 | a line that neither starts nor ends with a quote is unchanged |
| `CsvImport.NormaliseRecoversMobile` | src/components/userPopup/WinnerDeclarationModal.tsx:100 | a valid number padded with white space, quoted or not, normalises to itself |
| `CsvImport.NormaliseAll` | src/components/userPopup/WinnerDeclarationModal.tsx:100 | the `map` keeps the number of lines and normalises each line in place |
| `CsvImport.KeepValid` | src/components/userPopup/WinnerDeclarationModal.tsx:101 | the `filter` returns only valid mobiles and never more than it was given |
| `CsvImport.KeepValidCounts` | src/components/userPopup/WinnerDeclarationModal.tsx:101 | every valid entry is kept as many times as it occurs (duplicates kept); invalid entries never appear |
| `CsvImport.KeepValidKeepsOrder` | src/components/userPopup/WinnerDeclarationModal.tsx:101 | the filtered list is a subsequence of the input, so input order is kept |
| `CsvImport.KeepValidOfValid` | src/components/userPopup/WinnerDeclarationModal.tsx:101 | a list of valid numbers passes the filter unchanged |
| `CsvImport.ParseRoundTrip` | src/components/userPopup/WinnerDeclarationModal.tsx:98-101 | a file listing valid numbers one per line, with `\n` or `\r\n` line ends, parses to exactly those numbers in order |
| `CsvImport.ImportCsv` | src/components/userPopup/WinnerDeclarationModal.tsx:86-114 | a successful import is a CSV file whose loaded list is the whole parsed list, with 1 to 200 entries |
| `CsvImport.ImportMessage` | src/components/userPopup/WinnerDeclarationModal.tsx:87-109 | every refusal has a non-empty toast text |
| `CsvImport.ImportAcceptsBoundedBatches` | src/components/userPopup/WinnerDeclarationModal.tsx:91-114 | the import succeeds iff the file is CSV (by type or `.csv` name) and has 1 to 200 valid lines; more than 200 is refused whole, none is refused, a non-CSV file is refused |
| `CsvImport.ImportListedNumbers` | src/components/userPopup/WinnerDeclarationModal.tsx:96-114 | a CSV file listing n valid numbers loads them all in order when n ≤ 200 and is refused as too large when n > 200 |
| `Common.OrElse` | src/components/userPopup/WinnerDeclarationModal.tsx:141-142 | JavaScript's logical or on two strings: the result is one of the two, a non-empty first operand wins, and it is empty only when both are |
| `WinnerModal.SubmitPayload` | src/components/userPopup/WinnerDeclarationModal.tsx:124-127 | manual mode sends `{mobile, date}` with the form's mobile and CSV mode `{mobiles, date}` with the loaded batch, both with the selected date |
| `WinnerModal.WinnerDeclarationModal.SubmitPayloadNow` | src/components/userPopup/WinnerDeclarationModal.tsx:124-127 | the payload of the current form; when `isSubmitEnabled` holds on a valid form it is one valid mobile or 1 to 200 valid mobiles |
| `WinnerModal.EnabledSubmitIsWellFormed` | src/components/userPopup/WinnerDeclarationModal.tsx:158-160 | when submit is enabled on a form in its invariant, the payload is one valid mobile or 1 to 200 valid mobiles |
| `WinnerModal.SubmitEnabledExamples` | src/components/userPopup/WinnerDeclarationModal.tsx:158-160 | submit is off for "12345" and on for "9876543210" in manual mode, and on in CSV mode iff a batch is loaded |
| `WinnerModal.SubmitTraceBracketsLoader` | src/components/userPopup/WinnerDeclarationModal.tsx:120-147 | the loader is shown once first and hidden once last on success and on failure, nothing in between touches it, and exactly one request carrying the payload is sent |
| `WinnerModal.SubmitTraceToast` | src/components/userPopup/WinnerDeclarationModal.tsx:132-143 | the toast shows the server message if present, else "Winner(s) declared successfully!" or "Submission failed. Try again."; the dialog closes iff the request succeeded |
| `WinnerModal.WinnerDeclarationModal.constructor` | src/components/userPopup/WinnerDeclarationModal.tsx:47-52 | the dialog starts in manual mode with an empty entry, no batch, no file name and no date |
| `WinnerModal.WinnerDeclarationModal.HandleModeChange` | src/components/userPopup/WinnerDeclarationModal.tsx:61-71 | a non-null mode is set and clears mobile, batch and file name; a null mode changes nothing |
| `WinnerModal.WinnerDeclarationModal.HandleManualChange` | src/components/userPopup/WinnerDeclarationModal.tsx:73-78 | the field takes the value iff it is all digits and at most 10 long; it stays a digit string of length ≤ 10 |
| `WinnerModal.WinnerDeclarationModal.HandleDateChange` | src/components/userPopup/WinnerDeclarationModal.tsx:237 | the date field takes the chosen value |
| `WinnerModal.WinnerDeclarationModal.HandleFileChange` | src/components/userPopup/WinnerDeclarationModal.tsx:80-118 | the previous batch is cleared; then the batch and file name are the import's result, or stay empty with the matching error toast |
| `WinnerModal.WinnerDeclarationModal.HandleSubmit` | src/components/userPopup/WinnerDeclarationModal.tsx:120-147 | the effects are the submit trace for the current payload; on success `isRefreshed` is set, `isHeaderRefresh` negated and the form reset; on failure the form and flags are unchanged |
| `WinnerModal.WinnerDeclarationModal.HandleClose` | src/components/userPopup/WinnerDeclarationModal.tsx:149-156 | the form returns to an empty manual entry dated today, and the parent's `onClose` runs |
| `WinnerPage.SubmitReport` | src/pages/dashboard/WinnerDeclaration.tsx:29-64 | the snackbar is always opened with a non-empty text, and is a success iff the number is valid and the request succeeded |
| `WinnerPage.SubmitReportPrefersServerText` | src/pages/dashboard/WinnerDeclaration.tsx:47-62 | the server's message is shown when present, else "Winner declared successfully!" or "Failed to declare winner. Try again." |
| `WinnerPage.InvalidMobileIgnoresReply` | src/pages/dashboard/WinnerDeclaration.tsx:32-39 | an invalid number always gets the same local error, whatever the backend would answer |
| `WinnerPage.WinnerDeclarationPage.constructor` | src/pages/dashboard/WinnerDeclaration.tsx:17-23 | the page starts with an empty number, today's date and a closed success snackbar with no text |
| `WinnerPage.WinnerDeclarationPage.HandleMobileChange` | src/pages/dashboard/WinnerDeclaration.tsx:86 | the field takes the typed text as is |
| `WinnerPage.WinnerDeclarationPage.HandleDateChange` | src/pages/dashboard/WinnerDeclaration.tsx:95 | the date field takes the chosen value |
| `WinnerPage.WinnerDeclarationPage.HandleCloseSnackbar` | src/pages/dashboard/WinnerDeclaration.tsx:25-27 | the snackbar closes and keeps its text and severity |
| `WinnerPage.WinnerDeclarationPage.HandleSubmit` | src/pages/dashboard/WinnerDeclaration.tsx:29-64 | an invalid number makes no request and changes no field but the snackbar; otherwise one `{mobile, date}` request is sent, success clears the number and resets the date, and failure keeps both |
| `Login.PasswordAcceptedLength` | src/pages/google-login/GLogin.tsx:26-28 | a password is accepted iff it has at least 6 characters |
| `Login.OtpAcceptedShape` | src/pages/google-login/GLogin.tsx:31-35 | an OTP is accepted iff it is exactly 6 ASCII digits |
| `Login.Initial` | src/pages/google-login/GLogin.tsx:41-43 | the page starts at the credentials step with no key |
| `Login.NextKeepsConsistent` | src/pages/google-login/GLogin.tsx:52-81 | every transition keeps "at the OTP step, a non-empty key is held" |
| `Login.RunFromInitial` | src/pages/google-login/GLogin.tsx:41-81 | after any sequence of answers, the page is at the OTP step iff some credentials answer carried a key, the held key is the last key delivered, and the access token is the last token delivered (or the starting one) |
| `Login.SilentAnswersChangeNothing` | src/pages/google-login/GLogin.tsx:52-81 | rejected answers and answers without key or token leave step, key, e-mail and token unchanged |
| `Login.LoginForm.constructor` | src/pages/google-login/GLogin.tsx:41-43 | a new page is in the initial state over the store's current token |
| `Login.LoginForm.HandleCredentialsSubmit` | src/pages/google-login/GLogin.tsx:52-66 | the login call is made; a non-empty key moves to the OTP step and records key and e-mail; otherwise nothing changes; the matching toast is shown |
| `Login.LoginForm.HandleOtpSubmit` | src/pages/google-login/GLogin.tsx:69-82 | the verification is sent with the stored key; a non-empty token is written to the store and the page navigates to the pending route; otherwise nothing is stored and the step and key are kept |
| `Login.LoginForm.OnAccessTokenChange` | src/pages/google-login/GLogin.tsx:45-49 | whenever the store holds a non-empty token, the page navigates to the pending route |

## Left out

- `getYesterday`, the date picker's `max` and the date defaults: they read the wall clock and convert to UTC. Dates are opaque strings here, and "today" is a parameter.
- `file.text()` and its read-failure branch: this is asynchronous browser I/O. A file is a name, a MIME type and its text.
- The API gateway (`src/api/index.ts` and the helpers behind it) is not part of this model. Each call is the `Reply` its handler receives. The only loader pairing the gateway does itself is in `logout`, which is not part of the core.
- Asynchrony: each handler runs to completion with its reply. Interleaved awaits, a double click before the button is disabled, and a component unmounting mid-request are not modelled.
- The dialog negates the `isHeaderRefresh` value it read at render time. The model negates the store's current value, which is the same when no other update happens in between.
- Formik and Yup plumbing: the e-mail validator and Formik's "validate before `onSubmit`" are not modelled. The handlers take the submitted values as given. Only the password and OTP rules are modelled, as predicates.
- Login.PasswordAcceptedLength: counts Unicode scalar values, where Yup's `min` counts UTF-16 code units. The two differ only for passwords with characters outside the Basic Multilingual Plane.
- `API.verifyOtp`: the gateway class shown in `src/api/index.ts` has no `verifyOtp` method, so as written the call at `GLogin.tsx:70` would fail before any request is made. The model assumes a `verifyOtp` wrapper that resolves with `data.token` or rejects with the server's message, the way `login` does.
- The anti-bot challenge widget, the verification token and any "clear the session on 401" policy do not appear in the login code.
- Which controls are rendered (no mode buttons at all, the file input only in CSV mode, one login form per step): the handlers can be called in any state, so the model also covers the CSV path that the rendered dialog cannot reach. The browser's `maxLength` truncation of the page's mobile field is also not modelled.
- The page reads `response.message` without `?.`. An undefined response would throw and be reported as a failure. Replies here are never undefined.
- Grid rendering (`GenericAgGrid.tsx`), the side menu, animations, the route table and constant data: these are view code.
- Toast presentation, Redux dispatch and navigation appear only as events in the log and as store fields.
