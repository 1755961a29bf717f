# Real-estate lead capture: form validation and dashboard state

A verified model of the two pieces of sequential logic in the real-estate
lead-automation app.

- **The public lead form** (`src/app/leads/page.tsx`):
  - `validateForm` checks four text fields and builds a per-field error record with fixed messages.
  - `handleChange` edits one field and clears that field's error.
  - `handleSubmit` either blocks on a validation failure or posts the lead. A successful post resets the form; a failed one keeps it.
- **The admin dashboard** (`src/app/admin/page.tsx`):
  - the status shown for a lead: `"` removed, lower-cased, `new` by default;
  - the trimmed display cells;
  - the `(leads, isLoading, error)` state that `fetchLeads` updates each time a query settles;
  - which of the spinner, error banner, empty message or table is shown.

The model has six modules:

- `Wrappers`: `Option`.
- `Text`: the JavaScript operations used on strings.
  - the `\s`/`trim` white-space set (ECMAScript WhiteSpace and LineTerminator);
  - `trim`;
  - `toLowerCase`, restricted to ASCII letters;
  - `replace(/"/g, '')`.
- `Pattern`: what a regular expression made of quantified character classes means.
  - `test` is unanchored: some span matches.
  - With the `m` flag, `^…$` means some span that starts at a line start and ends at a line end matches.
- `FieldPatterns`: the e-mail and phone patterns as character-level predicates.
  - `EmailLike` and `PhoneValid`, each proved equivalent to the pattern semantics.
  - Bounds and examples for accepted phone numbers.
- `LeadForm`: the form record, `validateForm`, `handleChange` and `handleSubmit`.
  - Submission is split at the `await` into `StartSubmit` and `FinishSubmit`.
  - `HandleSubmit` runs both halves with no edits in between.
- `AdminDashboard`: lead rows, status derivation, display cells, `fetchLeads`, and the page's choice of view.
  - `Poll` folds `fetchLeads` over the fetch outcomes in the order they settle.

The phone pattern carries the `m` flag. This model keeps multi-line values: a phone is valid when some span that starts at a line start and ends at a line end matches. A separator may itself be a line break, so such a span can cross lines (`FieldPatterns.LineBreakSeparator`). `FieldPatterns.PhoneSingleLine` shows that for a value without line terminators, validity is a match of the whole value.

On the dashboard, `fetchLeads` sets `error` on a failure and no code path clears it. The page returns the error banner early whenever `error` is set (`src/app/admin/page.tsx:66-74`). So although polling continues, one failed fetch hides the table for the rest of the page's life, however many later fetches succeed. See `AdminDashboard.PollError`, `AdminDashboard.ErrorIsSticky` and `AdminDashboard.NoTableAfterFailure`.

## Model

| member | source | states |
|---|---|---|
| Text.Trim | src/app/leads/page.tsx:34 | trimming never lengthens a value; the result is empty exactly when the value is all white space; a non-empty result starts and ends with a non-space character |
| Text.TrimIsSlice | src/app/admin/page.tsx:121-124 | trimming removes only white space, and only at the two ends: the result is a contiguous slice of the value with nothing but white space before and after it |
| Text.TrimTrimmedOf | src/app/admin/page.tsx:121-124 | trimming leaves a contiguous slice with only white space around it, itself not starting or ending with white space |
| Text.TrimmedOfUnique | src/app/admin/page.tsx:121-124 | only one string meets that description: the trimmed value |
| Text.TrimIdempotent | src/app/admin/page.tsx:121-124 | trimming an already trimmed value changes nothing |
| Text.ToLower | src/app/admin/page.tsx:118 | lower-casing keeps the length, leaves no upper-case letter, keeps every other character, and maps each upper-case letter to its lower-case partner |
| Text.ToLowerConcat | src/app/admin/page.tsx:118 | lower-casing works character by character: it distributes over concatenation |
| Text.Remove | src/app/admin/page.tsx:118 | removing every `"` leaves exactly the other characters, counted with multiplicity; the length drops by the number of `"`; no `"` remains |
| Text.RemoveConcat | src/app/admin/page.tsx:118 | removal distributes over concatenation, so the characters that remain keep their order |
| FieldPatterns.EmailLikeIffTest | src/app/leads/page.tsx:40 | the character-level e-mail condition holds exactly when the unanchored search for `\S+@\S+\.\S+` succeeds: some `@` with non-space characters on both sides, followed by a `.` with non-space characters on both sides |
| FieldPatterns.EmailLikeIfTest | src/app/leads/page.tsx:40 | a successful search yields an `@` and a later `.` with the required non-space characters |
| FieldPatterns.TestIfEmailLike | src/app/leads/page.tsx:40 | such an `@` and `.` anywhere in the value make the unanchored search succeed, whatever surrounds them |
| FieldPatterns.PhoneSpanIffMatch | src/app/leads/page.tsx:46 | reading a span left to right as optional `+`, optional `(`, three digits, optional `)`, optional separator, three digits, optional separator, then 4 to 6 digits to the end of the span is exactly a match of the phone pattern on that span |
| FieldPatterns.PhoneValidIffTestLines | src/app/leads/page.tsx:46 | a phone is valid exactly when the pattern, anchored with the multi-line flag, matches some span from a line start to a line end |
| FieldPatterns.LineBreakSeparator | src/app/leads/page.tsx:46 | a separator may be a line break: `555`, newline, `123-4567` is accepted, though neither line on its own is a phone number |
| FieldPatterns.PhoneSingleLine | src/app/leads/page.tsx:46 | for a value with no line terminator, validity is a match of the whole value |
| FieldPatterns.PhoneSpanBounds | src/app/leads/page.tsx:46 | an accepted phone number is 10 to 17 characters long and holds 10 to 12 digits |
| FieldPatterns.PhoneSpanDigit | src/app/leads/page.tsx:46 | every accepted phone span contains a digit |
| FieldPatterns.BlankPhoneInvalid | src/app/leads/page.tsx:44-48 | a value that is all white space is never a valid phone |
| FieldPatterns.BlankEmailInvalid | src/app/leads/page.tsx:38-42 | a value that is all white space never looks like an e-mail address |
| FieldPatterns.UnbalancedParenthesesAccepted | src/app/leads/page.tsx:46 | parentheses need not balance: `(555123-4567` and `555)123-4567` are accepted |
| FieldPatterns.CountryCodeRejected | src/app/leads/page.tsx:46 | a country code after `+` is rejected: `+1 555 123 4567` is not a valid phone |
| LeadForm.FormData.Set | src/app/leads/page.tsx:58-63 | setting a field gives it the new value and leaves the other three fields as they were |
| LeadForm.ValidateForm | src/app/leads/page.tsx:31-56 | the record has an entry exactly for each failing field: name and address when all white space; e-mail when empty or when the search fails; phone when empty or when no span from a line start to a line end matches. Each entry carries its fixed message, "required" for an empty value. The result is true exactly when the record is empty, and exactly when all four checks pass |
| LeadForm.ValidateFormTrims | src/app/leads/page.tsx:34-52 | the name, and likewise the address, is reported exactly when its trimmed value is empty |
| LeadForm.BlankFieldFails | src/app/leads/page.tsx:34-52 | a field that is empty or all white space always gets an error |
| LeadForm.BlankFormErrors | src/app/leads/page.tsx:31-56 | a form with empty e-mail and phone and blank name and address gets exactly the four "required" messages |
| LeadForm.EmptyFormErrors | src/app/leads/page.tsx:20-25 | the initial, empty form gets exactly the four "required" messages |
| LeadForm.ValidationMessagesShown | src/app/leads/page.tsx:160-234 | every error validation records is a non-empty message, so it is shown under its field |
| LeadForm.HandleChange | src/app/leads/page.tsx:58-72 | the named field takes the new value and the other three are unchanged; afterwards no error is shown for that field; every other field's error is untouched; if the field showed no error, the error record is unchanged; the submitting flag and the banner are kept |
| LeadForm.EditClearsValidationError | src/app/leads/page.tsx:66-71 | after a validation, editing a field removes exactly that field's error |
| LeadForm.StartSubmit | src/app/leads/page.tsx:74-95 | validation runs and its record is stored. A failed validation blocks the submission with the fields, flag and banner kept. Otherwise the request carries the four fields and the submission time, the button is disabled and the banner hidden |
| LeadForm.FinishSubmit | src/app/leads/page.tsx:97-122 | an ok response empties all four fields and shows the thank-you banner; a non-ok response or a network failure keeps the fields and shows the retry banner; either way the button is enabled again and the errors are kept |
| LeadForm.HandleSubmit | src/app/leads/page.tsx:74-123 | a request is issued exactly when validation passes, with the four fields plus the submission time as payload; when blocked, the fields, flag and banner are kept; otherwise the outcome is that of `FinishSubmit` |
| LeadForm.BlankFieldBlocksSubmit | src/app/leads/page.tsx:77-79 | submitting with any field blank issues no request and keeps the form's fields |
| LeadForm.SubmitAfterSuccessBlocked | src/app/leads/page.tsx:106-112 | after a successful submission the form is empty, so an immediate second submission is blocked with all four "required" messages |
| LeadForm.RetryAfterFailureResends | src/app/leads/page.tsx:114-119 | after a failed submission the fields are kept, so submitting again sends the same four fields |
| LeadForm.ExampleSubmission | src/app/leads/page.tsx:74-123 | a well-formed lead is posted as entered; an ok response clears the form and thanks the user |
| AdminDashboard.DeriveStatus | src/app/admin/page.tsx:118 | an absent or empty status shows as `new`; otherwise it is the input lower-cased with every `"` removed, so its length is the input's length minus the number of `"`; it never contains `"` or an upper-case letter |
| AdminDashboard.NormalizeStatusCommutes | src/app/admin/page.tsx:118 | removing `"` and then lower-casing gives the same text as lower-casing and then removing `"` |
| AdminDashboard.NormalizeStatusConcat | src/app/admin/page.tsx:118 | normalisation works character by character, so the characters that remain keep their order |
| AdminDashboard.NormalizeStatusChar | src/app/admin/page.tsx:118 | one character normalises to nothing if it is `"`, and to its lower-case form otherwise |
| AdminDashboard.NormalizeStatusFixed | src/app/admin/page.tsx:118 | a value with no `"` and no upper-case letter is left unchanged |
| AdminDashboard.DeriveStatusIdempotent | src/app/admin/page.tsx:118 | when the derived status is non-empty, deriving it again gives the same status |
| AdminDashboard.QuotesOnlyStatusEmpty | src/app/admin/page.tsx:118 | a non-empty status made only of `"` shows as the empty string, not as `new` |
| AdminDashboard.DeriveStatusNotIdempotentOnQuotes | src/app/admin/page.tsx:118 | deriving twice is not always deriving once: `"` gives the empty status, which derives again to `new` |
| AdminDashboard.QuotedStatus | src/app/admin/page.tsx:118 | a quoted word with no inner `"` shows as the word lower-cased |
| AdminDashboard.QuotedStatusExample | src/app/admin/page.tsx:118 | the stored value `"Contacted"`, quotes included, shows as `contacted` |
| AdminDashboard.Cell | src/app/admin/page.tsx:121-124 | an absent value shows as nothing; a present value shows as a contiguous slice of the stored text with only white space cut away around it and none left at either end; it is empty exactly when the stored text is all white space |
| AdminDashboard.ShowsTrimmedUnique | src/app/admin/page.tsx:121-124 | that description admits exactly one cell, the one `Cell` computes |
| AdminDashboard.CellIdempotent | src/app/admin/page.tsx:121-124 | a displayed cell trimmed again is unchanged |
| AdminDashboard.DisplayRow | src/app/admin/page.tsx:116-130 | a row is keyed by the lead's id; each contact cell is present exactly when the stored field is, and is that field with only its end white space removed; the status is `new` for an absent or empty value and otherwise the value lower-cased with every `"` removed |
| AdminDashboard.ShowsLeadUnique | src/app/admin/page.tsx:116-130 | that description admits exactly one row per lead, the one `DisplayRow` renders |
| AdminDashboard.FetchLeads | src/app/admin/page.tsx:30-45 | the spinner stops. A fetch that returns rows replaces the leads, with the empty list for null data, and keeps the error as it was. A failed fetch keeps the leads and sets the fixed error message |
| AdminDashboard.PollError | src/app/admin/page.tsx:28-45 | after any sequence of settled fetches, the error is the fixed message exactly when one of them failed; otherwise it is what it was before |
| AdminDashboard.ErrorIsSticky | src/app/admin/page.tsx:39-41 | once the error is set, no sequence of later fetches clears it |
| AdminDashboard.PollStopsLoading | src/app/admin/page.tsx:27-45 | the spinner is on exactly while no fetch has settled since it was on |
| AdminDashboard.PollLeads | src/app/admin/page.tsx:38-41 | the leads shown are the rows of the last fetch that returned rows; failures after it leave them alone |
| AdminDashboard.PollLeadsAllFailed | src/app/admin/page.tsx:39-41 | when every fetch failed, the leads are those from before |
| AdminDashboard.Render | src/app/admin/page.tsx:58-131 | the spinner shows exactly while loading; the error banner shows exactly when not loading and the error is a non-empty string, and it carries that error; the empty message means there are no leads; the table has one row per lead, in order, each row that lead's display row |
| AdminDashboard.NoTableAfterFailure | src/app/admin/page.tsx:66-74 | after any failed fetch the page shows only the error banner, whatever succeeded later |

## Left out

- Network I/O is not modelled: the webhook POST (`src/app/leads/page.tsx:86-95`) and the Supabase query (`src/app/admin/page.tsx:32-35`). Each is an input, a `Response` or a `FetchOutcome`.
- The submission time `new Date().toISOString()` reads the clock. It is a `submittedAt` parameter.
- Building the request body with `JSON.stringify` is not modelled. The request is a record of the four fields and the time.
- `console.error` is logging with no effect on state.
- The polling timer (`setInterval`, `clearInterval`) and the effect hook are not modelled, and neither are concurrent requests.
  - The model takes the order in which fetches settle as given; `Poll` folds over that order.
  - Two overlapping fetches are therefore covered by whichever order they settle in. Which order that is depends on the timer and the network and is not modelled.
- The order of the rows (`created_at` descending) is chosen by the database. The model shows rows in the order given.
- React rendering, CSS classes, aria attributes and the `capitalize` style are not modelled. The status is modelled as the text before `capitalize` applies.
- The loading-spinner row (`src/app/admin/page.tsx:101-108`) and the inline error banner (`src/app/admin/page.tsx:82-86`) cannot show: the page has already returned earlier when `isLoading` or `error` is set. `Render` models the early returns.
- Edits while a submission is in flight are not modelled. `HandleSubmit` assumes none; `StartSubmit` and `FinishSubmit` describe the two halves separately.
- `src/app/page.tsx` is static markup that embeds the form. It is not part of this model.
- Text.ToLower: lower-cases only the ASCII letters `A`–`Z`. JavaScript's `toLowerCase` also maps other Unicode letters, so the result matches JavaScript only when the input's letters are ASCII.
- Text.IsSpace: the white-space set is the fixed ECMAScript one, with the space separators of Unicode 15.
- Text: strings are sequences of characters. JavaScript's UTF-16 code units and lone surrogates are not modelled.
- The `i` flag on the phone pattern is not modelled: the pattern has no letters, so it changes nothing.
- In `handleChange`, a cleared error is written as `undefined`. The model removes the key instead, which is what the page can observe: `errors[name]` is then falsy.
