# Job intake and role redirect: a Dafny model

This project models the logic of a small job-tracking web front end. It covers two parts.

The first is the create-job page. It holds a draft job: the job id, date, service location, customer name, phone, city, point of contact, machine brand, model, serial number, complaint description, call status, and one to three engineer slots. The page edits that draft and suggests known customer names as the user types. On submit it checks the required fields in a fixed order. It then writes the job document under its job id and creates a customer document if none exists under that name. On success it clears the draft; on failure it keeps it.

The second is the landing redirect. It sends a user to the dashboard or to the unauthorized page according to their role.

The page's state is the class `CreateJobPage.CreateJob`. Its fields are `formData`, `submitting`, `showSuggestions`, the `jobs` and `customers` collections of the document store (as maps keyed by document id), and the customer names loaded when the page opened. The pure parts are functions with lemmas:

- `Text`: trimming, ASCII lower-casing and substring search.
- `Sequences`: order-preserving filter and one-element splice.
- `JobForm`: the draft and document records, the required-field check and the job record built from a draft.
- `Autocomplete`: the suggestion filter.
- `RoleRedirect`: the role decision.

`Scenarios` is client code. It uses only the page's contracts to show whole action sequences: a first submission, two jobs for one customer, a reused job id, a double submit, a partial failure, the empty form, and the engineer slots.

A submission is modelled in two halves, split at its first store access. `StartSubmit` covers the in-flight guard, the required-field check, raising the in-flight flag and preparing the job and customer documents from the draft. `FinishSubmit` covers the store accesses, the reset or preserve of the draft and lowering the flag. `HandleSubmit` runs the two halves one after the other. The split makes the in-flight state reachable, so a second submit during the first one can be shown to do nothing. Store failures come in as a `FailurePoint` parameter. Each failure point is one place where the source's store calls can throw: the customer reference is rejected, the job write fails, the customer read fails, or the customer write fails.

## Model

| member | source | states |
|---|---|---|
| `Text.TrimStart` | frontend/src/components/pages/CreateJob.jsx:115 | the result is a suffix of the input that does not start with whitespace |
| `Text.TrimStartDropsSpace` | frontend/src/components/pages/CreateJob.jsx:115 | everything trimmed off the front is whitespace |
| `Text.TrimEnd` | frontend/src/components/pages/CreateJob.jsx:115 | the result is a prefix of the input that does not end with whitespace |
| `Text.TrimEndDropsSpace` | frontend/src/components/pages/CreateJob.jsx:115 | everything trimmed off the end is whitespace |
| `Text.TrimEndEmpty` | frontend/src/components/pages/CreateJob.jsx:115 | trimming the end leaves nothing exactly when the string is all whitespace |
| `Text.Trim` | frontend/src/components/pages/CreateJob.jsx:115 | the trimmed string is no longer than the input and neither of its ends is whitespace |
| `Text.TrimDropsSpace` | frontend/src/components/pages/CreateJob.jsx:115 | the input is whitespace, then the trimmed string, then whitespace: trimming removes nothing else |
| `Text.IsBlank` | frontend/src/components/pages/CreateJob.jsx:115 | the required-field test `!v.trim()`: the trimmed value is the empty, falsy string; `Text.BlankIffAllSpace` states which values pass it |
| `Text.BlankIffAllSpace` | frontend/src/components/pages/CreateJob.jsx:115 | a value fails the required check (its trim is empty) exactly when every character is whitespace |
| `Text.LowerChar` | frontend/src/components/pages/CreateJob.jsx:244 | an upper-case ASCII letter becomes the same letter in lower case, and every other character is kept |
| `Text.ToLower` | frontend/src/components/pages/CreateJob.jsx:244 | lower-casing keeps the length, lower-cases each character in place and leaves no upper-case ASCII letter |
| `Text.ToLowerIgnoresCase` | frontend/src/components/pages/CreateJob.jsx:244 | two strings that differ only in the case of their letters lower-case to the same string |
| `Text.ToLowerIdempotent` | frontend/src/components/pages/CreateJob.jsx:244 | lower-casing twice is lower-casing once |
| `Text.OccursInTail` | frontend/src/components/pages/CreateJob.jsx:244 | an occurrence in the tail of a string is an occurrence one position later in the string |
| `Text.IncludesIff` | frontend/src/components/pages/CreateJob.jsx:244 | the includes test holds exactly when the needle occurs at some position of the haystack |
| `Text.Includes` | frontend/src/components/pages/CreateJob.jsx:244 | `includes`: a needle longer than the haystack is never included, and the empty string is included in every string; `Text.IncludesIff` states the full meaning |
| `Sequences.Filter` | frontend/src/components/pages/CreateJob.jsx:131 | the filtered list is no longer than the input, and all it holds comes from the input and passes the test |
| `Sequences.FilterKeeps` | frontend/src/components/pages/CreateJob.jsx:131 | no element that passes the test is dropped |
| `Sequences.FilterMembers` | frontend/src/components/pages/CreateJob.jsx:131 | an element is in the filtered list exactly when it is in the input and passes the test |
| `Sequences.FilterAppend` | frontend/src/components/pages/CreateJob.jsx:243 | filtering a concatenation is concatenating the filtered parts, so relative order is kept |
| `Sequences.FilterAll` | frontend/src/components/pages/CreateJob.jsx:243 | when every element passes, the filter returns the list unchanged |
| `Sequences.RemoveAt` | frontend/src/components/pages/CreateJob.jsx:93 | splicing out index i removes exactly that element and keeps the others in order; an index past the end changes nothing |
| `JobForm.FormData.With` | frontend/src/components/pages/CreateJob.jsx:68-71 | an edit sets the named field to the new value and leaves every other field and the engineer slots as they were |
| `JobForm.FormData.WithEngineer` | frontend/src/components/pages/CreateJob.jsx:73-79 | an engineer change sets slot i, keeps the number of slots, every other slot and every scalar field |
| `JobForm.InitialDraftIsEmpty` | frontend/src/components/pages/CreateJob.jsx:16-30 | the initial draft has every scalar field empty and exactly one empty engineer slot |
| `JobForm.CheckRequiredFields` | frontend/src/components/pages/CreateJob.jsx:102-119 | the check passes exactly when every required field has a non-whitespace character; otherwise it reports the label of the first blank field in the list order |
| `JobForm.FirstMissingUnique` | frontend/src/components/pages/CreateJob.jsx:114-119 | only one field can be the first blank one, so the report is unambiguous |
| `JobForm.RejectedIffWhitespaceOnly` | frontend/src/components/pages/CreateJob.jsx:114-119 | a draft is rejected exactly when one of Job ID, Date, Location of Service, Customer Name, Phone, City, POC, Brand or Model is whitespace only |
| `JobForm.InitialDraftReportsJobId` | frontend/src/components/pages/CreateJob.jsx:102-104 | submitting the empty draft reports "Job ID", the first field checked |
| `JobForm.IsAssigned` | frontend/src/components/pages/CreateJob.jsx:131 | the `e => e` test, JavaScript truthiness of a string; `JobForm.BuildJob` states its effect: the job holds exactly the non-empty engineer entries |
| `JobForm.BuildJob` | frontend/src/components/pages/CreateJob.jsx:129-134 | the job record copies every draft field, holds exactly the non-empty engineer entries and no more of them than the draft has, has status "Not Inspected" and a server timestamp |
| `JobForm.BuildJobKeepsSlotOrder` | frontend/src/components/pages/CreateJob.jsx:131 | the assigned engineers keep the relative order of their slots |
| `JobForm.NewCustomer` | frontend/src/components/pages/CreateJob.jsx:124-127 | the customer document built from the draft's customer name; `CreateJobPage.CreateJob.StartSubmit` and `JobForm.AddCustomerIfAbsent` state when and under which key it is stored |
| `JobForm.AddCustomerIfAbsent` | frontend/src/components/pages/CreateJob.jsx:140-143 | the customer name becomes a key; an existing entry is untouched, and a new one is the prepared customer document |
| `JobForm.FirstCustomerWins` | frontend/src/components/pages/CreateJob.jsx:140-143 | a second creation under the same name leaves the store as the first left it |
| `Autocomplete.Matches` | frontend/src/components/pages/CreateJob.jsx:243-244 | the filter test: an empty input matches every name, and an input longer than the name never matches |
| `Autocomplete.SuggestionsShown` | frontend/src/components/pages/CreateJob.jsx:240 | the render condition `showSuggestions && formData.customerName`; `CreateJobPage.CreateJob.DisplayedSuggestions` states what is listed under it |
| `Autocomplete.Suggestions` | frontend/src/components/pages/CreateJob.jsx:242-245 | a known name is suggested exactly when its lower-cased form includes the lower-cased input; no more suggestions than known names |
| `Autocomplete.SuggestionsKeepOrder` | frontend/src/components/pages/CreateJob.jsx:242-245 | suggestions from concatenated name lists come in list order |
| `Autocomplete.SuggestedIffOccurs` | frontend/src/components/pages/CreateJob.jsx:242-245 | a name is suggested exactly when the lower-cased input occurs at some position of the lower-cased name |
| `Autocomplete.SuggestionsIgnoreInputCase` | frontend/src/components/pages/CreateJob.jsx:244 | the case of the typed input does not change the suggestions |
| `Autocomplete.SuggestionsIgnoreCase` | frontend/src/components/pages/CreateJob.jsx:244 | two inputs that differ only in the case of their letters give the same suggestions |
| `Autocomplete.EmptyInputSuggestsAll` | frontend/src/components/pages/CreateJob.jsx:242-245 | an empty input matches every known name |
| `Autocomplete.AcmeExample` | frontend/src/components/pages/CreateJob.jsx:242-245 | typing "acme" against "Acme Corp", "Acme Labs" and "Zenith" suggests the first two, in that order |
| `CreateJobPage.CreateJob.constructor` | frontend/src/components/pages/CreateJob.jsx:16-35 | the page opens with the empty draft, both flags lowered and the given store |
| `CreateJobPage.CreateJob.HandleChange` | frontend/src/components/pages/CreateJob.jsx:68-71 | the draft becomes the old draft with the one field changed; nothing else on the page changes |
| `CreateJobPage.CreateJob.HandleEngineerChange` | frontend/src/components/pages/CreateJob.jsx:73-79 | only slot i of the draft changes and there are still one to three slots |
| `CreateJobPage.CreateJob.AddEngineerField` | frontend/src/components/pages/CreateJob.jsx:81-88 | below three slots, exactly one empty slot is appended; at three, the draft is unchanged; one to three slots remain |
| `CreateJobPage.CreateJob.RemoveEngineerField` | frontend/src/components/pages/CreateJob.jsx:90-96 | slot i (never the first) is spliced out, the others keep their order, and at least one slot remains |
| `CreateJobPage.CreateJob.HandleCustomerNameInput` | frontend/src/components/pages/CreateJob.jsx:231-234 | typing a customer name edits that field and opens the suggestion list |
| `CreateJobPage.CreateJob.HandleCustomerNameFocus` | frontend/src/components/pages/CreateJob.jsx:236 | focusing the input opens the suggestion list |
| `CreateJobPage.CreateJob.HandleCustomerNameBlur` | frontend/src/components/pages/CreateJob.jsx:235 | leaving the input closes the suggestion list |
| `CreateJobPage.CreateJob.SelectSuggestion` | frontend/src/components/pages/CreateJob.jsx:249-252 | picking a suggestion sets the customer name to it and leaves no list displayed |
| `CreateJobPage.CreateJob.DisplayedSuggestions` | frontend/src/components/pages/CreateJob.jsx:240-245 | a list is displayed only while the flag is raised and the name is non-empty, and then it holds exactly the matching known names |
| `CreateJobPage.CreateJob.StartSubmit` | frontend/src/components/pages/CreateJob.jsx:98-134 | it reaches the store exactly when no submission is in flight and every required field holds something; while a submission is in flight it is ignored; a draft with a blank required field is rejected with the first such label and the flag stays lowered; otherwise the flag is raised and the job and customer documents are built from the draft |
| `CreateJobPage.CreateJob.FinishSubmit` | frontend/src/components/pages/CreateJob.jsx:136-166 | it runs only while a submission is in flight; the job is written under its id, replacing any earlier one, unless the job write fails; on success the customer is created only if absent and the draft is reset; on any failure the customers and the draft are unchanged, and a job already written stays; the flag is lowered on every path |
| `CreateJobPage.CreateJob.HandleSubmit` | frontend/src/components/pages/CreateJob.jsx:98-167 | a whole submission: ignored in flight, rejected with the first blank label with nothing written, else the job overwrite, the insert-if-absent customer, reset on success or preserve on failure, and the flag lowered on exit |
| `CreateJobPage.CreateJob.HandleSubmitAsWritten` | frontend/src/components/pages/CreateJob.jsx:98-167 | the page as it stands: a rejected customer reference (at line 123) aborts the submission with the flag still raised and nothing written; on every other path it behaves as `HandleSubmit`, namely ignored in flight, the first blank label, the job overwrite, the insert-if-absent customer, reset or preserve, and the flag lowered |
| `RoleRedirect.Redirect` | frontend/src/routes/RedirectByRole.jsx:11-15 | owner, coordinator and engineer go to the dashboard, any other role to the unauthorized page, and a null role causes no navigation; the three cases are exclusive and cover every role |
| `RoleRedirect.Route` | frontend/src/routes/RedirectByRole.jsx:12-14 | a route is followed exactly when the decision is a navigation |
| `RoleRedirect.RoleCaseMatters` | frontend/src/routes/RedirectByRole.jsx:11 | roles are compared exactly: "Owner" and the empty role are unauthorized |

## Findings

| source | as written | input that shows it | evidently intended | confidence | as-written member | corrected member |
|---|---|---|---|---|---|---|
| frontend/src/components/pages/CreateJob.jsx:121-127 | the customer document reference is formed after the in-flight flag is raised but outside the try/finally, so an exception there skips the `finally` that lowers the flag | customer name "Acme/Pune": the store client refuses a document reference with an odd number of path segments, so the handler's promise rejects with no message and the flag stays raised | the flag is released on every exit path and the user is told the submission failed | medium, not executed (relies on the store client's documented path check) | `CreateJobPage.CreateJob.HandleSubmitAsWritten`, shown by `Scenarios.SlashInCustomerNameLocksForm` (the retry is ignored, nothing is ever written) | `CreateJobPage.CreateJob.FinishSubmit` (used by `HandleSubmit`), shown by `Scenarios.SlashInCustomerNameReported` |

## Left out

- Rendering, layout and styling of the page (frontend/src/components/pages/CreateJob.jsx:169-368). This is UI only. The model keeps the two conditions rendering imposes: remove buttons are shown only for slots after the first, and the add button only below three slots.
- The mount-time loaders for customer names and engineers (frontend/src/components/pages/CreateJob.jsx:37-66). These are store queries. The customer names are a constructor argument. The engineer options only fill the engineer drop-downs, so any string is accepted as an engineer value.
- Document ids are modelled as raw strings: the `jobs` and `customers` maps key a document by the typed id exactly. The store client reads an id as a path, so a '/' in an id can name the same document as another id ("J1/" and "J1"), a nested document the customer loader never lists ("Acme/Pune/East"), or a different `jobRef.id` in the success message. Ids containing '/' are mapped only through the `CustomerRefRejected` and `JobWriteFails` failure points.
- The document store is a pair of in-memory maps. A store call that throws is represented only by the `FailurePoint` argument; which inputs make it throw is not modelled.
- `serverTimestamp()` is the constant `ServerTimestamp`; the store's clock is not modelled.
- Alerts and console logging become the returned `Outcome`. The exact message text is not modelled, only the label or job id it carries.
- Asynchrony: a submission has exactly one interleaving point, between `StartSubmit` and `FinishSubmit`. Edits made while the store calls are pending are not modelled as happening between the individual writes.
- React state batching and stale closures. The in-flight guard and the slot-count test read the current state here; the page reads the values from its last render.
- The 150 ms delay before a blur hides the suggestion list. A blur hides the list at once.
- `trim` and `toLowerCase` are approximated. Whitespace is space, tab, LF, CR, VT and FF. Lower-casing changes only ASCII A-Z. JavaScript applies the full Unicode rules.
- `CreateJobPage.CreateJob.HandleEngineerChange`: requires an index within the slots, as the page only calls it for a rendered slot. An out-of-range write, which would extend a JavaScript array with holes, is not modelled.
- `CreateJobPage.CreateJob.RemoveEngineerField`: requires an index after the first slot, as the page only offers removal there.
- `RoleRedirect.Redirect`: the role is `null` or a string. An `undefined` role from the authentication context, which is not part of this model, is not distinguished.
- The `useAuth` and `useNavigate` wiring of the redirect, and its re-run whenever the role changes. Navigation is the returned value.
