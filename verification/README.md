# Lead intake and lead statistics of the VisaPal landing page

This project is a Dafny model of the two pieces of logic in the VisaPal
landing page (a UK student-visa assistance product).

- **Lead intake.** This is the signup modal's submit handler. It checks that
  the e-mail and university fields are filled in. It normalises the address
  (trim, then lower-case) and turns away an address that is already stored.
  Otherwise it appends one lead record to the list kept in browser storage and
  marks the form as submitted. The close handler resets the form.
- **Lead statistics.** This is the admin dashboard's `fetchStats`. It reads the
  same stored list, counts all leads, `free` leads and `premium` leads, and
  keeps its previous counts if the list cannot be read. It also has the
  premium-rate card's guard against a zero total.

Modules:

- `Text` (`text.dfy`): `Trim` over the exact set of code points that
  ECMAScript's `String.prototype.trim` removes (WhiteSpace and LineTerminator,
  kept as a table of code-point ranges); ASCII `Lower`; `Normalize`. Lemmas
  prove what `Trim` keeps and cuts, that trimming and lower-casing commute, and
  that normalising is idempotent.
- `Leads` (`leads.dfy`): the `Lead` record, `Stored` (what parsing the storage
  entry yields), the `IsRegistered` membership test, the store invariant
  `ValidLeads` (addresses normalised and pairwise distinct), and the
  `LeadStore` class that holds the entry.
- `Signup` (`signup.dfy`): `Decide` (which way a submission goes), `NewLead`,
  lemmas about the invariant and about duplicates, and the `SignupModal` class
  with the form's state and handlers.
- `Dashboard` (`dashboard.dfy`): `PlanFilter`, `ComputeStats`, `Rate`, lemmas
  about the counts, and the `AdminDashboard` class with `stats`, `isLoading`
  and `FetchStats`.
- `LeadFlow` (`lead_flow.dfy`): a submission followed by the dashboard's next
  `fetchStats` over the same stored list. That refresh comes when the dashboard
  mounts, on the `storage` event another tab's write raises, or on the "lead
  added" event when form and dashboard share a window.

Two facts about the stored data shape what is proved:

- A lead's plan may be absent. The modal's `selectedPlan` prop is typed to
  admit `null` (`src/components/SignupModal.tsx` line 13), and the handler
  stores whatever it receives. The dashboard reads the same storage key, which
  any other writer may also have filled. A lead with no plan is counted in
  neither `free` nor `premium`, so the model proves `free + premium <= total`,
  with equality exactly when every lead carries a plan
  (`Dashboard.PlanCountsBounded`). The landing page itself opens the modal only
  through `handleSelectPlan`, which sets a plan first
  (`src/pages/Index.tsx` lines 14-17 and 30-34). So the leads this page writes
  all carry a plan, and for a list made only of them the counts add up to the
  total.
- A stored lead has exactly four fields: `email`, `university`,
  `selected_plan` and `created_at`. The handler accepts any non-empty
  university string.

## Model

| member | source | states |
|---|---|---|
| `Text.LeadingWhitespaceIs` | src/components/SignupModal.tsx:51 | a run of whitespace at the start that ends at the end of the string or at another character is exactly what `trim` strips from the front |
| `Text.TrailingWhitespaceIs` | src/components/SignupModal.tsx:51 | a run of whitespace at the end that starts at the beginning of the string or after another character is exactly what `trim` strips from the back |
| `Text.Trim` | src/components/SignupModal.tsx:51 | the result is never longer than the input; together with `Text.TrimIsSlice` and `Text.TrimResultUnpadded`, it is the slice of the input left after every leading and trailing whitespace character is removed |
| `Text.LeadingWhitespaceExact` | src/components/SignupModal.tsx:51 | the leading count covers whitespace characters only and stops at the first character `trim` keeps |
| `Text.TrailingWhitespaceExact` | src/components/SignupModal.tsx:51 | the trailing count covers whitespace characters only and stops at the last character `trim` keeps |
| `Text.TrimResultUnpadded` | src/components/SignupModal.tsx:51 | the trimmed address neither starts nor ends with ECMAScript whitespace |
| `Text.TrimIsSlice` | src/components/SignupModal.tsx:51 | the trimmed address is a contiguous slice of the input, and everything cut from either end is ECMAScript whitespace |
| `Text.TrimAllWhitespace` | src/components/SignupModal.tsx:51 | a string of whitespace only trims to the empty string |
| `Text.TrimOfPadded` | src/components/SignupModal.tsx:51 | a non-empty string with no whitespace at its ends, surrounded by whitespace, trims back to itself |
| `Text.TrimIgnoresPadding` | src/components/SignupModal.tsx:51 | whitespace added before and after a string does not change what `trim` returns |
| `Text.Lower` | src/components/SignupModal.tsx:51 | the length is kept; each character is its ASCII lower-case form; no upper-case ASCII letter remains |
| `Text.Normalize` | src/components/SignupModal.tsx:44 | the normalised address is no longer than the typed one, has no whitespace at either end and contains no upper-case ASCII letter |
| `Text.LowerKeepsMargins` | src/components/SignupModal.tsx:51 | ASCII lower-casing leaves the number of leading and of trailing whitespace characters unchanged |
| `Text.LowerTrimCommute` | src/components/SignupModal.tsx:44 | trimming then lower-casing equals lower-casing then trimming |
| `Text.NormalizeIdempotent` | src/components/SignupModal.tsx:44 | normalising an already normalised address changes nothing, so a stored address equals its own normalisation |
| `Text.NormalizeIgnoresCaseAndPadding` | src/components/SignupModal.tsx:44 | two addresses equal up to ASCII case and surrounding whitespace normalise to the same string |
| `Text.NormalizeIgnoresPadding` | src/components/SignupModal.tsx:44 | an address with spaces, tabs or line breaks added around it has the same normalisation as the address itself |
| `Leads.IsRegistered` | src/components/SignupModal.tsx:44 | true exactly when some stored lead has the given address (the `some` test) |
| `Leads.AppendKeepsNormalized` | src/components/SignupModal.tsx:50-55 | appending a record whose address is in normal form keeps every stored address in normal form |
| `Leads.AppendKeepsDistinct` | src/components/SignupModal.tsx:44-55 | appending a record whose address differs from every stored one keeps the addresses pairwise distinct |
| `Leads.AppendKeepsValid` | src/components/SignupModal.tsx:44-55 | appending a lead with a normalised, not yet stored address keeps every address normalised and all addresses pairwise distinct |
| `Leads.LeadStore.constructor` | src/components/SignupModal.tsx:42 | an absent storage entry reads as the empty list, which satisfies the invariant |
| `Signup.NewLead` | src/components/SignupModal.tsx:50-55 | the appended record holds the normalised address, which is its own normalisation, and the university, plan and timestamp as given |
| `Signup.Decide` | src/components/SignupModal.tsx:34-66 | missing fields exactly when the untrimmed e-mail or the university is empty; duplicate exactly when the fields are present, the list parses and some stored address equals the normalised one; accepted exactly when the fields are present, the list parses, no stored address equals the normalised one and the write succeeds; a storage error otherwise |
| `Signup.AcceptedKeepsValid` | src/components/SignupModal.tsx:44-57 | an accepted submission keeps the store invariant (normalised, pairwise distinct addresses) |
| `Signup.ResubmissionRejected` | src/components/SignupModal.tsx:44-48 | after an address is accepted, any submission of it that differs only in ASCII case or surrounding whitespace is a duplicate |
| `Signup.PaddedResubmissionRejected` | src/components/SignupModal.tsx:44-48 | after an address is accepted, submitting it again with whitespace around it is a duplicate |
| `Signup.BlankEmailStoredEmpty` | src/components/SignupModal.tsx:34-51 | an address of whitespace only passes the required-field check and is stored as the empty string |
| `Signup.SignupModal.constructor` | src/components/SignupModal.tsx:26-29 | both fields start empty and both flags start false, so the form starts idle (`Valid`: no submission in flight) |
| `Signup.SignupModal.EnterEmail` | src/components/SignupModal.tsx:95 | the e-mail field takes the typed value; an idle form stays idle |
| `Signup.SignupModal.ChooseUniversity` | src/components/SignupModal.tsx:103 | the university field takes the chosen value; an idle form stays idle |
| `Signup.SignupModal.HandleSubmit` | src/components/SignupModal.tsx:31-68 | the outcome is `Decide` of the form and the stored list. When accepted, the new list is the old list with the normalised record appended last. Otherwise the store is untouched. The store invariant is preserved. `isSubmitted` is set only when accepted. `isSubmitting` ends false on every path past the field check, and the field check leaves it alone; an idle form stays idle |
| `Signup.SignupModal.HandleClose` | src/components/SignupModal.tsx:70-75 | e-mail and university become empty and `isSubmitted` false; `isSubmitting` is left as it was, so an idle form stays idle |
| `Dashboard.PlanFilter` | src/components/AdminDashboard.tsx:26-27 | every kept lead is on the given plan and comes from the list; every lead on that plan is kept; the result is no longer than the list (how often each lead is kept is stated by `Dashboard.PlanFilterCounts`) |
| `Dashboard.PlanFilterCounts` | src/components/AdminDashboard.tsx:26-27 | the filter keeps each lead on the plan exactly as many times as the list holds it and no other lead, so its length is the number of leads on the plan |
| `Dashboard.PlanCountsBounded` | src/components/AdminDashboard.tsx:26-31 | free count plus premium count is at most the total, with equality exactly when every lead has a plan |
| `Dashboard.ComputeStats` | src/components/AdminDashboard.tsx:25-33 | total is the list length; free and premium are the lengths of the two plan filters; free plus premium does not exceed total |
| `Dashboard.PlanFilterAppend` | src/components/AdminDashboard.tsx:26-27 | filtering a list with one record appended is the old filter plus that record if it is on the plan |
| `Dashboard.StatsAfterAppend` | src/components/AdminDashboard.tsx:26-33 | appending one lead raises total by one and that lead's plan count by one, leaves the other count alone, and raises free plus premium by at most one |
| `Dashboard.Rate` | src/components/AdminDashboard.tsx:58-60 | no rate exactly when the total is zero; otherwise the share premium/total with a positive denominator, at most 1 for consistent counts |
| `Dashboard.AdminDashboard.constructor` | src/components/AdminDashboard.tsx:19-20 | counts start at zero, not loading, counts consistent |
| `Dashboard.AdminDashboard.FetchStats` | src/components/AdminDashboard.tsx:22-39 | on a parsed list the counts become `ComputeStats` of it, so a second fetch over an unchanged list gives the same counts. On an unparseable list the old counts stay. The store is not modified. Loading ends false. Consistent counts stay consistent |
| `LeadFlow.SubmitThenRefresh` | src/components/AdminDashboard.tsx:41-56 | only an accepted lead is written and followed by a refresh; a rejected submission changes neither the store nor the dashboard's counts or loading flag; the form's flags end as `HandleSubmit` states and an idle form stays idle; after an accepted lead the dashboard has stopped loading, its counts are those of the new list, and an up-to-date dashboard shows total raised by one and free plus premium raised by at most one |

## Left out

- Browser storage and JSON are abstracted away. `localStorage.getItem`,
  `JSON.parse`, `JSON.stringify` and `localStorage.setItem` become the
  `Stored` value (a parsed list or `Unparseable`). Whether `setItem` succeeds
  is the `writeOk` parameter.
- Window events and mounting are not modelled as such. `dispatchEvent`, the
  dashboard's fetch on mount and its listeners for `visapal_lead_added` and
  `storage` appear only as the `FetchStats` call in
  `LeadFlow.SubmitThenRefresh`. In this app the form and the dashboard live on
  different pages, so the dashboard usually sees a new lead on mounting or
  through the `storage` event from another tab; every route ends in the same
  `FetchStats` over the stored list.
- `new Date().toISOString()` reads the clock. It becomes the opaque
  `createdAt` parameter.
- Floating point is left out. `Dashboard.Rate` gives the exact share
  premium/total, not the percentage `toFixed(1)` prints. It keeps the
  distinction between "0" (no leads) and a zero share of a positive total.
- `Text.Lower`: folds only the ASCII letters A-Z. Unicode case mapping by
  `toLowerCase` (for example of accented capitals) is not modelled. So
  `Text.NormalizeIdempotent` and the duplicate check are proved for this ASCII
  folding only.
- Form control attributes are not modelled: the `required` and `type="email"`
  attributes and the browser validation they trigger. The handler is modelled
  as it runs when called, which is why a whitespace-only address reaches it.
- React details are left out. A state setter is modelled as an immediate
  assignment. The transient `isSubmitting == true` and the disabled button are
  not observable after a handler returns; the form's `Valid` predicate
  (`!isSubmitting`) states this and every handler keeps it. `e.preventDefault()`, toasts,
  `console.error`, the parent's `onClose` callback and all JSX rendering are
  out of scope.
- Three pages are left out. `src/pages/Auth.tsx` uses a hosted authentication
  service and a role RPC. `src/pages/Admin.tsx` only renders the dashboard
  (its access check is commented out). `src/pages/Index.tsx` only sets the
  selected plan and opens the modal.
- The marketing components are left out (`Hero`, `Features`, `Pricing`,
  `Header`, `Footer`). They render and hold no logic.
- The dashboard computes only `total`, `free` and `premium` (and the premium
  rate from them); it keeps no per-day or per-university figures.
