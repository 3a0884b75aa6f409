# GlowApp onboarding and request gateway, modelled in Dafny

GlowApp is a salon-booking front end. This project models the four pieces of
it that hold logic rather than markup, and proves what they promise:

- **The request gateway** `api` (`src/services/api.ts`). It attaches the
  bearer token stored under `company_auth_token` unless `removeTokenFromHeader`
  is set. It always sends a JSON content type and serialises the body when
  there is one. It toasts the message from the decoded envelope. On a decoded
  `status` of 401 it evicts the token, and any exception becomes a fixed error
  envelope.
  - Module `ApiService`.
  - The pure functions `BearerToken`, `Headers`, `Request`, `Notification`
    and `Call` say what one call does.
  - Class `Gateway` holds the stored token and the toast log as fields. Its
    method `Api` does the call step by step and is proved against `Call`.
- **The company-profile form** of `/register-step-1` and
  `/auth/sign-up/company-profile/page`. Both screens hold the same code:
  `handleInputChange`, `toggleDia`, the initial `formData` and the
  `diasSemana` table.
  - The shared record operations are in module `CompanyForm`, and the
    select/deselect toggle is in module `Selection`.
  - `CompanyForm` also proves the invariant for any sequence of edits.
  - Each screen has its own module (`RegisterStep1`, `CompanyProfilePage`)
    with its events, its reducer and its `handleSubmit`. Each proves that its
    reducer acts on the form as the shared edits do, and so inherits the
    invariant. One screen's submit only logs; the other's navigates to the
    category step, after which the form is gone.
- **The category step** of `/register-step-2` and
  `/auth/sign-up/categories/page`.
  - Module `CategorySelection` holds the six fixed categories, the rule that
    Continue is disabled on an empty selection, and the counter text with its
    plural suffix.
  - `CategorySelection` also proves the invariant for any sequence of card
    presses.
  - Each screen has its own module (`RegisterStep2`, `SignUpCategoriesPage`)
    with its events and reducer. Each proves that its reducer is the shared
    sequence of toggles, and so inherits the invariant.
- **The sign-up schema** `SignUpSchema`, in module `SignUpSchema`. It has
  three field checks and a refinement that reports unequal passwords on
  `confirmPassword`.

The company-form rows below cite `src/routes/register-step-1.tsx`. The same
code is at `src/routes/auth/sign-up/company-profile/page.tsx`:
- `diasSemana` at 14-22;
- the initial form at 25-32;
- `handleInputChange` at 35-40;
- `toggleDia` at 42-49.

The category-rule rows cite `src/routes/register-step-2.tsx`. The same code
is at `src/routes/auth/sign-up/categories/page.tsx`:
- the table at 21-58;
- `toggleCategory` at 60-64;
- the disabled rule at 133;
- the counter at 141-147.

Abstract inputs of the gateway:
- The preferences store is the stored value, an `Option<string>`.
- The toast sink is the list of toasts shown so far.
- `fetch` together with `response.json()` is an `Outcome`: either some
  awaited step threw, or a body was decoded. The outcome also carries the
  HTTP status, which the gateway never reads.
- Whether `Preferences.remove` throws is a boolean parameter.
- `JSON.stringify(body)` is the opaque wrapper `Stringified(body)`.
- The email check of the validation library is a function parameter
  `isEmail`.

Two details of `src/services/api.ts` matter for the model:
- `response.json()` runs inside the `try`. A body that does not decode
  therefore gets the same fallback envelope as a network failure.
- On 401, `toast.error` runs before `Preferences.remove` is awaited. If the
  removal throws, the error toast has already been shown and the call returns
  the fallback envelope (`UnauthorizedRemovalThrows`). So a failure is not
  always silent. What the store holds after a failed removal is an assumption
  of the model, listed under "## Left out".

## Model

| member | source | states |
|---|---|---|
| `Selection.Without` | src/routes/register-step-1.tsx:45 | the filtered list holds every key of the input except the toggled one, and never that one; it is no longer than the input |
| `Selection.Toggle` | src/routes/register-step-1.tsx:44-46 | the toggled key is in the result exactly when it was absent before; every other key keeps its membership; an absent key is appended at the end, after the earlier keys in their order (the same expression is `toggleCategory` at src/routes/register-step-2.tsx:60-66 and src/routes/auth/sign-up/categories/page.tsx:60-64) |
| `Selection.WithoutSplit` | src/routes/register-step-1.tsx:45 | filtering `a + [k] + b` gives filtered `a` followed by filtered `b`, so the other keys keep their relative order |
| `Selection.ToggleRemovesInPlace` | src/routes/register-step-1.tsx:44-45 | toggling a key present once, between `a` and `b`, gives exactly `a + b` |
| `Selection.ToggleTwiceAbsent` | src/routes/register-step-1.tsx:41-47 | toggling an absent key twice restores the original list |
| `Selection.ToggleTwicePresent` | src/routes/register-step-1.tsx:41-47 | toggling a key present once twice moves it to the end of the list; this is the identity only when it was already last |
| `Selection.ToggleKeepsNoDup` | src/routes/register-step-1.tsx:44-46 | a duplicate-free list stays duplicate-free after a toggle |
| `Selection.ToggleKeepsWithin` | src/routes/register-step-1.tsx:180-189 | toggling a key of a table keeps a list drawn from that table |
| `Selection.BoundedByKeys` | src/routes/register-step-1.tsx:24-32 | a duplicate-free list whose keys all come from a table is no longer than the table |
| `CompanyForm.DayKeys` | src/routes/register-step-1.tsx:24-32 | the weekday buttons pass seven distinct keys, the `key` fields of `diasSemana` in order |
| `CompanyForm.HandleInputChange` | src/routes/register-step-1.tsx:34-39 | the named field takes the new value; every other text field and the list of days are unchanged |
| `CompanyForm.ToggleDia` | src/routes/register-step-1.tsx:41-48 | the list of days is toggled at the clicked day; every text field is unchanged |
| `CompanyForm.InitialIsBlank` | src/routes/register-step-1.tsx:15-22 | the initial form has empty name, description and address, hours `06:00` to `17:00`, no days, and satisfies the invariant |
| `CompanyForm.InputChangeLastWins` | src/routes/register-step-1.tsx:34-39 | two edits of the same field leave only the second value |
| `CompanyForm.InputChangesCommute` | src/routes/register-step-1.tsx:34-39 | edits of two different fields give the same form in either order |
| `CompanyForm.ToggleDiaTwice` | src/routes/register-step-1.tsx:41-47 | clicking an unchosen day twice gives back the same form |
| `CompanyForm.UpdatesKeepValid` | src/routes/register-step-1.tsx:34-48 | both updaters keep the days distinct weekday keys; for a toggle, the clicked day must be a weekday key |
| `CompanyForm.ValidBounded` | src/routes/register-step-1.tsx:21-32 | a form whose days are distinct weekday keys holds at most seven days |
| `CompanyForm.ApplyAllKeepsValid` | src/routes/register-step-1.tsx:34-189 | any sequence of input edits and weekday-button clicks keeps the days distinct weekday keys |
| `CompanyForm.ReachableFormsBounded` | src/routes/register-step-1.tsx:15-189 | from the initial form, any sequence of edits and weekday clicks leaves distinct weekday keys, at most seven |
| `RegisterStep1.HandleSubmit` | src/routes/register-step-1.tsx:50-53 | submitting leaves the form unchanged |
| `RegisterStep1.RunIsEdits` | src/routes/register-step-1.tsx:34-53 | the screen's events act on the form exactly as its edits do; submits change nothing |
| `RegisterStep1.ReachableFormsBounded` | src/routes/register-step-1.tsx:15-53 | from the initial form, whatever the user does with the screen's inputs and buttons, the days stay distinct weekday keys, at most seven |
| `CompanyProfilePage.HandleSubmit` | src/routes/auth/sign-up/company-profile/page.tsx:51-54 | submitting leaves the form unchanged and navigates to `/auth/sign-up/categories/page` |
| `CompanyProfilePage.Step` | src/routes/auth/sign-up/company-profile/page.tsx:35-54 | an event navigates exactly when it is a submit |
| `CompanyProfilePage.SubmitNotGated` | src/routes/auth/sign-up/company-profile/page.tsx:51-54 | every form, the blank initial one included, navigates to the same route on submit: there is no validation gate |
| `CompanyProfilePage.RunIsEdits` | src/routes/auth/sign-up/company-profile/page.tsx:35-54 | the screen's events act on the form exactly as the edits before the first submit do; the screen navigates to the category step exactly when a submit occurs |
| `CompanyProfilePage.ReachableFormsBounded` | src/routes/auth/sign-up/company-profile/page.tsx:14-54 | from the initial form the days stay distinct weekday keys, at most seven |
| `CategorySelection.Ids` | src/routes/register-step-2.tsx:21-58 | the cards pass six distinct ids, the `id` fields of `categories` in order |
| `CategorySelection.ContinueDisabled` | src/routes/register-step-2.tsx:139 | Continue is disabled exactly when no category is selected |
| `CategorySelection.Plural` | src/routes/register-step-2.tsx:151-152 | the suffix is `s` exactly when the count is above one, and empty otherwise |
| `CategorySelection.Decimal` | src/routes/register-step-2.tsx:150 | the rendered count is a non-empty string of decimal digits with no leading zero, and `0` for zero |
| `CategorySelection.DecimalValue` | src/routes/register-step-2.tsx:150 | reading the rendered digits back gives the count |
| `CategorySelection.Counter` | src/routes/register-step-2.tsx:147-153 | the counter is rendered exactly when the selection is non-empty; it reads `1 categoria selecionada` for one and `N categorias selecionadas` above one |
| `CategorySelection.CounterIffEnabled` | src/routes/register-step-2.tsx:139-153 | the counter is shown exactly when Continue is enabled |
| `CategorySelection.ToggleAllKeepsDistinct` | src/routes/register-step-2.tsx:60-102 | pressing only cards of the table keeps the selection distinct ids of the table |
| `CategorySelection.ReachableSelectionsBounded` | src/routes/register-step-2.tsx:19-153 | from the empty selection, any presses of the cards leave distinct ids, at most six, and the counter is shown exactly when Continue is enabled |
| `RegisterStep2.InitialSelection` | src/routes/register-step-2.tsx:19 | the selection starts empty |
| `RegisterStep2.HandleContinue` | src/routes/register-step-2.tsx:68-71 | Continue leaves the selection unchanged |
| `RegisterStep2.RunIsToggles` | src/routes/register-step-2.tsx:60-71 | the screen's events act on the selection as `toggleCategory` of each pressed card's id in order; Continue changes nothing |
| `RegisterStep2.ReachableSelectionsBounded` | src/routes/register-step-2.tsx:19-71 | from the empty selection it stays distinct category ids, at most six, and the counter is shown exactly when Continue is enabled |
| `SignUpCategoriesPage.InitialSelection` | src/routes/auth/sign-up/categories/page.tsx:19 | the selection starts empty |
| `SignUpCategoriesPage.HandleContinue` | src/routes/auth/sign-up/categories/page.tsx:66-69 | Continue leaves the selection unchanged |
| `SignUpCategoriesPage.RunIsToggles` | src/routes/auth/sign-up/categories/page.tsx:60-69 | the screen's events act on the selection as `toggleCategory` of each pressed card's id in order; Continue changes nothing |
| `SignUpCategoriesPage.ReachableSelectionsBounded` | src/routes/auth/sign-up/categories/page.tsx:19-69 | from the empty selection it stays distinct category ids, at most six, and the counter is shown exactly when Continue is enabled |
| `SignUpSchema.FieldIssues` | src/routes/auth/sign-up/_schemas/sign-up.schema.tsx:4-8 | there is an email issue exactly when the email check fails; a password issue exactly when the password is under 6 characters; a confirmation issue exactly when the confirmation is under 6; there is no other issue and none appears twice, so each failing check reports once with its field path and the source's message |
| `SignUpSchema.RefineIssue` | src/routes/auth/sign-up/_schemas/sign-up.schema.tsx:9-12 | a mismatch issue exists exactly when the two passwords differ; its path is `['confirmPassword']` and its message `As senhas não coincidem` |
| `SignUpSchema.AcceptsIff` | src/routes/auth/sign-up/_schemas/sign-up.schema.tsx:3-12 | an input is accepted exactly when the email passes, both passwords have at least 6 characters, and they are equal character for character |
| `SignUpSchema.EqualPasswordsShareLengthCheck` | src/routes/auth/sign-up/_schemas/sign-up.schema.tsx:6-9 | when the passwords are equal, the two length checks fail together or not at all |
| `ApiService.Fallback` | src/services/api.ts:61 | the fallback envelope is `{error: true, message: 'Ocorreu um erro ao tentar acessar a API'}` and nothing else |
| `ApiService.BearerToken` | src/services/api.ts:27-28 | a token is attached exactly when the flag is off and a non-empty token is stored; it is the stored one |
| `ApiService.Headers` | src/services/api.ts:32-37 | `Content-Type: application/json` is always there; `Authorization` is there exactly for a token and reads `Bearer <token>`; no other header exists |
| `ApiService.Request` | src/services/api.ts:30-39 | the URL is `http://localhost:3000` followed by the pathname; the method is passed through; a body is sent exactly when one is given, as its serialisation; the headers follow the token rule |
| `ApiService.Notification` | src/services/api.ts:49-57 | a toast exists exactly when the message is non-empty and some flag is true; it carries the message; success beats error, and error beats warning |
| `ApiService.Call` | src/services/api.ts:41-62 | at most one toast per call; the token changes only by eviction, and only when a stored token meets a decoded 401 whose removal succeeds; the envelope is either the fallback or the decoded one |
| `ApiService.Gateway.Api` | src/services/api.ts:20-63 | the request handed to `fetch`, the returned envelope, the toasts appended and the new stored token are those of `Request` and `Call` for the token stored before the call |
| `ApiService.SuppressedTokenIgnoresStore` | src/services/api.ts:27-36 | with `removeTokenFromHeader` set, the request is the same whatever is stored, and carries no `Authorization` |
| `ApiService.BearerHeaderIff` | src/services/api.ts:27-36 | with the flag off, `Authorization` is sent exactly when a non-empty token is stored, as `Bearer <token>`; the content type is JSON |
| `ApiService.ThrowIsSilent` | src/services/api.ts:60-62 | a throw before decoding gives exactly the fallback envelope, no toast and an unchanged token |
| `ApiService.UnauthorizedEvicts` | src/services/api.ts:43-47 | a decoded 401 gives one error toast with the envelope's message (absent or not), removes the token, and returns the envelope unchanged, whatever its flags |
| `ApiService.UnauthorizedRemovalThrows` | src/services/api.ts:43-62 | when the removal throws after a 401, the error toast stays and the fallback envelope is returned; the model assumes the token is kept |
| `ApiService.DecodedNotifies` | src/services/api.ts:49-59 | apart from 401 the envelope comes back unchanged and the token is untouched; with no message there is no toast whatever the flags; otherwise a success, error or warning toast follows the flag priority, and there is none when no flag is set |
| `ApiService.HttpStatusIgnored` | src/services/api.ts:41-45 | the HTTP status of the response changes nothing; only the decoded `status` counts |
| `ApiService.ResponseIndependentOfStore` | src/services/api.ts:41-59 | the returned envelope depends only on what the transport delivered, not on the stored token; there is no cache |
| `ApiService.EvictionThenRequest` | src/services/api.ts:27-47 | after a call that meets a 401, the error toast is logged and the next request carries no `Authorization` |

## Left out

- Real I/O is not modelled: `fetch`, `@capacitor/preferences`, the `sonner`
  toasts and `console.log`. The environment supplies the transport outcome
  and whether the removal throws. The store and the toast sink are fields of
  `Gateway`.
- `JSON.stringify` and `response.json()` are opaque. Their only effect is
  that they may throw, which is folded into `Outcome.Threw`. A body that
  decodes to `null` makes `data.status` throw and is treated as a throw too.
  A body shaped unlike `ApiResponse` is left out: envelope fields are taken
  at their declared types (optional booleans, string, integer status).
- `ApiService.UnauthorizedRemovalThrows`: when `Preferences.remove` throws,
  the code cannot tell what the store holds afterwards. The model assumes the
  token is kept, and `Call`, `Gateway.Api` and this lemma rest on that
  assumption.
- `ApiService.Gateway.Api`: the request it returns is the one `fetch` would
  receive. When an earlier step threw, that request was never built.
- There is no concurrency: no racing `api` calls on the shared token and no
  `async` interleaving. Each call is one sequential transaction.
- `SignUpSchema.FieldIssues`: `z.email` is a parameter (`isEmail`), because
  its definition belongs to the validation library.
- `SignUpSchema.FieldIssues`: `.min(6)` counts UTF-16 code units. The model
  counts Unicode characters, so the two differ for characters outside the
  Basic Multilingual Plane.
- `SignUpSchema.AcceptsIff`: the order in which the library runs its checks
  is not modelled. The model does not say whether the mismatch issue is
  reported when a field check already failed. It only says that acceptance
  needs both the field checks and the refinement to pass.
- `CompanyForm.HandleInputChange`: the TypeScript signature accepts any
  string as a field name. The model takes only the five text fields that the
  screens' inputs pass.
- `src/routes/auth/sign-up/page.tsx` is timer-driven UI and is not part of
  this model: the resend countdown, the dialogs and the OTP length guard. Its
  verification request is a call to the gateway.
- `src/routes/home.tsx`, `src/routes/auth/login.tsx` and
  `src/routes/auth/sign-in/_schemas/sign-in.tsx` are left out. They are
  markup, form-library state and declarative validator chains.
- `src/routes/index.tsx`, `src/routes/auth/sign-in/@types.ts`,
  `capacitor.config.ts` and `eslint.config.js` are left out as routing and
  configuration.
- All JSX, CSS classes, icons, emoji and labels are presentation and are
  not modelled. The weekday captions and the category names are kept only
  as data.
