# Auto-insurance claims: adjudication, the claim wizard and prompt sanitising

This project models, in Dafny, four pieces of an auto-insurance claims system and
proves what each of them promises.

- **Auto-adjudication** (`adjudication.dfy`, module `Adjudication`). The backend
  service decides each claim.
  - It rejects a claim at once when the policy status is missing, empty or not
    "active" in any letter case.
  - Otherwise it checks five guardrails in a fixed order: the cost cap of 2000,
    the fraud-score limit of 10, AI red flags, the AI confidence floor of 0.90,
    and cost against the coverage limit minus the deductible.
  - Every failed guardrail adds one reason. The claim is approved only when none
    failed and goes to manual review otherwise.
  - Numeric inputs that are missing or unparsable count as 0.0.
  - `EvaluateClaim` follows the service's step-by-step accumulation of reasons.
    It is proved equal to the decision table `Adjudicate`, and the lemmas are
    stated about that table.
- **Claim form rules** (`fnol_form.dfy`, module `FnolForm`). This is the draft a
  first-notice-of-loss (FNOL) wizard collects.
  - It holds the per-step field lists (`STEP_FIELDS`) and the rule each input
    registers: required, required and numeric (the vehicle year), or none (the VIN).
  - It also holds the progress percentage.
- **The wizard and its photo list** (`fnol_wizard.dfy`, module `FnolWizard`).
  - `Wizard` is the four-step controller. Next is gated by the current step's
    rules; Back is ungated.
  - Submission makes one creation request, then one upload per staged photo to
    the returned claim id's route. It ends in a redirect or the single failure alert.
  - `PhotoUploader` is the photo step's component. It keeps two aligned lists
    (files and preview URLs), appends on selection and removes by index. It
    releases the removed preview and reports every change to the wizard.
  - The back end is abstract: each request is recorded in a trace, and its
    answer is a method parameter.
- **Prompt-input sanitising** (`prompt_security.dfy`, module `PromptSecurity`).
  `sanitize_input` deletes every `<…>` run. `construct_prompt_secure` puts the
  five sanitised fields between fixed tags of a prompt template.
  - The sanitiser is defined by its find-first recursion. It is proved equal to a
    position-by-position scan, which is how the regular-expression engine
    replaces leftmost, non-overlapping matches.
  - Tags in the user content are counted. For any inputs, every tag occurs exactly
    as often as the template writes it.

`options.dfy` holds the `Option` type the modules share.

One behaviour of the wizard is worth knowing, and `HiddenPhotoStillUploaded` proves
it. The photo component's state lives only while step 4 is on screen. Going Back
and Next again therefore shows an empty photo list. The wizard keeps the list it
was last sent, though, and a submission then uploads photos the user no longer
sees. This follows from the code as written. Whether it is intended is not
evident from the source, so it is stated as a property rather than a defect.

## Model

| member | source | states |
|---|---|---|
| Adjudication.SafeFloat | backend/app/services/adjudication_service.py:40-44 | a non-zero result is exactly the number given; a missing or unparsable value gives 0.0 |
| Adjudication.UpperCase | backend/app/services/adjudication_service.py:35 | the result is as long as the status, holds no lower-case letter, and spells the same text letter case aside |
| Adjudication.UpperCaseIdempotent | backend/app/services/adjudication_service.py:35 | upper-casing an upper-cased text changes nothing |
| Adjudication.PolicyActive | backend/app/services/adjudication_service.py:34-35 | a status that passes is present and six characters long (a spelling of "ACTIVE"); `InactivePolicyRejected` and `StatusCaseInsensitive` state the rest |
| Adjudication.Guardrails | backend/app/services/adjudication_service.py:46-73 | definition: the five checks, each with the reason it reports, and there are exactly five; `GuardrailsRanked` gives their order |
| Adjudication.GuardrailsRanked | backend/app/services/adjudication_service.py:46-73 | the checks come in the order cost cap, fraud, red flags, confidence, coverage (rank 1 to 5) |
| Adjudication.RankedFive | backend/app/services/adjudication_service.py:46-77 | of five checks in rank order, each one's reason is reported if and only if it failed, no other reason is reported, and the reasons come in rank order |
| Adjudication.FailedReasons | backend/app/services/adjudication_service.py:48-73 | there are never more reasons than guardrails |
| Adjudication.FailedReasonsOfFive | backend/app/services/adjudication_service.py:46-73 | the reasons of the five guardrails are each one's reason, if it failed, in check order |
| Adjudication.Adjudicate | backend/app/services/adjudication_service.py:31-80 | every decision carries one to five reasons, and it is Rejected if and only if the policy is not active; `ApprovedIff` and `ManualReviewReasons` state the rest |
| Adjudication.EvaluateClaim | backend/app/services/adjudication_service.py:18-80 | accumulating reasons check by check gives exactly the decision table's result |
| Adjudication.FailedReasonsMembers | backend/app/services/adjudication_service.py:48-73 | a reason is reported if and only if a guardrail carrying it failed |
| Adjudication.FailedReasonsRanked | backend/app/services/adjudication_service.py:48-73 | guardrails checked in rank order report their reasons in strictly increasing rank |
| Adjudication.InactivePolicyRejected | backend/app/services/adjudication_service.py:34-37 | the result is Rejected if and only if the policy is not active, and then its only reason is "not active" |
| Adjudication.ApprovedIff | backend/app/services/adjudication_service.py:46-80 | Approved if and only if the policy is active, cost <= 2000, fraud <= 10, there are no red flags, confidence >= 0.90 and cost <= coverage minus deductible; Approved carries the single pass reason |
| Adjudication.ManualReviewReasons | backend/app/services/adjudication_service.py:46-77 | with an active policy the result is Approved or Manual Review; under review each of the five reasons, quoting its value, is present if and only if its check failed, no other reason appears, and they are in the fixed check order |
| Adjudication.StatusCaseInsensitive | backend/app/services/adjudication_service.py:35 | a status passes if and only if its upper-case form passes |
| Adjudication.StatusSpellings | backend/app/services/adjudication_service.py:34-35 | "Active", "ACTIVE" and "active" pass; "Expired", the empty status and a missing status fail. The tests use "Active" (test_adjudication.py line 13), "Expired" (line 37), a missing status (line 112) and "ACTIVE" (line 126); "active" and the empty status are cases of this model |
| Adjudication.CostAtCapAddsNoReason | backend/app/services/adjudication_service.py:49 | with an active policy, a cost of exactly 2000 adds no cost-cap reason, whatever the other inputs |
| Adjudication.FraudAtLimitAddsNoReason | backend/app/services/adjudication_service.py:54 | with an active policy, a fraud score of exactly 10 adds no fraud reason, whatever the other inputs |
| Adjudication.ConfidenceAtFloorAddsNoReason | backend/app/services/adjudication_service.py:65 | with an active policy, a confidence of exactly 0.90 adds no confidence reason, whatever the other inputs |
| Adjudication.MissingConfidenceNeedsReview | backend/app/services/adjudication_service.py:40-44 | with an active policy, a missing or unparsable confidence always leads to manual review citing confidence 0.0 |
| Adjudication.UnitTestCases | backend/tests/test_adjudication.py:26-134 | the decisions the unit tests expect: the valid claim approved, expired policy rejected, high cost, high fraud, red flags, low confidence and low coverage each under review with that one reason, and the all-None inputs rejected, or under review citing confidence 0.0 once the policy is active |
| FnolForm.StepFields | frontend/components/features/fnol/FNOLWizard.tsx:21-25 | steps 1 and 3 list four fields, step 2 lists three |
| FnolForm.StepOf | frontend/components/features/fnol/FNOLWizard.tsx:21-25 | every field is listed for one of the three data steps |
| FnolForm.RuleOf | frontend/components/features/fnol/Step3Vehicle.tsx:27-65 | the VIN is the only input without a rule and the year the only one that must hold a number; every other input is required |
| FnolForm.FieldValid | frontend/components/features/fnol/Step3Vehicle.tsx:27-65 | the VIN always passes, the year passes if and only if it holds a number, and any other field passes if and only if its text is non-empty |
| FnolForm.StepValid | frontend/components/features/fnol/FNOLWizard.tsx:44-45 | definition: every field listed for the step passes its rule; `PolicyStepRules`, `IncidentStepRules` and `VehicleStepRules` spell it out per step |
| FnolForm.FieldInOneStep | frontend/components/features/fnol/FNOLWizard.tsx:21-25 | a field is listed for a step if and only if that step is its own, so the three lists are disjoint |
| FnolForm.SetText | frontend/types/fnol.ts:1-13 | typing sets the one field typed into and leaves every other field as it was |
| FnolForm.PolicyStepRules | frontend/components/features/fnol/Step1Policy.tsx:26-64 | step 1 passes if and only if policy number, name, email and phone are non-empty |
| FnolForm.IncidentStepRules | frontend/components/features/fnol/Step2Incident.tsx:27-51 | step 2 passes if and only if date, location and description are non-empty |
| FnolForm.VehicleStepRules | frontend/components/features/fnol/Step3Vehicle.tsx:27-52 | step 3 passes if and only if the year holds a number and make and model are non-empty |
| FnolForm.VinNeverBlocks | frontend/components/features/fnol/Step3Vehicle.tsx:65 | changing the VIN never changes whether step 3 passes |
| FnolForm.EditKeepsOtherSteps | frontend/components/features/fnol/FNOLWizard.tsx:43-50 | editing a field of one step leaves the gate of every other step as it was |
| FnolForm.YearKeepsOtherSteps | frontend/components/features/fnol/Step3Vehicle.tsx:27 | setting the year does not change whether steps 1 and 2 pass |
| FnolForm.EmptyDraftBlocked | frontend/components/features/fnol/FNOLWizard.tsx:43-50 | the untouched form passes none of the three gates |
| FnolForm.Progress | frontend/components/features/fnol/FNOLWizard.tsx:89 | definition: the step divided by four, times 100, as an exact number; `ProgressValues` gives its values |
| FnolForm.ProgressValues | frontend/components/features/fnol/FNOLWizard.tsx:89 | on steps 1 to 4 the progress is 25, 50, 75 or 100, and it is 100 exactly on the last step |
| FnolWizard.Wizard.constructor | frontend/components/features/fnol/FNOLWizard.tsx:28-30 | the wizard starts on step 1 with no photos, not submitting, an empty form and no photo component |
| FnolWizard.Wizard.NextStep | frontend/components/features/fnol/FNOLWizard.tsx:43-50 | below step 4, the step advances by exactly one when the current step's fields pass, and is unchanged otherwise; nothing else changes, and reaching step 4 mounts a fresh, empty photo component |
| FnolWizard.Wizard.PrevStep | frontend/components/features/fnol/FNOLWizard.tsx:52-54 | when Back is enabled the step drops by exactly one without validating, the photo component unmounts, and photos, form and traces are unchanged |
| FnolWizard.Wizard.EditText | frontend/components/features/fnol/Step1Policy.tsx:26-64 | typing into an input of the step on screen changes only that field and keeps the wizard invariant (every step already left still passes) |
| FnolWizard.Wizard.EditYear | frontend/components/features/fnol/Step3Vehicle.tsx:27 | setting the year on step 3 changes only the year and keeps the wizard invariant |
| FnolWizard.Wizard.OnPhotosSelected | frontend/components/features/fnol/FNOLWizard.tsx:56-58 | the reported list replaces the wizard's photos, nothing else changes, and the wizard invariant (which includes the mounted component's own) holds |
| FnolWizard.Wizard.Submit | frontend/components/features/fnol/FNOLWizard.tsx:60-87 | the trace grows by exactly the creation request with the draft, followed by one upload per photo when an id came back; the notice is the redirect or the alert; submitting is false afterwards; the submitted draft passes all three gates |
| FnolWizard.BackEnabled | frontend/components/features/fnol/FNOLWizard.tsx:139 | definition: Back is disabled on step 1 and while a submission runs; `Wizard.PrevStep` requires it |
| FnolWizard.NextShown | frontend/components/features/fnol/FNOLWizard.tsx:145 | definition: Next is shown below step 4; `Wizard.NextStep` requires it |
| FnolWizard.SubmitEnabled | frontend/components/features/fnol/FNOLWizard.tsx:150 | definition: Submit is disabled while a submission runs; `Wizard.Submit` requires it |
| FnolWizard.SubmitRequests | frontend/components/features/fnol/FNOLWizard.tsx:64-77 | definition: the creation request, then the uploads when an id came back; `SubmitTrace` states its shape |
| FnolWizard.SubmitNotice | frontend/components/features/fnol/FNOLWizard.tsx:79-83 | definition: the redirect when an id came back and no upload failed, the alert otherwise; `RedirectIffAllSucceeded` states it both ways |
| FnolWizard.UploadRequests | frontend/components/features/fnol/FNOLWizard.tsx:68-77 | one request per photo, in list order, each to /api/v1/claims/{id}/photos with the photo under the form field "file" |
| FnolWizard.SubmitTrace | frontend/components/features/fnol/FNOLWizard.tsx:64-77 | exactly one creation request, first and carrying the draft; then no uploads after a failed creation, or one upload per staged photo (none for no photos) to the returned id's route |
| FnolWizard.RedirectIffAllSucceeded | frontend/components/features/fnol/FNOLWizard.tsx:79-83 | the redirect to /?claim_id={id}&status=submitted happens if and only if creation returned an id and every upload succeeded; otherwise the single failure alert is shown |
| FnolWizard.AddressesNameTheClaim | frontend/components/features/fnol/FNOLWizard.tsx:73 | different claim ids give different upload routes and different redirect targets |
| FnolWizard.Without | frontend/components/features/fnol/PhotoUpload.tsx:31-32 | definition: the list filtered by position; `WithoutIndex` states what it removes |
| FnolWizard.WithoutIndex | frontend/components/features/fnol/PhotoUpload.tsx:31-32 | filtering by index removes exactly entry i when 0 <= i < length, keeping the order of the rest, and removes nothing otherwise |
| FnolWizard.NewPreviews | frontend/components/features/fnol/PhotoUpload.tsx:25 | one fresh preview per new file, in the files' order, each naming its own file |
| FnolWizard.Staged | frontend/components/features/fnol/PhotoUpload.tsx:14-40 | definition of the component's invariant: the two lists are aligned, every preview names its own file, and every URL is handed out once and released at most once, only after it left the list |
| FnolWizard.RemovalKeepsValid | frontend/components/features/fnol/PhotoUpload.tsx:30-38 | removing entry i from both lists and releasing its preview keeps the lists aligned and every URL released at most once |
| FnolWizard.PhotoUploader.constructor | frontend/components/features/fnol/PhotoUpload.tsx:14-15 | the component starts with two empty lists |
| FnolWizard.PhotoUploader.HandleFileChange | frontend/components/features/fnol/PhotoUpload.tsx:17-28 | without a file list nothing changes anywhere; otherwise the files are appended in order, one preview per file is appended in the same order, the lists stay aligned, and the wizard's photos become exactly the new list; the component's and the wizard's invariants hold |
| FnolWizard.PhotoUploader.RemovePhoto | frontend/components/features/fnol/PhotoUpload.tsx:30-40 | both lists lose entry i (nothing out of range); exactly that entry's preview is released, once; the wizard's photos become the new list, and it is told even when nothing was removed; the component's and the wizard's invariants hold |
| FnolWizard.HiddenPhotoStillUploaded | frontend/components/features/fnol/FNOLWizard.tsx:129 | after picking a photo, Back and Next, the photo component is empty, yet the wizard still holds the photo and a submission uploads it |
| PromptSecurity.Sanitize | scripts/validate_prompt_security.py:3-6 | definition: find the first `<`, and when a `>` follows it delete the run up to that `>` and go on behind it; the lemmas below state what it does |
| PromptSecurity.RegexSubstitute | scripts/validate_prompt_security.py:6 | definition: the regular-expression engine's scan, one position at a time, dropping each match of `<[^>]*>`; `SanitizeIsRegexSubstitute` ties it to `Sanitize` |
| PromptSecurity.Find | scripts/validate_prompt_security.py:6 | the first position holding the character, or the length when there is none |
| PromptSecurity.SanitizeIsRegexSubstitute | scripts/validate_prompt_security.py:3-6 | the find-first recursion deletes exactly the runs a left-to-right regular-expression scan deletes |
| PromptSecurity.SanitizeLeavesNoTag | scripts/validate_prompt_security.py:5-6 | no `<` followed later by `>` survives sanitising |
| PromptSecurity.SanitizeIsSubsequence | scripts/validate_prompt_security.py:6 | the result is the input with characters deleted |
| PromptSecurity.SanitizeLength | scripts/validate_prompt_security.py:6 | the result is never longer than the input, and is strictly shorter when the input holds a tag |
| PromptSecurity.SanitizeChangesIffTag | scripts/validate_prompt_security.py:6 | the text is changed if and only if it holds a tag; text without `<` is returned unchanged |
| PromptSecurity.SanitizeIdempotent | scripts/validate_prompt_security.py:6 | sanitising twice is sanitising once |
| PromptSecurity.SanitizePlainPrefix | scripts/validate_prompt_security.py:6 | text before the first `<` is kept as it is |
| PromptSecurity.SanitizeTagPrefix | scripts/validate_prompt_security.py:6 | a whole tag at the front is dropped |
| PromptSecurity.SanitizeSmuggledTags | scripts/validate_prompt_security.py:6 | of text, two tags, text and two tags only the two texts remain |
| PromptSecurity.Count | scripts/validate_prompt_security.py:58 | definition: the number of positions where the pattern starts, overlapping occurrences included; `CountIsStrCount` shows it equals `str.count` for tags |
| PromptSecurity.StrCount | scripts/validate_prompt_security.py:58 | definition of `str.count`: occurrences found left to right, resuming behind each match, so none overlap |
| PromptSecurity.CountIsStrCount | scripts/validate_prompt_security.py:58 | for a tag pattern the overlapping and the non-overlapping counts agree, because a tag cannot overlap itself |
| PromptSecurity.CountPositiveIffOccurs | scripts/validate_prompt_security.py:58 | the counted occurrences are positive if and only if the pattern is in the text (`in` and `count` agree) |
| PromptSecurity.CountSplits | scripts/validate_prompt_security.py:15-24 | a tag's count in a concatenation is the sum of the counts of the parts when no occurrence can straddle the seam |
| PromptSecurity.UserContent | scripts/validate_prompt_security.py:15-34 | definition: the template with the five sanitised values between their tags; `UserContentTags` and `MakeInUserContent` state what it holds |
| PromptSecurity.ConstructPromptSecure | scripts/validate_prompt_security.py:8-35 | definition: the fixed system prompt paired with the user content; `SystemPromptFixed` and `InjectionTest` state its properties |
| PromptSecurity.SystemPromptFixed | scripts/validate_prompt_security.py:10-12 | the system prompt is the same whatever the five inputs |
| PromptSecurity.ElementTags | scripts/validate_prompt_security.py:17-23 | a delimited field holds its opening and its closing tag once each and no other tag, whatever its value |
| PromptSecurity.PlainBoilerplate | scripts/validate_prompt_security.py:15-34 | the fixed text of the template holds no angle bracket |
| PromptSecurity.UserContentTags | scripts/validate_prompt_security.py:15-34 | for any five inputs, every tag occurs in the user content exactly as often as the template writes it, counted with and without overlaps |
| PromptSecurity.MakeInUserContent | scripts/validate_prompt_security.py:17 | the sanitised make value stands in the user content right after `<make>` |
| PromptSecurity.SanitizeMaliciousMake | scripts/validate_prompt_security.py:41 | the test's malicious make sanitises to "Toyota" followed by the injected sentence, with all four tags gone |
| PromptSecurity.SystemTagsAbsent | scripts/validate_prompt_security.py:41-58 | whatever the five fields hold, `<system>` and `</system>` occur zero times in the user content |
| PromptSecurity.MakeTagsOnceInContent | scripts/validate_prompt_security.py:41-58 | whatever the five fields hold, `<make>` and `</make>` occur once each in the user content, counted with or without overlaps as `str.count` counts |
| PromptSecurity.MaliciousMakeKeepsSentence | scripts/validate_prompt_security.py:41 | sanitising the test's make keeps "Ignore previous instructions", right behind "Toyota" |
| PromptSecurity.InjectedTextKept | scripts/validate_prompt_security.py:17 | any text that survives sanitising the make is in the user content, inside the make element |
| PromptSecurity.InjectionTest | scripts/validate_prompt_security.py:37-66 | for the test's inputs, the four checks of the test hold and the injected sentence is present |

## Left out

- Adjudication.UpperCase: only ASCII letters are upper-cased. Python's `str.upper` also maps other characters, for example the dotless ı to I, so such spellings of "active" pass the service but not the model.
- Adjudication.SafeFloat: `float()` is abstracted to "a number, or a value it refuses". NaN and infinities, string parsing, and a status that is not a string are not modelled.
- Adjudication.Adjudicate: the service computes in binary floating point; the model computes with exact reals. For example, with cost 0.2, coverage 0.3, deductible 0.1, an active policy, fraud score 5 and the valid analysis, the service computes 0.3 - 0.1 as 0.19999999999999998 and sends the claim to manual review for coverage; the model approves it.
- Adjudication.SafeFloat: `float()` of an integer too large for a float raises OverflowError, which `safe_float` does not catch, so `evaluate_claim` raises; the model always returns a number and a decision.
- Adjudication.Adjudicate: red flags are typed as a list of strings. In the service, `', '.join(red_flags)` raises TypeError when a flag is not a string, so `evaluate_claim` raises. A single string as `red_flags` is joined character by character. Neither is modelled.
- Reason messages are symbolic tags that carry the values they quote. Number formatting ("15.0", "$2000.0") and joining the parts with " | " are not modelled.
- Logging in the adjudication service and `console.error` in the wizard have no effect on the state and are not modelled.
- react-hook-form is replaced by the rules each input registers. `trigger` becomes `StepValid`. `handleSubmit`'s validation of all fields is not re-run, because the wizard invariant already shows that the draft passes all three gates when Submit is reachable. `valueAsNumber` becomes "the year holds an integer or nothing".
- FnolWizard.Wizard.Submit: `Promise.all` runs the uploads concurrently. The model issues them in list order and takes one answer per upload, so interleavings and the time at which a failure is noticed are not modelled. All uploads are issued before any answer arrives, as in the source.
- FnolWizard.Wizard.Submit: a creation response without an `id` (which the source would turn into the text "undefined" in the routes) is not modelled. Creation either fails or returns an id.
- FnolWizard.Wizard.Submit: while the await is pending, `isSubmitting` is true and the Submit and Back buttons are disabled. The model runs a submission as one step, so it only shows that the flag is set for the duration and false afterwards.
- FnolWizard.PhotoUploader.HandleFileChange: the source calls `onPhotosSelected` between setting the files and setting the previews; the model updates both lists first and then tells the wizard. The state updates of one event handler take effect together, so no order between them can be observed.
- Object URLs are modelled as serial numbers that each component counts on its own. Their text and any sharing of URLs between components are not modelled. There is no unmount cleanup in the source, so none is modelled.
- Rendering, animation, styling and the step components' markup are not modelled. Mounting the photo component on step 4 is modelled as a change of the wizard's `uploader` field.
- `str()` applied to each prompt input is not modelled: the inputs are strings. The `print` output of the prompt-injection test is not modelled.
- The API client, the back-end endpoints, storage, security, configuration and the login page are not part of this model.
