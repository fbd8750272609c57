# Job portal front end: a Dafny model of its page logic

This project models the browser-side logic of a small job portal. The rest
of the front end is markup, styling, animation and `fetch` calls, and is not
modelled. The modelled parts are:

- **The five-section application wizard of `js/job-form-handler.js`** (module
  `JobFormHandler`). This is a step counter in 1..5 that moves forward only
  past a fail-fast section validator. The validator checks presence, then the
  email shape `^\S+@\S+\.\S+$` on the untrimmed value, then the Indian mobile
  pattern `^[6-9]\d{9}$` after white space, `-` and `+` are stripped. The
  module also covers the section and progress display after each move, and
  the submission. Submission builds the application record through a fixed
  control-to-property mapping. It disables the submit button while the
  request is out, and ends in a reset to section 1 or a restored button.
- **The five-step wizard of `job-application-form.js`** (module
  `JobApplicationForm`). This is a different machine. Its validator examines
  every required control and marks each blank one with `error`. A `loading`
  flag keeps a second submission out. The simulated submission completes as
  a separate timer event, which alerts twice, resets the form and returns to
  step 1. The page state is a class over arrays: one array each for the
  sections, the progress steps, the progress lines and the form's controls.
- **The contact and application forms of `js/forms.js`** (module `Forms`).
  Both checks run on trimmed values. The application form checks required
  fields, then the unstripped phone pattern, then the email pattern. The
  submit button is held while the request is out and given back on success
  and on failure. The module also builds the job-title drop-down.
- **The sign-in / sign-up page of `login.js`** (module `Login`). It covers
  the mode flag and the shared `loading` flag, and the two validation chains.
  On success it writes five session keys to `localStorage`. A one-second
  redirect then consumes `redirectAfterLogin`.
- **The shared script `app.js`** (module `App`). It covers:
  - `isLoggedIn`;
  - `logout`, which removes exactly the five auth keys;
  - the job-card click, which remembers the job and the way back after
    signing in;
  - the home page's first-six slice of the job list;
  - the blank-keyword fallback of the search;
  - the integer labels of the statistics counters.
- **Cross-page properties of the `localStorage` protocol** (module
  `AuthProtocol`). What a sign-in writes is what `isLoggedIn` reads and what
  `logout` removes. A logged-out job-card click followed by a sign-in lands
  on the application form with the chosen job still stored.

Shared modules:

- `Wrappers`: `Option`, `Outcome` and JavaScript's `||` on strings.
- `Text`: `trim`, the `\s` class, and the email and phone patterns as
  explicit character predicates, plus decimal numerals.
- `Boundary`: toasts, job records, and the settled outcome `Reply` of an API
  call. `Reply` is either the parsed body or a thrown error.
- `Storage`: `localStorage` as a class over `map<string, string>`.
- `Dom`: the `active`-class loops over node lists.

Each API call is an explicit input to the method that handles its reply.
Each `setTimeout` callback is either a separate method or a returned target
page.

## Model

| member | source | states |
|---|---|---|
| Wrappers.OrElse | js/forms.js:61 | `a \|\| b` on strings is `a` when `a` is non-empty and otherwise `b`, so empty only when both are |
| Text.TrimStart | js/job-form-handler.js:107 | the result is a suffix of the input, with only white space dropped before it and no white space at its head |
| Text.TrimEnd | js/job-form-handler.js:107 | the result is a prefix of the input, with only white space dropped after it and no white space at its end |
| Text.Trim | js/forms.js:38-42 | `trim()` never lengthens a value, and a non-empty result neither starts nor ends with white space |
| Text.IsSpace | js/job-form-handler.js:115 | JavaScript's WhiteSpace and LineTerminator code points, the set `\s` matches and `trim()` removes; Text.Trim and Text.BlankIffAllSpace state its use |
| Text.Blank | js/job-form-handler.js:107 | `!value.trim()`; Text.BlankIffAllSpace states when it holds |
| Text.BlankIffAllSpace | js/job-form-handler.js:107 | a value fails `!value.trim()` exactly when every character is white space |
| Text.IndexFrom | js/job-form-handler.js:115 | the first `@` at or after a position, or the length when there is none |
| Text.LastIndexBelow | js/job-form-handler.js:115 | the last `.` before a bound, or -1 when there is none |
| Text.MatchesEmail | js/job-form-handler.js:115-116 | `emailRegex.test(value)`, decided by the first `@` and the last `.`; Text.MatchesEmailIffShape proves it equal to the pattern's shape |
| Text.MatchesEmailIffShape | js/job-form-handler.js:114-121 | the decision procedure for `^\S+@\S+\.\S+$` accepts exactly the strings with no white space and a non-empty run, `@`, a non-empty run, `.`, a non-empty run |
| Text.IsIndianMobile | js/job-form-handler.js:127-128 | `^[6-9]\d{9}$`: ten ASCII digits, the first 6 to 9; Forms.ApplicationVerdict and JobFormHandler.FieldErrorMeaning state its use |
| Text.EmailExamples | js/job-form-handler.js:114-121 | `a@b.c` matches; `not-an-email` and ` a@b.c` do not |
| Text.StripPhoneSeparators | js/job-form-handler.js:126 | the stripped phone holds no white space, `-` or `+`, and is no longer than the input |
| Text.StripAppend | js/job-form-handler.js:126 | stripping separators distributes over concatenation |
| Text.StripKeepsClean | js/job-form-handler.js:126 | a string without separators is left as it is, so stripping is idempotent |
| Text.StripKeepsDigits | js/job-form-handler.js:126 | a digit string is left as it is |
| Text.StripSeparator | js/job-form-handler.js:126 | a lone separator strips to nothing |
| Text.StripSpacedDigits | js/job-form-handler.js:126 | two digit groups around a space strip to the digits alone |
| Text.StripPlusPrefix | js/job-form-handler.js:126 | a leading `+` is dropped |
| Text.SeparatedPhonePasses | js/job-form-handler.js:124-133 | `98765 43210` passes the wizard's phone check |
| Text.StripKeepsLeadingDigit | js/job-form-handler.js:126 | a leading digit stays in front after stripping |
| Text.LeadingOnePhoneFails | js/job-form-handler.js:124-133 | `1234567890` fails the wizard's phone check |
| Text.StripSpaceThenDigits | js/job-form-handler.js:126 | a space and a digit group after any prefix strip to the stripped prefix followed by the digits |
| Text.StripInternational | js/job-form-handler.js:126 | `+cc aaaaa bbbbb` strips to all its digits, country code included |
| Text.CountryCodePhoneFails | js/job-form-handler.js:124-133 | `+91 98765 43210` fails, because twelve digits remain |
| Text.UnstrippedSeparatedPhoneFails | js/forms.js:104-108 | `^[6-9]\d{9}$` alone refuses `98765 43210` |
| Text.EndsWith | app.js:340 | `endsWith`: the string's last characters are the suffix; App.DisplayedJobsPrefix states its use |
| Text.Contains | app.js:378 | `includes`, as a search from each position; Text.ContainsIffInfix states its meaning |
| Text.ContainsInfix | app.js:378 | `includes` finds a string spliced anywhere into another |
| Text.FoundAt | app.js:378 | where `includes` succeeds, the text occurs at the position returned |
| Text.ContainsOnlyInfix | app.js:378 | whatever `includes` finds is the string with something on either side of it |
| Text.ContainsIffInfix | app.js:378 | `s.includes(t)` holds exactly when `s` is `t` with something on either side |
| Text.DigitChar | app.js:284 | the character is an ASCII digit whose value is the digit |
| Text.DecimalString | app.js:284 | the numeral is non-empty, all digits, and has no leading zero unless the number is 0 |
| Text.DecimalRoundTrip | app.js:284 | reading the numeral back gives the number |
| Text.DecimalBelowThousand | app.js:279-284 | a number below 1000 prints in at most three digits |
| Text.IntString | app.js:295 | `target + ''` is non-empty and starts with `-` exactly for negative targets |
| Storage.LocalStorage.GetItem | app.js:234 | `getItem` answers the stored value, or `null` exactly when the key is absent |
| Storage.LocalStorage.SetItem | login.js:87-91 | `setItem` changes that key alone |
| Storage.LocalStorage.RemoveItem | app.js:247-251 | `removeItem` drops that key alone |
| Dom.ActivateOnly | js/job-form-handler.js:69-77 | after the loop only the element of id `section<n>` is active, and none when there is no such element |
| Dom.ActivateThrough | js/job-form-handler.js:56-65 | element `index` is active exactly when `index + 1 <= limit` |
| JobFormHandler.RequiredFields | js/job-form-handler.js:103-104 | the section's `[required]` controls in document order; JobFormHandler.RequiredFieldsMembers states which they are |
| JobFormHandler.RequiredFieldsMembers | js/job-form-handler.js:103-104 | exactly the section's `[required]` controls are examined |
| JobFormHandler.FieldError | js/job-form-handler.js:106-133 | the checks one required control goes through, in order; JobFormHandler.FieldErrorMeaning states when it accepts and what it reports |
| JobFormHandler.FieldErrorMeaning | js/job-form-handler.js:106-133 | a field is accepted iff it is not blank, it has the email shape when of type `email`, and it is a stripped Indian mobile when named `phone`; a blank one gets `Please fill in: <label \|\| 'required field'>` |
| JobFormHandler.UntrimmedEmailRejected | js/job-form-handler.js:107-121 | ` a@b.c` passes the presence check and then fails the email check |
| JobFormHandler.FirstError | js/job-form-handler.js:106-136 | none exactly when every verdict accepts; otherwise the index and message of the earliest rejection, with every earlier verdict accepting |
| JobFormHandler.FirstErrorAt | js/job-form-handler.js:106-111 | the first rejection is the one reported, wherever it stands |
| JobFormHandler.FirstFailure | js/job-form-handler.js:106-136 | none exactly when every control passes its checks; otherwise the position and message of the first control that fails, every earlier one passing |
| JobFormHandler.FirstFailureAt | js/job-form-handler.js:106-111 | the first failing control, wherever it stands, is the one reported |
| JobFormHandler.FailFastIgnoresLaterFields | js/job-form-handler.js:106-111 | once a field fails, replacing every field after it leaves the verdict unchanged |
| JobFormHandler.ValidateSection | js/job-form-handler.js:102-137 | the loop returns true iff the section is valid; when false, its toast carries the first failing field's message |
| JobFormHandler.AllKeysComplete | js/job-form-handler.js:176-201 | the record has all fifteen properties |
| JobFormHandler.SourceInjective | js/job-form-handler.js:176-201 | distinct properties read distinct controls |
| JobFormHandler.FormValue | js/job-form-handler.js:175-178 | `formData.get(name)`; JobFormHandler.FormValueFirst states which control it reads |
| JobFormHandler.FormValueFirst | js/job-form-handler.js:175-178 | `formData.get(name)` is the value of the first control of that name, and `null` iff there is none |
| JobFormHandler.BuildRecord | js/job-form-handler.js:176-201 | the record's keys are exactly the fifteen properties |
| JobFormHandler.RecordValue | js/job-form-handler.js:176-201 | each property holds `formData.get` of its source control |
| JobFormHandler.RenamedSources | js/job-form-handler.js:181-198 | nine properties read a differently named control (`address`←`currentAddress`, `jobTitle`←`positionAppliedFor`, `department`←`jobType`, `qualification`←`degreeType`, `institution`←`schoolUniversity`, `yearOfPassing`←`graduationYear`, `previousCompany`←`mostRecentEmployer`, `experience`←`keyResponsibilities`, `skills`←`keySkills`), and only those |
| JobFormHandler.RecordKeepsOtherNames | js/job-form-handler.js:178-200 | every other property reads the control of its own name |
| JobFormHandler.FailureText | js/job-form-handler.js:234-247 | the failure toast is never empty: a `success:false` body shows its `message` or `Failed to submit application`; a thrown error shows its message or the retry text |
| JobFormHandler.ResetFields | js/job-form-handler.js:223 | `form.reset()` keeps the number of controls |
| JobFormHandler.ResetFieldsMeaning | js/job-form-handler.js:223 | a reset puts every control's default value back and changes nothing else about it |
| JobFormHandler.ResetRequiredFields | js/job-form-handler.js:223 | a reset keeps which controls each section requires, so the reset form is validated on those controls' defaults |
| JobFormHandler.Wizard.constructor | js/job-form-handler.js:255-269 | the page starts on section 1, with its display shown, over the form's controls |
| JobFormHandler.Wizard.ShowSection | js/job-form-handler.js:67-100 | only section n is active; progress step i is active iff i <= currentStep; Previous is hidden iff n = 1; navigation is hidden and actions shown iff n = 5 |
| JobFormHandler.Wizard.NextSection | js/job-form-handler.js:139-147 | the step goes up by exactly one iff the section on screen validates and the step is below 5, otherwise it stays, so it stays in 1..5; an invalid section gives an error toast with its first failing control's message, a valid one none |
| JobFormHandler.Wizard.PrevSection | js/job-form-handler.js:149-155 | the step goes down by one iff it is above 1, with no validation, never below 1 |
| JobFormHandler.Wizard.BeginSubmit | js/job-form-handler.js:158-213 | a record is sent iff the section on screen validates; it is the record mapped from the whole form, with the button disabled under `Submitting...` and its old label kept; otherwise the error toast names the first failing control and the button is untouched |
| JobFormHandler.Wizard.CompleteSubmit | js/job-form-handler.js:215-251 | on success the form is reset to its defaults, the wizard returns to section 1 and heads for `index.html`, the button staying disabled; on failure the values and the section are kept and the button is re-enabled with its original label, under the failure toast |
| JobApplicationForm.AccumulatedIffFilled | job-application-form.js:93-104 | the `isValid` flag accumulated control by control equals "every required control of the step is filled" |
| JobApplicationForm.MarkErrors | job-application-form.js:95-102 | marking keeps the number of controls |
| JobApplicationForm.ResetValues | job-application-form.js:157 | a reset keeps the number of controls |
| JobApplicationForm.MarkErrorsMeaning | job-application-form.js:95-102 | after validation a checked control carries `error` iff it is blank; other controls and all values are untouched |
| JobApplicationForm.FilledIffNoErrorMarks | job-application-form.js:90-105 | the step is valid iff no checked control carries `error` afterwards |
| JobApplicationForm.MarkKeepsFilled | job-application-form.js:90-105 | validation changes no value, so no step's validity changes |
| JobApplicationForm.MarkErrorsIdempotent | job-application-form.js:90-105 | validating twice leaves the same marks as validating once |
| JobApplicationForm.ResetMeaning | job-application-form.js:157 | a reset restores each value to its default and changes nothing else |
| JobApplicationForm.ResetFilled | job-application-form.js:157 | a reset form passes a step iff each required control of it has a non-blank default |
| JobApplicationForm.Wizard.constructor | job-application-form.js:20-23 | the page starts on step 1, not loading, with step 1 and its buttons shown |
| JobApplicationForm.Wizard.ShowStep | job-application-form.js:26-53 | only section `step` is active; progress step i is active iff i <= step; progress line i is active iff i < step |
| JobApplicationForm.Wizard.UpdateNavigation | job-application-form.js:56-73 | step 1 hides Previous; step 5 hides Next and the navigation and shows the actions; other steps show Previous, Next and navigation |
| JobApplicationForm.Wizard.ShowLoading | job-application-form.js:76-80 | `loading` is set, the button disabled and given the spinner label |
| JobApplicationForm.Wizard.HideLoading | job-application-form.js:83-87 | `loading` is cleared, the button enabled and given back its label |
| JobApplicationForm.Wizard.ValidateStep | job-application-form.js:90-105 | the loop marks exactly the blank required controls of the step, examining all of them, and returns whether the step is filled |
| JobApplicationForm.Wizard.NextStep | job-application-form.js:108-116 | the step goes up by one iff it is below 5 and filled; the alert appears iff the step is not filled; the marks are those of one validation; the step stays in 1..5 |
| JobApplicationForm.Wizard.PrevStep | job-application-form.js:119-125 | the step goes down by one iff it is above 1, never below 1 |
| JobApplicationForm.Wizard.BeginSubmit | job-application-form.js:128-138 | while loading nothing changes; an unfilled step alerts and `loading` stays false; a filled one enters the loading state |
| JobApplicationForm.Wizard.CompleteSubmit | job-application-form.js:148-161 | the timer alerts twice, clears `loading`, restores the button label, resets every value to its default, and returns to step 1 |
| Forms.ContactCheck | js/forms.js:46-49 | the contact form's one check on the trimmed data; Forms.ContactRejection states when it refuses |
| Forms.ApplicationCheck | js/forms.js:97-115 | the application form's ordered checks on the trimmed data; Forms.ApplicationVerdict states each outcome |
| Forms.ContactRejection | js/forms.js:37-49 | a contact message is refused, with the required-fields toast, iff name, email, subject or message is white space only; the phone never matters |
| Forms.ApplicationVerdict | js/forms.js:97-115 | on trimmed data the application passes iff the four required values are present, the phone matches `^[6-9]\d{9}$` and the email has the shape; each message appears iff its check is the first to fail |
| Forms.ApplicationDataPresence | js/forms.js:87-101 | a trimmed value is empty iff the typed one is white space only |
| Forms.SpacedPhoneRefused | js/forms.js:104-108 | `98765 43210` is refused with the phone message, as nothing is stripped |
| Forms.FailureText | js/forms.js:134-139 | a `success:false` body shows its `error` or the fixed rejection text; a thrown error shows its message or the retry text; never empty |
| Forms.SubmitButton.constructor | js/forms.js:52-53 | the button starts enabled with its text |
| Forms.SubmitButton.Hold | js/forms.js:52-55 | disabled under the busy text, and the original text is answered |
| Forms.SubmitButton.Release | js/forms.js:69-72 | enabled again under the original text |
| Forms.ContactForm.constructor | js/forms.js:29-33 | the form starts from its defaults with no request out |
| Forms.ContactForm.Submit | js/forms.js:33-58 | a refused message shows its toast and leaves the button alone; an accepted one sends the trimmed data under `Sending...` |
| Forms.ContactForm.Complete | js/forms.js:58-72 | success shows the message and resets the form; failure keeps the values under the failure toast; the button is given back either way |
| Forms.ApplicationForm.constructor | js/forms.js:79-83 | the form starts from its defaults with no request out |
| Forms.ApplicationForm.Submit | js/forms.js:83-124 | the first failing check shows its toast and leaves the button alone; otherwise the trimmed data is sent under `Submitting...` |
| Forms.ApplicationForm.Complete | js/forms.js:124-143 | success resets the form and heads for `jobs.html`; failure keeps the values; the button is given back either way |
| Forms.PopulateJobTitles | js/forms.js:150-172 | with a job list the options are the placeholder, then one option per job in order with value = title and text `title - location`; otherwise the select is unchanged |
| Login.SignInCheck | login.js:69-77 | the sign-in chain on the trimmed username and the raw password; Login.SignInVerdict states each outcome |
| Login.SignUpCheck | login.js:129-148 | the sign-up chain; Login.SignUpVerdict states each outcome |
| Login.SignInVerdict | login.js:65-77 | sign-in is refused iff the username is white space only (reported first) or the untrimmed password is empty |
| Login.SignUpVerdict | login.js:124-148 | sign-up passes iff username and email are not blank and the password has at least 8 characters; each refusal names the first failing check |
| Login.WithSession | login.js:87-91 | a successful reply adds exactly the five session keys and keeps every other key |
| Login.WithSessionReadBack | login.js:87-91 | each session value reads back from the store |
| Login.LoginPage.constructor | login.js:3-4 | the page starts in sign-in mode, not loading |
| Login.LoginPage.ShowSignUp | login.js:32-35 | sign-up mode is set |
| Login.LoginPage.ShowSignIn | login.js:38-41 | sign-in mode is set |
| Login.LoginPage.ShowLoading | login.js:44-49 | `loading` is set and the chosen button disabled under the text, the other untouched |
| Login.LoginPage.HideLoading | login.js:52-57 | `loading` is cleared and the chosen button enabled under the text, the other untouched |
| Login.LoginPage.SubmitSignIn | login.js:60-83 | nothing while loading; a failing check toasts and sends nothing; otherwise the trimmed username and raw password are sent under `Loading...` |
| Login.LoginPage.SubmitSignUp | login.js:119-154 | nothing while loading; a failing check toasts and sends nothing; otherwise the trimmed username and email and raw password are sent under `Loading...` |
| Login.LoginPage.StoreSession | login.js:87-91 | the five `setItem` calls leave the store with the session added |
| Login.LoginPage.Receive | login.js:81-115 | success stores the session, gives the button back and captures `redirectAfterLogin` for the timer; a `success:false` body changes nothing and leaves the page loading; a thrown error toasts and gives the button back |
| Login.LoginPage.FireRedirect | login.js:100-110 | a non-empty captured target is removed and followed; otherwise the page goes to `index.html` and the store is untouched |
| App.IsLoggedIn | app.js:233-235 | logged in iff `isLoggedIn` is `"true"` and a non-empty token is stored |
| App.Logout | app.js:237-260 | the API is called iff a non-empty token is stored; whatever happens, exactly the five auth keys are removed, and the toast is shown |
| App.AfterCardClick | app.js:462-482 | the store after a job-card click; App.CardClickEffect states what changes |
| App.CardClickEffect | app.js:462-482 | a click always stores the job; logged out, it also sets `redirectAfterLogin`; logged in, that key keeps its value; the login state and every other key are unchanged |
| App.HandleJobCardClick | app.js:462-482 | the store is as `AfterCardClick` says; logged in, the page goes to the application form; otherwise it goes to `login.html` with the info toast |
| App.IsHomePage | app.js:339-340 | the page path ends in `index.html` or `/` |
| App.DisplayedJobs | app.js:341 | the jobs that get cards; App.DisplayedJobsPrefix states which |
| App.DisplayedJobsPrefix | app.js:339-341 | the home page shows the first min(6, n) jobs in order, other pages all of them |
| App.SearchAction | app.js:407-411 | a keyword that is empty or white space only reloads all jobs; any other is sent as typed |
| App.LoadErrorText | app.js:378-380 | the toast of a failed load; App.FetchErrorNamed states both cases |
| App.FetchErrorNamed | app.js:378-380 | an error message containing `fetch` anywhere gets the backend-down toast, and any other message is shown after `❌ Error: ` |
| App.JobBoard.constructor | app.js:2 | no jobs yet |
| App.JobBoard.BeginLoad | app.js:325 | the loading placeholder is shown |
| App.JobBoard.BeginSearch | app.js:407-417 | a blank keyword reloads, any other shows the searching placeholder |
| App.JobBoard.CompleteLoad | app.js:333-401 | a list replaces `jobs` and shows the page's share, or the empty notice; an unsuccessful body changes nothing; a thrown error shows the error panel and toast |
| App.JobBoard.CompleteSearch | app.js:419-456 | the matches are shown, or the no-match notice, without touching `jobs`; a thrown error shows the failure notice and toast |
| App.IntermediateCounterLabel | app.js:279-284 | the label mid-animation; App.IntermediateLabelReadsBack states its form |
| App.IntermediateLabelReadsBack | app.js:279-284 | the label is a numeral followed by `K` and the suffix for values of 1000 or more, reading back as floor(v/1000); below 1000 it is the value itself, in at most three digits, followed by the suffix |
| App.FinalCounterLabel | app.js:287-296 | the final label with the branches in the order the code tests them; App.FiftyKUnreachable shows its dead branch |
| App.FiftyKUnreachable | app.js:288-293 | as written, every target of 50000 or more gets `10K+` |
| App.FinalCounterLabelIntended | app.js:287-296 | the final label with the largest threshold tested first; App.FinalCounterLabelBands states its bands |
| App.FinalCounterLabelBands | app.js:287-296 | the corrected label gives `50K+`, `10K+` and `5K+` to their bands and `target + suffix` below 5000, agreeing with the code below 50000 |
| App.FiftyKCounterexample | app.js:288-293 | target 60000 gets `10K+` as written and `50K+` as corrected |
| AuthProtocol.LogoutKeysAreSessionKeys | app.js:247-251 | `logout` removes exactly the keys a sign-in writes |
| AuthProtocol.SessionLogsIn | login.js:87-91 | after a sign-in the visitor is logged in iff the token is non-empty |
| AuthProtocol.LogoutUndoesSession | app.js:247-251 | logging out after a sign-in leaves the store as logging out before it |
| AuthProtocol.LogoutLogsOut | app.js:237-251 | after `logout` nobody is logged in, and `selectedJob` and `redirectAfterLogin` survive |
| AuthProtocol.ClickThenSignIn | app.js:462-482 | after a logged-out click and a sign-in, the captured target is the application form; after the redirect the visitor is logged in iff the token is non-empty, and the chosen job is still stored |

## Left out

- Rendering: markup templates, classes other than `active`/`error`/`loading`, the mobile menu, the marquee, Swiper, scrolling, focus, and the confetti, which uses `Math.random` and `Date.now`.
- Toast and alert rendering, including the Toastify-or-alert fallback. Each toast or alert is a returned value.
- `js/api.js` is not part of this model. Every API call is the input `Reply`: either a parsed body with `success`, `message`, `error` and `data`, or a thrown error's message. An absent `message` or `error` is the empty string, since both are falsy in `||`.
- Timers and navigation. Each `setTimeout` callback is either its own method (`JobApplicationForm.Wizard.CompleteSubmit`, `Login.LoginPage.FireRedirect`) or the target page returned by the method that schedules it. The page reload after `logout`, the nested toast before the wizard's redirect, and the `requestAnimationFrame` loop are not modelled.
- Floating-point animation: `target / 125` and the growing `current`. `App.IntermediateCounterLabel` takes the floored display value as its input, and `App.FinalCounterLabel` takes `parseInt(data-target)` as an integer. A `NaN` target is not modelled.
- `JSON.stringify` of the clicked job is an opaque string. The prefill of `positionAppliedFor` from `selectedJob` on page load (js/job-form-handler.js:271-283) parses JSON and is not modelled.
- The wizard of `js/job-form-handler.js` holds the form's controls as the sequence `page`. The visitor's typing is the method `JobFormHandler.Wizard.Enter`, which stands for the browser and not for the script.
- JobFormHandler.FormValue: `FormData` holds only the form's successful controls. Disabled controls, unchecked checkboxes and radio buttons, and the file contents of file inputs are not modelled: every control counts, with its value as a string.
- The wizard of `js/job-form-handler.js` has no in-flight flag. The only guard against a second submission is the disabled submit button, which `JobFormHandler.Wizard.BeginSubmit` takes as a precondition, because the browser raises no `submit` event from a disabled button. Its submit is not restricted to the last section: the code validates whatever section is on screen.
- Forms.ContactForm.Submit and Forms.ApplicationForm.Submit: the handlers in `js/forms.js` have no guard of their own against a second submission. Both methods take an enabled submit button as a precondition, because the browser raises no `submit` event from a disabled button. Submitting by other means while a request is out, for example a script calling `requestSubmit`, is not modelled.
- TypeErrors from missing DOM elements, such as an absent `#section<n>` in `validateSection`, or a successful body without `data`, are not modelled.
- `Login.SignUpVerdict`: the length check counts characters of the Dafny string. JavaScript's `password.length` counts UTF-16 code units, so the two differ for characters outside the Basic Multilingual Plane.
- `Text.IsSpace` is JavaScript's fixed WhiteSpace and LineTerminator set. Unicode categories are not computed.
- Regular expressions are not interpreted. The two patterns are written as explicit predicates (`Text.MatchesEmail`, `Text.IsIndianMobile`), and the email predicate is proved equal to its shape.
- The card markup for each job, and the `jobCard` click handler wiring, are not modelled. The click itself is `App.HandleJobCardClick`.

## Findings

| source | as written | input that shows it | evidently intended | confidence | as-written member | corrected member |
|---|---|---|---|---|---|---|
| app.js:288-293 | the `>= 50000` branch is tested after `>= 10000`, so it can never be taken | a counter with `data-target` 60000 ends on `10K+` | targets of 50000 and more end on `50K+` (largest threshold first) | not executed; the intent is read from the dead branch | App.FiftyKUnreachable, App.FiftyKCounterexample | App.FinalCounterLabelBands |
