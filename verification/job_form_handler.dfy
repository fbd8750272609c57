/**
 * The five-section application wizard of js/job-form-handler.js: a step
 * counter guarded by a fail-fast section validator, the section and progress
 * display that follows it, and the submission that maps the form's controls
 * onto the application record.
 */
module JobFormHandler {
  import opened Wrappers
  import opened Text
  import opened Boundary
  import Dom

  const TotalSteps: int := 5

  const EmailMessage := "Please enter a valid email address"
  const PhoneMessage := "Please enter a valid 10-digit Indian phone number"
  const SubmittingLabel := "<i class=\"ri-loader-4-line\"></i> Submitting..."
  const SubmittedMessage := "🎉 Congratulations! Application submitted successfully!"
  const RejectedFallback := "Failed to submit application"
  const ErrorFallback := "Failed to submit application. Please try again."

  /**
   * A form control as the handler sees it: the section it sits in, its `name`
   * and `type` attributes, whether it carries `required`, the text of the
   * element before it (its label, empty when there is none), its value, and
   * the value `form.reset()` restores.
   */
  datatype Field = Field(section: int, name: string, kind: string, required: bool,
                         caption: string, value: string, initial: string)

  /** The first rejected field of a section: its position among the section's required fields and the message shown. */
  datatype Failure = Failure(index: nat, message: string)

  // ---------------------------------------------------------------- validation

  /** `section<n>.querySelectorAll('[required]')`: the required controls of section n, in document order. */
  function RequiredFields(page: seq<Field>, n: int): seq<Field>
  {
    if page == [] then []
    else (if page[0].section == n && page[0].required then [page[0]] else []) + RequiredFields(page[1..], n)
  }

  /** Exactly the required controls of the section are examined. */
  lemma {:induction false} RequiredFieldsMembers(page: seq<Field>, n: int)
    ensures forall f :: f in RequiredFields(page, n) <==> f in page && f.section == n && f.required
  {
    if page != [] {
      RequiredFieldsMembers(page[1..], n);
      assert page == [page[0]] + page[1..];
    }
  }

  /** The checks one required field goes through, in order: presence, email shape, phone number. */
  function FieldError(f: Field): Option<string>
  {
    if Blank(f.value) then Some("Please fill in: " + OrElse(f.caption, "required field"))
    else if f.kind == "email" && !MatchesEmail(f.value) then Some(EmailMessage)
    else if f.name == "phone" && !IsIndianMobile(StripPhoneSeparators(f.value)) then Some(PhoneMessage)
    else None
  }

  /** A field is accepted exactly when it is filled in and, by its type and name, email- and phone-shaped. */
  lemma FieldErrorMeaning(f: Field)
    ensures FieldError(f).None? <==>
      && !Blank(f.value)
      && (f.kind == "email" ==> EmailShape(f.value))
      && (f.name == "phone" ==> IsIndianMobile(StripPhoneSeparators(f.value)))
    ensures Blank(f.value) ==> FieldError(f) == Some("Please fill in: " + OrElse(f.caption, "required field"))
  {
    MatchesEmailIffShape(f.value);
  }

  /** The email check sees the untrimmed value: a leading space passes the presence check and then fails. */
  lemma UntrimmedEmailRejected(caption: string, initial: string)
    ensures FieldError(Field(1, "email", "email", true, caption, " a@b.c", initial)) == Some(EmailMessage)
  {
    EmailExamples();
    assert !IsSpace(" a@b.c"[1]);
    BlankIffAllSpace(" a@b.c");
  }

  /** The verdict of each field, in order. */
  function Errors(fields: seq<Field>): (r: seq<Option<string>>)
    ensures |r| == |fields|
    ensures forall i :: 0 <= i < |fields| ==> r[i] == FieldError(fields[i])
  {
    seq(|fields|, i requires 0 <= i < |fields| => FieldError(fields[i]))
  }

  /** The first rejection in a list of verdicts, or none. */
  function FirstError(errors: seq<Option<string>>): (r: Option<Failure>)
    ensures r.None? <==> forall i :: 0 <= i < |errors| ==> errors[i].None?
    ensures r.Some? ==>
      && r.value.index < |errors|
      && errors[r.value.index] == Some(r.value.message)
      && forall i :: 0 <= i < r.value.index ==> errors[i].None?
  {
    if errors == [] then None
    else match errors[0]
      case Some(m) => Some(Failure(0, m))
      case None =>
        match FirstError(errors[1..])
        case None => None
        case Some(x) => Some(Failure(x.index + 1, x.message))
  }

  /** The first rejection, wherever it stands, is the one reported. */
  lemma FirstErrorAt(errors: seq<Option<string>>, i: nat)
    requires i < |errors| && errors[i].Some?
    requires forall j :: 0 <= j < i ==> errors[j].None?
    ensures FirstError(errors) == Some(Failure(i, errors[i].value))
  {
    var r := FirstError(errors);
    assert !(r.value.index < i);
  }

  /** The outcome of `validateSection`'s loop: the first field that fails, or none. */
  function FirstFailure(fields: seq<Field>): (r: Option<Failure>)
    ensures r.None? <==> forall i :: 0 <= i < |fields| ==> FieldError(fields[i]).None?
    ensures r.Some? ==>
      && r.value.index < |fields|
      && FieldError(fields[r.value.index]) == Some(r.value.message)
      && forall i :: 0 <= i < r.value.index ==> FieldError(fields[i]).None?
  {
    FirstError(Errors(fields))
  }

  /** The first control that fails, wherever it stands, is the one reported. */
  lemma FirstFailureAt(fields: seq<Field>, i: nat)
    requires i < |fields| && FieldError(fields[i]).Some?
    requires forall j :: 0 <= j < i ==> FieldError(fields[j]).None?
    ensures FirstFailure(fields) == Some(Failure(i, FieldError(fields[i]).value))
  {
    var r := FirstFailure(fields);
    assert !(r.value.index < i);
    assert !(r.value.index > i);
  }

  /** Fail-fast: the verdict is decided by the fields up to the first failure; whatever follows is never examined. */
  lemma FailFastIgnoresLaterFields(fields: seq<Field>, rest: seq<Field>)
    requires FirstFailure(fields).Some?
    ensures var k := FirstFailure(fields).value.index;
            FirstFailure(fields[..k + 1] + rest) == FirstFailure(fields)
  {
    var k := FirstFailure(fields).value.index;
    var g := fields[..k + 1] + rest;
    assert forall i :: 0 <= i <= k ==> g[i] == fields[i];
    FirstFailureAt(g, k);
  }

  predicate SectionValid(page: seq<Field>, n: int)
  {
    FirstFailure(RequiredFields(page, n)).None?
  }

  /** `validateSection(n)`: walks the section's required fields and stops at the first one that fails. */
  method ValidateSection(page: seq<Field>, n: int) returns (valid: bool, toast: Option<Toast>)
    ensures valid <==> SectionValid(page, n)
    ensures valid ==> toast == None
    ensures !valid ==> toast == Some(Toast(FirstFailure(RequiredFields(page, n)).value.message, Error))
  {
    var fields := RequiredFields(page, n);
    for i := 0 to |fields|
      invariant forall j :: 0 <= j < i ==> FieldError(fields[j]).None?
    {
      var error := FieldError(fields[i]);
      if error.Some? {
        FirstFailureAt(fields, i);
        return false, Some(Toast(error.value, Error));
      }
    }
    return true, None;
  }

  // ---------------------------------------------------------------- the record

  /** The properties of the application record sent to the API. */
  datatype RecordKey =
    | FullName | Email | Phone | Address | JobTitle | Department | ExpectedSalary
    | Qualification | Institution | YearOfPassing | PreviousCompany | Experience
    | Skills | LanguagesSpoken | FinalDate
  {
    /** The property's name in the JSON body. */
    function Name(): string
    {
      match this
      case FullName => "fullName"
      case Email => "email"
      case Phone => "phone"
      case Address => "address"
      case JobTitle => "jobTitle"
      case Department => "department"
      case ExpectedSalary => "expectedSalary"
      case Qualification => "qualification"
      case Institution => "institution"
      case YearOfPassing => "yearOfPassing"
      case PreviousCompany => "previousCompany"
      case Experience => "experience"
      case Skills => "skills"
      case LanguagesSpoken => "languagesSpoken"
      case FinalDate => "finalDate"
    }

    /** The name of the form control the property's value is read from. */
    function Source(): string
    {
      match this
      case Address => "currentAddress"
      case JobTitle => "positionAppliedFor"
      case Department => "jobType"
      case Qualification => "degreeType"
      case Institution => "schoolUniversity"
      case YearOfPassing => "graduationYear"
      case PreviousCompany => "mostRecentEmployer"
      case Experience => "keyResponsibilities"
      case Skills => "keySkills"
      case _ => Name()
    }

    /** The properties whose control carries a different name. */
    predicate Renamed()
    {
      Address? || JobTitle? || Department? || Qualification? || Institution? || YearOfPassing?
      || PreviousCompany? || Experience? || Skills?
    }
  }

  const AllKeys: set<RecordKey> :=
    {FullName, Email, Phone, Address, JobTitle, Department, ExpectedSalary, Qualification,
     Institution, YearOfPassing, PreviousCompany, Experience, Skills, LanguagesSpoken, FinalDate}

  /** The application record: each property's submitted value, `null` when no control has the name. */
  type Record = map<RecordKey, Option<string>>

  /** The record has every property: no value of the datatype is missing from the key set. */
  lemma AllKeysComplete(k: RecordKey)
    ensures k in AllKeys
  {
    match k
    case FullName =>
    case Email =>
    case Phone =>
    case Address =>
    case JobTitle =>
    case Department =>
    case ExpectedSalary =>
    case Qualification =>
    case Institution =>
    case YearOfPassing =>
    case PreviousCompany =>
    case Experience =>
    case Skills =>
    case LanguagesSpoken =>
    case FinalDate =>
  }

  /** Distinct properties read distinct controls, so no submitted value is duplicated under two names. */
  lemma SourceInjective(a: RecordKey, b: RecordKey)
    requires a != b
    ensures a.Source() != b.Source()
  {
  }

  /** `formData.get(name)`: the value of the first control carrying that name, `null` when none does. */
  function FormValue(page: seq<Field>, name: string): Option<string>
  {
    if page == [] then None
    else if page[0].name == name then Some(page[0].value)
    else FormValue(page[1..], name)
  }

  /** `formData.get` reports the first control of the name, and `null` only when no control has it. */
  lemma {:induction false} FormValueFirst(page: seq<Field>, name: string)
    ensures FormValue(page, name).None? <==> forall i :: 0 <= i < |page| ==> page[i].name != name
    ensures FormValue(page, name).Some? ==>
      exists i :: 0 <= i < |page| && page[i].name == name && page[i].value == FormValue(page, name).value
                  && forall j :: 0 <= j < i ==> page[j].name != name
  {
    if page != [] && page[0].name != name {
      FormValueFirst(page[1..], name);
      var r := FormValue(page, name);
      if r.Some? {
        var i :| 0 <= i < |page| - 1 && page[1..][i].name == name && page[1..][i].value == r.value
                 && forall j :: 0 <= j < i ==> page[1..][j].name != name;
        assert page[i + 1].name == name && page[i + 1].value == r.value;
        assert forall j :: 0 <= j < i + 1 ==> page[j].name != name;
      }
    }
  }

  /** The record `handleFormSubmit` assembles from the controls of every section. */
  function BuildRecord(page: seq<Field>): (r: Record)
    ensures forall k :: k in r <==> k in AllKeys
  {
    map k | k in AllKeys :: FormValue(page, k.Source())
  }

  /** Each property holds the value `formData.get` gives for its source control. */
  lemma RecordValue(page: seq<Field>, k: RecordKey)
    ensures k in BuildRecord(page) && BuildRecord(page)[k] == FormValue(page, k.Source())
  {
    AllKeysComplete(k);
  }

  /** The nine properties whose control carries a different name, and the control each one reads. */
  lemma RenamedSources(k: RecordKey)
    ensures k.Renamed() <==> k.Source() != k.Name()
    ensures k == Address ==> k.Source() == "currentAddress"
    ensures k == JobTitle ==> k.Source() == "positionAppliedFor"
    ensures k == Department ==> k.Source() == "jobType"
    ensures k == Qualification ==> k.Source() == "degreeType"
    ensures k == Institution ==> k.Source() == "schoolUniversity"
    ensures k == YearOfPassing ==> k.Source() == "graduationYear"
    ensures k == PreviousCompany ==> k.Source() == "mostRecentEmployer"
    ensures k == Experience ==> k.Source() == "keyResponsibilities"
    ensures k == Skills ==> k.Source() == "keySkills"
  {
  }

  /** Every other property takes the value of the control of its own name. */
  lemma RecordKeepsOtherNames(page: seq<Field>, k: RecordKey)
    requires !k.Renamed()
    ensures BuildRecord(page)[k] == FormValue(page, k.Name())
  {
    RecordValue(page, k);
  }

  /** The message shown when the submission does not succeed. */
  function FailureText(reply: Reply<()>): (text: string)
    requires !reply.Succeeded()
    ensures text != []
    ensures reply.Answered? ==> text == OrElse(reply.message, RejectedFallback)
    ensures reply.Thrown? ==> text == OrElse(reply.reason, ErrorFallback)
  {
    match reply
    case Answered(_, message, _, _) => OrElse(OrElse(message, RejectedFallback), ErrorFallback)
    case Thrown(reason) => OrElse(reason, ErrorFallback)
  }

  /** The controls after `form.reset()`: each value back to its default. */
  function ResetFields(page: seq<Field>): (r: seq<Field>)
    ensures |r| == |page|
  {
    seq(|page|, i requires 0 <= i < |page| => page[i].(value := page[i].initial))
  }

  /** A reset restores every control's default value and changes nothing else about it. */
  lemma ResetFieldsMeaning(page: seq<Field>, i: int)
    requires 0 <= i < |page|
    ensures var f := ResetFields(page)[i];
      && f.value == page[i].initial && f.initial == page[i].initial
      && f.section == page[i].section && f.name == page[i].name && f.kind == page[i].kind
      && f.required == page[i].required && f.caption == page[i].caption
  {
  }

  /**
   * A reset keeps which controls a section requires, so after it a section is
   * validated on the defaults of its own required controls.
   */
  lemma {:induction false} ResetRequiredFields(page: seq<Field>, n: int)
    ensures RequiredFields(ResetFields(page), n) == ResetFields(RequiredFields(page, n))
  {
    if page != [] {
      ResetRequiredFields(page[1..], n);
      var r := ResetFields(page);
      assert r[1..] == ResetFields(page[1..]);
      var head := if page[0].section == n && page[0].required then [page[0]] else [];
      var tail := RequiredFields(page[1..], n);
      assert ResetFields(head + tail) == ResetFields(head) + ResetFields(tail);
    }
  }

  // ---------------------------------------------------------------- the wizard

  class Wizard {
    /** The section on screen, 1 to 5. */
    var currentStep: int
    /** The controls of `#applicationForm`, in document order. */
    var page: seq<Field>
    /** The `active` mark of each `.form-section`; element k has id `section<k+1>`. */
    const sections: array<bool>
    /** The `active` mark of each `.progress-step`. */
    const progress: array<bool>
    var prevShown: bool
    var navigationShown: bool
    var actionsShown: bool
    var submitDisabled: bool
    var submitLabel: string
    /** The label saved as `originalText` by a submission still awaiting its reply. */
    var pending: Option<string>

    /** What `showSection(n)` leaves on screen. */
    ghost predicate Shows(n: int)
      reads this`currentStep, this`prevShown, this`navigationShown, this`actionsShown, sections, progress
    {
      && (forall k :: 0 <= k < sections.Length ==> sections[k] == (k + 1 == n))
      && (forall k :: 0 <= k < progress.Length ==> progress[k] == (k + 1 <= currentStep))
      && prevShown == (n != 1)
      && navigationShown == (n != TotalSteps)
      && actionsShown == (n == TotalSteps)
    }

    ghost predicate Valid()
      reads this, sections, progress
    {
      && 1 <= currentStep <= TotalSteps
      && sections != progress
      && Shows(currentStep)
      && (pending.Some? ==> submitDisabled)
    }

    /** Page load: `showSection(1)` with `currentStep = 1`, over the form as the page delivers it. */
    constructor (sectionCount: nat, stepCount: nat, form: seq<Field>, buttonText: string)
      ensures Valid() && fresh(sections) && fresh(progress)
      ensures sections.Length == sectionCount && progress.Length == stepCount && page == form
      ensures currentStep == 1 && !submitDisabled && submitLabel == buttonText && pending == None
    {
      currentStep := 1;
      page := form;
      sections := new bool[sectionCount];
      progress := new bool[stepCount];
      submitDisabled := false;
      submitLabel := buttonText;
      pending := None;
      new;
      ShowSection(1);
    }

    /** The visitor types `value` into control `i`. */
    method Enter(i: nat, value: string)
      requires i < |page|
      modifies this`page
      ensures page == old(page)[i := old(page)[i].(value := value)]
    {
      page := page[i := page[i].(value := value)];
    }

    /** `showSection(n)`, with `updateProgressIndicator()` reading `currentStep`. */
    method ShowSection(n: int)
      requires sections != progress
      modifies this`prevShown, this`navigationShown, this`actionsShown, sections, progress
      ensures Shows(n)
    {
      Dom.ActivateOnly(sections, n);
      prevShown := n != 1;
      if n == TotalSteps {
        navigationShown, actionsShown := false, true;
      } else {
        navigationShown, actionsShown := true, false;
      }
      Dom.ActivateThrough(progress, currentStep);
    }

    /**
     * `nextSection()`: advance one section when the current one validates and
     * is not the last; a section that does not validate names its first
     * failing control in the toast.
     */
    method NextSection() returns (toast: Option<Toast>)
      requires Valid()
      modifies this`currentStep, this`prevShown, this`navigationShown, this`actionsShown, sections, progress
      ensures Valid()
      ensures currentStep == if SectionValid(page, old(currentStep)) && old(currentStep) < TotalSteps
                             then old(currentStep) + 1 else old(currentStep)
      ensures toast == if SectionValid(page, old(currentStep)) then None
                       else Some(Toast(FirstFailure(RequiredFields(page, old(currentStep))).value.message, Error))
    {
      var form, n := page, currentStep;
      var valid;
      valid, toast := ValidateSection(form, n);
      if valid && n < TotalSteps {
        currentStep := n + 1;
        ShowSection(n + 1);
        assert page == form && currentStep == n + 1 && Shows(currentStep);
      }
    }

    /** `prevSection()`: step back one section, without validation, never below the first. */
    method PrevSection()
      requires Valid()
      modifies this`currentStep, this`prevShown, this`navigationShown, this`actionsShown, sections, progress
      ensures Valid()
      ensures currentStep == if old(currentStep) > 1 then old(currentStep) - 1 else old(currentStep)
    {
      if currentStep > 1 {
        currentStep := currentStep - 1;
        ShowSection(currentStep);
      }
    }

    /**
     * The synchronous part of `handleFormSubmit`: validate the section on
     * screen, then disable the button and hand the record built from the
     * whole form to the API. The browser raises `submit` only while the
     * submit button is enabled.
     */
    method BeginSubmit() returns (toast: Option<Toast>, record: Option<Record>)
      requires Valid() && !submitDisabled
      modifies this`submitDisabled, this`submitLabel, this`pending
      ensures Valid()
      ensures record.Some? <==> SectionValid(page, currentStep)
      ensures record.Some? ==> record.value == BuildRecord(page) && toast == None
                               && submitDisabled && submitLabel == SubmittingLabel && pending == Some(old(submitLabel))
      ensures record.None? ==>
        && toast == Some(Toast(FirstFailure(RequiredFields(page, currentStep)).value.message, Error))
        && !submitDisabled && submitLabel == old(submitLabel) && pending == old(pending)
    {
      var form, n := page, currentStep;
      var valid;
      valid, toast := ValidateSection(form, n);
      if !valid {
        return toast, None;
      }
      pending := Some(submitLabel);
      submitDisabled := true;
      submitLabel := SubmittingLabel;
      assert Valid() && page == form && currentStep == n;
      record := Some(BuildRecord(form));
    }

    /**
     * The continuation of `handleFormSubmit` once the API settles: on success
     * the form is reset and the wizard is back at the first section (the
     * page then moves to `index.html`); on failure an error toast and the
     * button restored, the section and the values kept.
     */
    method CompleteSubmit(reply: Reply<()>) returns (toast: Toast, redirect: Option<string>)
      requires Valid() && pending.Some?
      modifies this, sections, progress
      ensures Valid() && pending == None
      ensures reply.Succeeded() ==>
        && page == ResetFields(old(page))
        && currentStep == 1 && submitDisabled && submitLabel == old(submitLabel)
        && toast == Toast(SubmittedMessage, Success) && redirect == Some("index.html")
      ensures !reply.Succeeded() ==>
        && page == old(page)
        && currentStep == old(currentStep) && !submitDisabled && submitLabel == old(pending).value
        && toast == Toast(FailureText(reply), Error) && redirect == None
    {
      if reply.Succeeded() {
        page := ResetFields(page);
        currentStep := 1;
        ShowSection(1);
        pending := None;
        return Toast(SubmittedMessage, Success), Some("index.html");
      }
      toast := Toast(FailureText(reply), Error);
      submitDisabled := false;
      submitLabel := pending.value;
      pending := None;
      redirect := None;
    }
  }
}
