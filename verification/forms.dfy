/**
 * The two single-page forms of js/forms.js (contact and job application):
 * their required-field, phone and email checks on trimmed values, the submit
 * button held while the request is out and given back in either case, and
 * the job-title drop-down built from the jobs list.
 */
module Forms {
  import opened Wrappers
  import opened Text
  import opened Boundary

  const RequiredMessage := "Please fill in all required fields"
  const PhoneMessage := "Please enter a valid 10-digit phone number"
  const EmailMessage := "Please enter a valid email address"

  const SendingText := "Sending..."
  const ContactSent := "Message sent successfully!"
  const ContactRejected := "Failed to send message"
  const ContactRetry := "Failed to send message. Please try again."

  const SubmittingText := "Submitting..."
  const ApplicationSent := "Application submitted successfully!"
  const ApplicationRejected := "Failed to submit application"
  const ApplicationRetry := "Failed to submit application. Please try again."
  const AfterApplication := "jobs.html"

  /** The contact form's controls, as typed. */
  datatype ContactInput = ContactInput(name: string, email: string, phone: string, subject: string, message: string)

  /** The application form's controls, as typed. */
  datatype ApplicationInput = ApplicationInput(fullName: string, email: string, phone: string, jobTitle: string,
                                               experience: string, qualification: string, coverLetter: string)

  /** The `formData` object of the contact handler: every value trimmed. */
  function ContactData(v: ContactInput): ContactInput
  {
    ContactInput(Trim(v.name), Trim(v.email), Trim(v.phone), Trim(v.subject), Trim(v.message))
  }

  /** The `formData` object of the application handler: every value trimmed. */
  function ApplicationData(v: ApplicationInput): ApplicationInput
  {
    ApplicationInput(Trim(v.fullName), Trim(v.email), Trim(v.phone), Trim(v.jobTitle),
                     Trim(v.experience), Trim(v.qualification), Trim(v.coverLetter))
  }

  /** The contact handler's only check, on the trimmed data: name, email, subject and message must be non-empty. */
  function ContactCheck(d: ContactInput): Outcome
  {
    if d.name == [] || d.email == [] || d.subject == [] || d.message == [] then Fail(RequiredMessage)
    else Pass
  }

  /** The application handler's chain, on the trimmed data: required fields, then phone, then email. */
  function ApplicationCheck(d: ApplicationInput): Outcome
  {
    if d.fullName == [] || d.email == [] || d.phone == [] || d.jobTitle == [] then Fail(RequiredMessage)
    else if !IsIndianMobile(d.phone) then Fail(PhoneMessage)
    else if !MatchesEmail(d.email) then Fail(EmailMessage)
    else Pass
  }

  /**
   * A contact message is refused exactly when one of name, email, subject or
   * message is made of white space only; the phone number never matters.
   */
  lemma ContactRejection(v: ContactInput, phone: string)
    ensures ContactCheck(ContactData(v)).Fail? <==>
      (forall k :: 0 <= k < |v.name| ==> IsSpace(v.name[k])) ||
      (forall k :: 0 <= k < |v.email| ==> IsSpace(v.email[k])) ||
      (forall k :: 0 <= k < |v.subject| ==> IsSpace(v.subject[k])) ||
      (forall k :: 0 <= k < |v.message| ==> IsSpace(v.message[k]))
    ensures ContactCheck(ContactData(v)).Fail? ==> ContactCheck(ContactData(v)).message == RequiredMessage
    ensures ContactCheck(ContactData(v.(phone := phone))) == ContactCheck(ContactData(v))
  {
    BlankIffAllSpace(v.name);
    BlankIffAllSpace(v.email);
    BlankIffAllSpace(v.subject);
    BlankIffAllSpace(v.message);
  }

  /**
   * On the trimmed data, the application is accepted exactly when the four
   * required values are present, the phone is a bare Indian mobile number and
   * the email has the `x@y.z` shape; the first check that fails names the
   * message.
   */
  lemma ApplicationVerdict(d: ApplicationInput)
    ensures var present := d.fullName != [] && d.email != [] && d.phone != [] && d.jobTitle != [];
      var r := ApplicationCheck(d);
      && (r == Pass <==> present && IsIndianMobile(d.phone) && EmailShape(d.email))
      && (r == Fail(RequiredMessage) <==> !present)
      && (r == Fail(PhoneMessage) <==> present && !IsIndianMobile(d.phone))
      && (r == Fail(EmailMessage) <==> present && IsIndianMobile(d.phone) && !EmailShape(d.email))
  {
    MatchesEmailIffShape(d.email);
  }

  /** Each value is trimmed before it is checked, so a value of white space alone counts as missing. */
  lemma ApplicationDataPresence(v: ApplicationInput)
    ensures var d := ApplicationData(v);
      && (d.fullName == [] <==> forall k :: 0 <= k < |v.fullName| ==> IsSpace(v.fullName[k]))
      && (d.email == [] <==> forall k :: 0 <= k < |v.email| ==> IsSpace(v.email[k]))
      && (d.phone == [] <==> forall k :: 0 <= k < |v.phone| ==> IsSpace(v.phone[k]))
      && (d.jobTitle == [] <==> forall k :: 0 <= k < |v.jobTitle| ==> IsSpace(v.jobTitle[k]))
  {
    BlankIffAllSpace(v.fullName);
    BlankIffAllSpace(v.email);
    BlankIffAllSpace(v.phone);
    BlankIffAllSpace(v.jobTitle);
  }

  /** Unlike the wizard, this form does not strip separators: a spaced number is refused. */
  lemma SpacedPhoneRefused(v: ApplicationInput)
    requires !Blank(v.fullName) && !Blank(v.email) && !Blank(v.jobTitle)
    requires Trim(v.phone) == "98765 43210"
    ensures ApplicationCheck(ApplicationData(v)) == Fail(PhoneMessage)
  {
    UnstrippedSeparatedPhoneFails();
  }

  /**
   * `failure.message || retry` where `failure` is what the handler's catch
   * receives: the Error thrown for an unsuccessful body (`response.error ||
   * rejected`), or whatever the API wrapper threw.
   */
  function FailureText(reply: Reply<()>, rejected: string, retry: string): (text: string)
    requires !reply.Succeeded() && rejected != [] && retry != []
    ensures text != []
    ensures reply.Answered? ==> text == OrElse(reply.error, rejected)
    ensures reply.Thrown? ==> text == OrElse(reply.reason, retry)
  {
    match reply
    case Answered(_, _, error, _) => OrElse(OrElse(error, rejected), retry)
    case Thrown(reason) => OrElse(reason, retry)
  }

  /** The submit button, whose `disabled` and `textContent` the handlers set. */
  class SubmitButton {
    var disabled: bool
    var text: string

    constructor (text: string)
      ensures !disabled && this.text == text
    {
      disabled := false;
      this.text := text;
    }

    /** Disables the button under `busyText`, answering the `originalText` to give back. */
    method Hold(busyText: string) returns (originalText: string)
      modifies this
      ensures disabled && text == busyText && originalText == old(text)
    {
      originalText := text;
      disabled := true;
      text := busyText;
    }

    /** The `finally` block: enabled again, under its original text. */
    method Release(originalText: string)
      modifies this
      ensures !disabled && text == originalText
    {
      disabled := false;
      text := originalText;
    }
  }

  /** The contact form: what is typed, what a reset restores, the button, and the request in flight. */
  class ContactForm {
    var values: ContactInput
    const defaults: ContactInput
    const button: SubmitButton
    /** The `originalText` held by the handler while its request is awaited. */
    var pending: Option<string>

    ghost predicate Valid()
      reads this, button
    {
      pending.Some? <==> button.disabled
    }

    constructor (defaults: ContactInput, buttonText: string)
      ensures Valid() && values == defaults && this.defaults == defaults && pending == None
      ensures button.text == buttonText && fresh(button)
    {
      values := defaults;
      this.defaults := defaults;
      button := new SubmitButton(buttonText);
      pending := None;
    }

    /**
     * The synchronous part of the submit handler: refuse with a toast, or
     * hold the button and send the trimmed data. The browser does not submit
     * while the submit button is disabled.
     */
    method Submit() returns (toast: Option<Toast>, request: Option<ContactInput>)
      requires Valid() && !button.disabled
      modifies this`pending, button
      ensures Valid()
      ensures var data := ContactData(values);
        match ContactCheck(data)
        case Fail(message) =>
          && toast == Some(Toast(message, Error)) && request == None
          && pending == None && button.text == old(button.text)
        case Pass =>
          && toast == None && request == Some(data)
          && button.text == SendingText && pending == Some(old(button.text))
    {
      var data := ContactData(values);
      var verdict := ContactCheck(data);
      ghost var before := this.values;
      if verdict.Fail? {
        return Some(Toast(verdict.message, Error)), None;
      }
      var originalText := button.Hold(SendingText);
      pending := Some(originalText);
      assert values == before;
      return None, Some(data);
    }

    /** The awaited reply settles: a toast, a reset on success only, and the button given back either way. */
    method Complete(reply: Reply<()>) returns (toast: Toast)
      requires Valid() && pending.Some?
      modifies this`values, this`pending, button
      ensures Valid() && pending == None && !button.disabled && button.text == old(pending).value
      ensures reply.Succeeded() ==> values == defaults && toast == Toast(OrElse(reply.message, ContactSent), Success)
      ensures !reply.Succeeded() ==>
        values == old(values) && toast == Toast(FailureText(reply, ContactRejected, ContactRetry), Error)
    {
      if reply.Succeeded() {
        toast := Toast(OrElse(reply.message, ContactSent), Success);
        values := defaults;
      } else {
        toast := Toast(FailureText(reply, ContactRejected, ContactRetry), Error);
      }
      button.Release(pending.value);
      pending := None;
    }
  }

  /** The job application form of the single-page variant. */
  class ApplicationForm {
    var values: ApplicationInput
    const defaults: ApplicationInput
    const button: SubmitButton
    var pending: Option<string>

    ghost predicate Valid()
      reads this, button
    {
      pending.Some? <==> button.disabled
    }

    constructor (defaults: ApplicationInput, buttonText: string)
      ensures Valid() && values == defaults && this.defaults == defaults && pending == None
      ensures button.text == buttonText && fresh(button)
    {
      values := defaults;
      this.defaults := defaults;
      button := new SubmitButton(buttonText);
      pending := None;
    }

    /** The synchronous part of the submit handler: the three checks in order, then hold the button and send. */
    method Submit() returns (toast: Option<Toast>, request: Option<ApplicationInput>)
      requires Valid() && !button.disabled
      modifies this`pending, button
      ensures Valid()
      ensures var data := ApplicationData(values);
        match ApplicationCheck(data)
        case Fail(message) =>
          && toast == Some(Toast(message, Error)) && request == None
          && pending == None && button.text == old(button.text)
        case Pass =>
          && toast == None && request == Some(data)
          && button.text == SubmittingText && pending == Some(old(button.text))
    {
      var data := ApplicationData(values);
      var verdict := ApplicationCheck(data);
      ghost var before := this.values;
      if verdict.Fail? {
        return Some(Toast(verdict.message, Error)), None;
      }
      var originalText := button.Hold(SubmittingText);
      pending := Some(originalText);
      assert values == before;
      return None, Some(data);
    }

    /** The reply settles; on success the page moves to the jobs list two seconds later. */
    method Complete(reply: Reply<()>) returns (toast: Toast, redirect: Option<string>)
      requires Valid() && pending.Some?
      modifies this`values, this`pending, button
      ensures Valid() && pending == None && !button.disabled && button.text == old(pending).value
      ensures reply.Succeeded() ==>
        && values == defaults && redirect == Some(AfterApplication)
        && toast == Toast(OrElse(reply.message, ApplicationSent), Success)
      ensures !reply.Succeeded() ==>
        && values == old(values) && redirect == None
        && toast == Toast(FailureText(reply, ApplicationRejected, ApplicationRetry), Error)
    {
      if reply.Succeeded() {
        toast := Toast(OrElse(reply.message, ApplicationSent), Success);
        values := defaults;
        redirect := Some(AfterApplication);
      } else {
        toast := Toast(FailureText(reply, ApplicationRejected, ApplicationRetry), Error);
        redirect := None;
      }
      button.Release(pending.value);
      pending := None;
    }
  }

  // ---------------------------------------------------------------- job titles

  /** An `<option>` of the job-title select. */
  datatype SelectOption = SelectOption(value: string, text: string)

  const Placeholder := SelectOption("", "Select a job position")

  /**
   * `populateJobTitles`: a successful reply with a job list (an empty list is
   * truthy too) replaces the options by the placeholder and one option per
   * job, in order; anything else leaves the select as it was.
   */
  method PopulateJobTitles(current: seq<SelectOption>, reply: Reply<Option<seq<Job>>>)
    returns (options: seq<SelectOption>)
    ensures !(reply.Succeeded() && reply.data.Some?) ==> options == current
    ensures reply.Succeeded() && reply.data.Some? ==>
      var jobs := reply.data.value;
      && |options| == |jobs| + 1 && options[0] == Placeholder
      && forall i :: 0 <= i < |jobs| ==>
           options[i + 1].value == jobs[i].title && options[i + 1].text == jobs[i].title + " - " + jobs[i].location
  {
    if !(reply.Succeeded() && reply.data.Some?) {
      return current;
    }
    var jobs := reply.data.value;
    options := [Placeholder];
    for i := 0 to |jobs|
      invariant |options| == i + 1 && options[0] == Placeholder
      invariant forall j :: 0 <= j < i ==>
        options[j + 1].value == jobs[j].title && options[j + 1].text == jobs[j].title + " - " + jobs[j].location
    {
      options := options + [SelectOption(jobs[i].title, jobs[i].title + " - " + jobs[i].location)];
    }
  }
}
