/**
 * The five-step application wizard of job-application-form.js: a step
 * counter guarded by an aggregate presence check that marks every empty
 * required control, a `loading` flag that keeps a second submission out, and
 * a simulated submission whose completion is a separate timer event.
 */
module JobApplicationForm {
  import opened Wrappers
  import opened Text
  import Dom

  const TotalSteps: int := 5

  const ProceedMessage := "Please fill in all required fields before proceeding."
  const SubmitBlockedMessage := "Please fill in all required fields before submitting."
  const LoadingText := "Submitting Application..."
  const SubmittedAlert := "Application submitted successfully!"
  const ThanksAlert := "Thank you for your application. We will review it and contact you soon."
  const SubmitLabel := "<i class=\"ri-send-plane-2-fill\"></i> Submit Application"

  /**
   * An input, select or textarea of the form: the step whose section holds
   * it, whether it carries `required`, its current value, the value a form
   * reset restores, and whether it carries the `error` class.
   */
  datatype Control = Control(section: int, required: bool, value: string, initial: string, error: bool)

  /** The control is among those `validateStep(step)` examines. */
  predicate Checked(c: Control, step: int)
  {
    c.section == step && c.required
  }

  /** The control does not hold step `step` back. */
  predicate Satisfied(c: Control, step: int)
  {
    Checked(c, step) ==> !Blank(c.value)
  }

  /** Every required control of the step has a non-blank value. */
  predicate StepFilled(cs: seq<Control>, step: int)
  {
    forall i :: 0 <= i < |cs| ==> Satisfied(cs[i], step)
  }

  /** `isValid` as `validateStep` accumulates it, control by control. */
  predicate Accumulated(cs: seq<Control>, step: int)
  {
    cs == [] || (Accumulated(cs[..|cs| - 1], step) && Satisfied(cs[|cs| - 1], step))
  }

  /** The flag accumulated over all controls is the step's reference validity. */
  lemma {:induction false} AccumulatedIffFilled(cs: seq<Control>, step: int)
    ensures Accumulated(cs, step) == StepFilled(cs, step)
  {
    if cs != [] {
      var init := cs[..|cs| - 1];
      AccumulatedIffFilled(init, step);
      assert forall i :: 0 <= i < |init| ==> init[i] == cs[i];
    }
  }

  /** The `error` class after `validateStep(step)` has looked at one control. */
  function Mark(c: Control, step: int): Control
  {
    if Checked(c, step) then c.(error := !Satisfied(c, step)) else c
  }

  /** All controls after `validateStep(step)`. */
  function MarkErrors(cs: seq<Control>, step: int): (r: seq<Control>)
    ensures |r| == |cs|
  {
    seq(|cs|, i requires 0 <= i < |cs| => Mark(cs[i], step))
  }

  /** All controls after `form.reset()`: each value back to its default; classes are not form state. */
  function ResetValues(cs: seq<Control>): (r: seq<Control>)
    ensures |r| == |cs|
  {
    seq(|cs|, i requires 0 <= i < |cs| => cs[i].(value := cs[i].initial))
  }

  /**
   * Marking sets `error` on exactly the blank required controls of the step,
   * clears it on the filled ones, and touches nothing else.
   */
  lemma MarkErrorsMeaning(cs: seq<Control>, step: int, i: int)
    requires 0 <= i < |cs|
    ensures var m := MarkErrors(cs, step)[i];
      && m.section == cs[i].section && m.required == cs[i].required
      && m.value == cs[i].value && m.initial == cs[i].initial
      && (Checked(cs[i], step) ==> m.error == Blank(cs[i].value))
      && (!Checked(cs[i], step) ==> m.error == cs[i].error)
  {
  }

  /** The step is filled exactly when, after marking, none of its required controls carries `error`. */
  lemma FilledIffNoErrorMarks(cs: seq<Control>, step: int)
    ensures StepFilled(cs, step) <==>
      forall i :: 0 <= i < |cs| && Checked(cs[i], step) ==> !MarkErrors(cs, step)[i].error
  {
    var m := MarkErrors(cs, step);
    if !StepFilled(cs, step) {
      var i :| 0 <= i < |cs| && !Satisfied(cs[i], step);
      assert m[i] == Mark(cs[i], step);
    }
  }

  /** Marking changes no value, so whether any step is filled is the same before and after. */
  lemma MarkKeepsFilled(cs: seq<Control>, step: int, other: int)
    ensures StepFilled(MarkErrors(cs, step), other) == StepFilled(cs, other)
  {
    var m := MarkErrors(cs, step);
    assert forall i :: 0 <= i < |cs| ==> m[i].value == cs[i].value && Checked(m[i], other) == Checked(cs[i], other);
  }

  /** Validating the same step twice leaves the same marks as validating it once. */
  lemma MarkErrorsIdempotent(cs: seq<Control>, step: int)
    ensures MarkErrors(MarkErrors(cs, step), step) == MarkErrors(cs, step)
  {
    var m := MarkErrors(cs, step);
    assert forall i :: 0 <= i < |cs| ==> Mark(m[i], step) == m[i];
  }

  /** A reset brings every value back to its default and leaves the `error` marks as they were. */
  lemma ResetMeaning(cs: seq<Control>, i: int)
    requires 0 <= i < |cs|
    ensures var r := ResetValues(cs)[i];
      && r.value == cs[i].initial && r.error == cs[i].error
      && r.section == cs[i].section && r.required == cs[i].required && r.initial == cs[i].initial
  {
  }

  /** A reset form passes step `step` exactly when every required control of it has a non-blank default. */
  lemma ResetFilled(cs: seq<Control>, step: int)
    ensures StepFilled(ResetValues(cs), step) <==>
      forall i :: 0 <= i < |cs| && Checked(cs[i], step) ==> !Blank(cs[i].initial)
  {
    var r := ResetValues(cs);
    assert forall i :: 0 <= i < |cs| ==> r[i].value == cs[i].initial && Checked(r[i], step) == Checked(cs[i], step);
  }

  /** The wizard's page state. */
  class Wizard {
    /** The step on screen, 1 to 5. */
    var currentStep: int
    /** Set from `showLoading` to `hideLoading`: a submission is in flight. */
    var loading: bool
    /** The `active` mark of each `.form-section`; element k has id `section<k+1>`. */
    const sections: array<bool>
    /** The `active` mark of each `.progress-step`. */
    const steps: array<bool>
    /** The `active` mark of each `.progress-line`. */
    const lines: array<bool>
    /** Every control of the form, in document order. */
    const controls: array<Control>
    var prevShown: bool
    var nextShown: bool
    var navigationShown: bool
    var actionsShown: bool
    var submitDisabled: bool
    var submitLabel: string

    /** What `showStep(step)` leaves on screen. */
    ghost predicate Shows(step: int)
      reads sections, steps, lines
    {
      && (forall k :: 0 <= k < sections.Length ==> sections[k] == (k + 1 == step))
      && (forall k :: 0 <= k < steps.Length ==> steps[k] == (k + 1 <= step))
      && (forall k :: 0 <= k < lines.Length ==> lines[k] == (k + 1 < step))
    }

    /** What `updateNavigation()` leaves on screen. */
    ghost predicate Navigates()
      reads this`currentStep, this`prevShown, this`nextShown, this`navigationShown, this`actionsShown
    {
      && prevShown == (currentStep != 1)
      && nextShown == (currentStep != TotalSteps)
      && navigationShown == (currentStep != TotalSteps)
      && actionsShown == (currentStep == TotalSteps)
    }

    ghost predicate Valid()
      reads this, sections, steps, lines
    {
      && 1 <= currentStep <= TotalSteps
      && sections != steps && sections != lines && steps != lines
      && Shows(currentStep)
      && Navigates()
      && loading == submitDisabled
    }

    /** Page load: `initForm()` shows step 1 and its buttons. */
    constructor (sectionCount: nat, stepCount: nat, lineCount: nat, form: seq<Control>, buttonText: string)
      ensures Valid() && currentStep == 1 && !loading && submitLabel == buttonText
      ensures sections.Length == sectionCount && steps.Length == stepCount && lines.Length == lineCount
      ensures controls[..] == form
      ensures fresh(sections) && fresh(steps) && fresh(lines) && fresh(controls)
    {
      currentStep := 1;
      loading := false;
      submitDisabled := false;
      submitLabel := buttonText;
      sections := new bool[sectionCount];
      steps := new bool[stepCount];
      lines := new bool[lineCount];
      controls := new Control[|form|](i requires 0 <= i < |form| => form[i]);
      new;
      ShowStep(1);
      UpdateNavigation();
    }

    /** `showStep(step)`: section `step` alone, progress steps up to it, progress lines before it. */
    method ShowStep(step: int)
      requires sections != steps && sections != lines && steps != lines
      modifies sections, steps, lines
      ensures Shows(step)
    {
      Dom.ActivateOnly(sections, step);
      Dom.ActivateThrough(steps, step);
      Dom.ActivateThrough(lines, step - 1);
    }

    /** `updateNavigation()`: the buttons for the step on screen. */
    method UpdateNavigation()
      modifies this`prevShown, this`nextShown, this`navigationShown, this`actionsShown
      ensures Navigates()
      ensures currentStep == 1 ==> !prevShown && nextShown && navigationShown && !actionsShown
      ensures currentStep == TotalSteps ==> prevShown && !nextShown && !navigationShown && actionsShown
      ensures currentStep != 1 && currentStep != TotalSteps ==> prevShown && nextShown && navigationShown && !actionsShown
    {
      if currentStep == 1 {
        prevShown, nextShown, navigationShown, actionsShown := false, true, true, false;
      } else if currentStep == TotalSteps {
        prevShown, nextShown, navigationShown, actionsShown := true, false, false, true;
      } else {
        prevShown, nextShown, navigationShown, actionsShown := true, true, true, false;
      }
    }

    /** `showLoading(submitBtn, text)`. */
    method ShowLoading(text: string)
      modifies this`loading, this`submitDisabled, this`submitLabel
      ensures loading && submitDisabled
      ensures submitLabel == "<i class=\"ri-loader-4-line loading\"></i> " + text
    {
      loading := true;
      submitLabel := "<i class=\"ri-loader-4-line loading\"></i> " + text;
      submitDisabled := true;
    }

    /** `hideLoading(submitBtn, originalText)`. */
    method HideLoading(originalText: string)
      modifies this`loading, this`submitDisabled, this`submitLabel
      ensures !loading && !submitDisabled && submitLabel == originalText
    {
      loading := false;
      submitLabel := originalText;
      submitDisabled := false;
    }

    /**
     * `validateStep(step)`: every required control of the step is examined,
     * none is skipped after a failure; the result says whether all were filled.
     */
    method ValidateStep(step: int) returns (valid: bool)
      modifies controls
      ensures controls[..] == MarkErrors(old(controls[..]), step)
      ensures valid == StepFilled(old(controls[..]), step)
    {
      ghost var start := controls[..];
      valid := true;
      for k := 0 to controls.Length
        invariant forall j :: 0 <= j < k ==> controls[j] == Mark(start[j], step)
        invariant forall j :: k <= j < controls.Length ==> controls[j] == start[j]
        invariant valid == Accumulated(start[..k], step)
      {
        var c := controls[k];
        assert start[..k + 1][..k] == start[..k];
        var filled := Satisfied(c, step);
        controls[k] := if Checked(c, step) then c.(error := !filled) else c;
        valid := valid && filled;
      }
      assert start[..controls.Length] == start;
      AccumulatedIffFilled(start, step);
      assert controls[..] == MarkErrors(start, step);
    }

    /**
     * `nextStep()`: advance one step when the current one is filled and is
     * not the last; otherwise alert when it is not filled. The alert branch
     * validates the step a second time.
     */
    method NextStep() returns (alert: Option<string>)
      requires Valid()
      modifies this, sections, steps, lines, controls
      ensures Valid()
      ensures currentStep == if old(currentStep) < TotalSteps && StepFilled(old(controls[..]), old(currentStep))
                             then old(currentStep) + 1 else old(currentStep)
      ensures alert == if StepFilled(old(controls[..]), old(currentStep)) then None else Some(ProceedMessage)
      ensures controls[..] == MarkErrors(old(controls[..]), old(currentStep))
      ensures loading == old(loading) && submitLabel == old(submitLabel)
    {
      var advance := false;
      if currentStep < TotalSteps {
        advance := ValidateStep(currentStep);
      }
      if advance {
        currentStep := currentStep + 1;
        ShowStep(currentStep);
        UpdateNavigation();
        alert := None;
      } else {
        var valid := ValidateStep(currentStep);
        if old(currentStep) < TotalSteps {
          MarkKeepsFilled(old(controls[..]), currentStep, currentStep);
          MarkErrorsIdempotent(old(controls[..]), currentStep);
        }
        alert := if valid then None else Some(ProceedMessage);
      }
    }

    /** `prevStep()`: step back one, without validation, never below the first. */
    method PrevStep()
      requires Valid()
      modifies this, sections, steps, lines
      ensures Valid()
      ensures currentStep == if old(currentStep) > 1 then old(currentStep) - 1 else old(currentStep)
      ensures loading == old(loading) && submitLabel == old(submitLabel)
    {
      if currentStep > 1 {
        currentStep := currentStep - 1;
        ShowStep(currentStep);
        UpdateNavigation();
      }
    }

    /**
     * The synchronous part of `handleSubmit`: nothing while a submission is
     * in flight; otherwise validate the step on screen, and either alert or
     * enter the loading state and start the 2-second timer.
     */
    method BeginSubmit() returns (alert: Option<string>)
      requires Valid()
      modifies this`loading, this`submitDisabled, this`submitLabel, controls
      ensures Valid()
      ensures old(loading) ==> alert == None && loading && submitLabel == old(submitLabel)
                               && controls[..] == old(controls[..])
      ensures !old(loading) ==> controls[..] == MarkErrors(old(controls[..]), currentStep)
      ensures !old(loading) && StepFilled(old(controls[..]), currentStep) ==>
        alert == None && loading && submitLabel == "<i class=\"ri-loader-4-line loading\"></i> " + LoadingText
      ensures !old(loading) && !StepFilled(old(controls[..]), currentStep) ==>
        alert == Some(SubmitBlockedMessage) && !loading && submitLabel == old(submitLabel)
    {
      if loading {
        return None;
      }
      var valid := ValidateStep(currentStep);
      if !valid {
        return Some(SubmitBlockedMessage);
      }
      ShowLoading(LoadingText);
      alert := None;
    }

    /**
     * The timer set by `handleSubmit` fires: two alerts around `hideLoading`,
     * then the form is reset and the wizard goes back to step 1.
     */
    method CompleteSubmit() returns (alerts: seq<string>)
      requires Valid() && loading
      modifies this, sections, steps, lines, controls
      ensures Valid()
      ensures alerts == [SubmittedAlert, ThanksAlert]
      ensures !loading && currentStep == 1 && submitLabel == SubmitLabel
      ensures controls[..] == ResetValues(old(controls[..]))
    {
      alerts := [SubmittedAlert];
      HideLoading(SubmitLabel);
      alerts := alerts + [ThanksAlert];
      for k := 0 to controls.Length
        modifies controls
        invariant forall j :: 0 <= j < k ==> controls[j] == old(controls[j]).(value := old(controls[j]).initial)
        invariant forall j :: k <= j < controls.Length ==> controls[j] == old(controls[j])
      {
        controls[k] := controls[k].(value := controls[k].initial);
      }
      currentStep := 1;
      ShowStep(currentStep);
      UpdateNavigation();
    }
  }
}
