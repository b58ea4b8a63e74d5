/** The add, edit and delete dialogs of `components/dashboard/StepDialogs.tsx`:
    their validation, the payloads they hand to their callbacks, and the
    rule that keeps a tour at five steps or more. */
module StepDialogs {
  import opened Wrappers
  import opened Text
  import opened TourTypes
  import TourDetails

  /** The fewest steps a tour may be left with. */
  const MinSteps: nat := 5

  datatype StepErrors = StepErrors(title: Option<string>, description: Option<string>)

  const NoErrors := StepErrors(None, None)

  /** The text fields of an add or edit dialog. */
  datatype StepForm = StepForm(title: string, description: string, errors: StepErrors, open: bool)

  /** The add dialog as first shown and as left by a reset. */
  const EmptyForm := StepForm("", "", NoErrors, false)

  /** `validateForm`, shared by both dialogs: one message per blank field. */
  function ValidateStep(f: StepForm): (e: StepErrors)
    ensures e.title.Some? <==> IsBlank(f.title)
    ensures e.description.Some? <==> IsBlank(f.description)
    ensures e.title.Some? ==> e.title.value == "Step title is required"
    ensures e.description.Some? ==> e.description.value == "Step description is required"
  {
    StepErrors(
      if IsBlank(f.title) then Some("Step title is required") else None,
      if IsBlank(f.description) then Some("Step description is required") else None)
  }

  predicate IsValid(f: StepForm) {
    ValidateStep(f) == NoErrors
  }

  /** The dialog state after a submit and what was handed to the callback. */
  datatype Submitted<T> = Submitted(form: StepForm, sent: Option<T>)

  /** `AddStepDialog.handleSubmit`: a valid form sends its trimmed text and
      resets; an invalid one only shows its messages. */
  function AddSubmit(f: StepForm): (r: Submitted<StepInput>)
    ensures r.sent.Some? <==> !IsBlank(f.title) && !IsBlank(f.description)
    ensures r.sent.Some? ==> r.sent.value == StepInput(Trim(f.title), Trim(f.description)) && r.form == EmptyForm
    ensures r.sent.None? ==> r.form == f.(errors := ValidateStep(f))
  {
    if IsValid(f) then Submitted(EmptyForm, Some(StepInput(Trim(f.title), Trim(f.description))))
    else Submitted(f.(errors := ValidateStep(f)), None)
  }

  /** What an add sends is itself a valid, already trimmed step. */
  lemma AddSentIsClean(f: StepForm)
    requires AddSubmit(f).sent.Some?
    ensures var s := AddSubmit(f).sent.value;
      && !IsBlank(s.title) && !IsBlank(s.description)
      && Trim(s.title) == s.title && Trim(s.description) == s.description
  {
    TrimIdempotent(f.title);
    TrimIdempotent(f.description);
  }

  /** `AddStepDialog.handleCancel`: with text entered the user must confirm. */
  function AddCancel(f: StepForm, confirmed: bool): (r: StepForm)
    ensures (IsBlank(f.title) && IsBlank(f.description)) || confirmed ==> r == EmptyForm
    ensures !IsBlank(f.title) || !IsBlank(f.description) ==> !confirmed ==> r == f
  {
    if (!IsBlank(f.title) || !IsBlank(f.description)) && !confirmed then f else EmptyForm
  }

  /** `EditStepDialog.handleSubmit`: the original step with its title and
      description replaced by the trimmed text; validation has cleared the
      messages and the dialog closes. */
  function EditSubmit(step: Step, f: StepForm): (r: Submitted<Step>)
    ensures r.sent.Some? <==> !IsBlank(f.title) && !IsBlank(f.description)
    ensures r.sent.Some? ==>
      && r.sent.value.title == Trim(f.title)
      && r.sent.value.description == Trim(f.description)
      && r.sent.value.(title := step.title, description := step.description) == step
      && r.form == f.(errors := NoErrors, open := false)
    ensures r.sent.None? ==> r.form == f.(errors := ValidateStep(f))
  {
    if IsValid(f) then Submitted(f.(errors := NoErrors, open := false), Some(step.(title := Trim(f.title), description := Trim(f.description))))
    else Submitted(f.(errors := ValidateStep(f)), None)
  }

  /** `EditStepDialog.handleCancel`: back to the step's own text, no
      messages, closed. */
  function EditCancel(step: Step, f: StepForm): (r: StepForm)
    ensures r.title == step.title && r.description == step.description
    ensures r.errors == NoErrors && !r.open
  {
    StepForm(step.title, step.description, NoErrors, false)
  }

  /** Cancelling an edit and saving straight away sends the step back
      unchanged, when its text was already clean. */
  lemma CancelThenSaveIsIdentity(step: Step, f: StepForm)
    requires !IsBlank(step.title) && !IsBlank(step.description)
    requires Trim(step.title) == step.title && Trim(step.description) == step.description
    ensures EditSubmit(step, EditCancel(step, f)).sent == Some(step)
  {
  }

  /** `canDelete = totalSteps > 5`. */
  function CanDelete(totalSteps: int): (b: bool)
    ensures b <==> totalSteps >= MinSteps + 1
  {
    totalSteps > 5
  }

  /** No two steps of the list share an id. */
  predicate DistinctIds(steps: seq<Step>) {
    forall i, j :: 0 <= i < j < |steps| ==> steps[i].id != steps[j].id
  }

  /** Removing one id from a list with distinct ids drops at most one step. */
  lemma {:induction false} WithoutIdDropsOne(steps: seq<Step>, stepId: int)
    requires DistinctIds(steps)
    ensures |TourDetails.WithoutId(steps, stepId)| >= |steps| - 1
  {
    if steps != [] {
      var init, last := steps[..|steps| - 1], steps[|steps| - 1];
      WithoutIdDropsOne(init, stepId);
      if last.id == stepId {
        forall i | 0 <= i < |init|
          ensures init[i].id != stepId
        {
          assert steps[i].id != steps[|steps| - 1].id;
        }
        TourDetails.WithoutAbsentId(init, stepId);
      }
    }
  }

  /** The dialog offers deletion only when the tour keeps at least five
      steps afterwards. */
  lemma DeleteKeepsMinimum(t: Tour, stepId: int)
    requires DistinctIds(TourDetails.StepsOf(t))
    requires CanDelete(TourDetails.DialogTotal(t))
    ensures TourDetails.DialogTotal(TourDetails.AfterDelete(t, stepId, Ok(true)).value) >= MinSteps
  {
    WithoutIdDropsOne(TourDetails.StepsOf(t), stepId);
  }
}
