/** The state and transitions of the create-tour dialog
    (`components/dashboard/CreateTourDialog.tsx`): a name, a description, a
    status and a list of draft steps, validated to need at least five
    complete steps before the tour is handed to `onCreateTour`. */
module CreateTourForm {
  import opened Wrappers
  import opened Text

  /** The minimum number of complete steps a tour needs. */
  const MinSteps: nat := 5

  /** A step as typed into the form. */
  datatype Draft = Draft(title: string, description: string)

  const BlankDraft := Draft("", "")

  /** The per-field messages shown under the form; `None` is no message. */
  datatype Errors = Errors(name: Option<string>, description: Option<string>, steps: Option<string>)

  const NoErrors := Errors(None, None, None)

  datatype Form = Form(
    name: string,
    description: string,
    status: string,
    steps: seq<Draft>,
    errors: Errors,
    open: bool,
    submitting: bool)

  /** The form as first shown and as left by a reset. */
  const Initial := Form("", "", "Active", [BlankDraft], NoErrors, false, false)

  /** A numbered step of the payload. */
  datatype StepDetail = StepDetail(id: int, title: string, description: string)

  /** The object passed to `onCreateTour`. */
  datatype NewTour = NewTour(name: string, description: string, steps: int, status: string, stepDetails: seq<StepDetail>)

  // ----------------------------------------------------------- step drafts

  /** `step.title.trim() && step.description.trim()`. */
  predicate Complete(d: Draft) {
    !IsBlank(d.title) && !IsBlank(d.description)
  }

  /** The complete drafts, in the order they were entered. */
  function CompleteSteps(steps: seq<Draft>): (r: seq<Draft>)
    ensures |r| <= |steps|
    ensures forall i :: 0 <= i < |r| ==> Complete(r[i])
  {
    if steps == [] then []
    else
      var init, last := steps[..|steps| - 1], steps[|steps| - 1];
      CompleteSteps(init) + (if Complete(last) then [last] else [])
  }

  /** The filter keeps exactly the complete drafts. */
  lemma {:induction false} CompleteStepsMembers(steps: seq<Draft>, d: Draft)
    ensures d in CompleteSteps(steps) <==> d in steps && Complete(d)
  {
    if steps != [] {
      var init, last := steps[..|steps| - 1], steps[|steps| - 1];
      CompleteStepsMembers(init, d);
      assert steps == init + [last];
      if Complete(last) {
        assert CompleteSteps(steps) == CompleteSteps(init) + [last];
      } else {
        assert CompleteSteps(steps) == CompleteSteps(init);
      }
    }
  }

  /** Counting distributes over concatenation. */
  lemma {:induction false} CompleteStepsAppend(a: seq<Draft>, b: seq<Draft>)
    ensures CompleteSteps(a + b) == CompleteSteps(a) + CompleteSteps(b)
    decreases |b|
  {
    if b == [] {
      assert a + b == a;
    } else {
      var init := b[..|b| - 1];
      assert (a + b)[..|a + b| - 1] == a + init;
      CompleteStepsAppend(a, init);
    }
  }

  function CompleteCount(f: Form): nat {
    |CompleteSteps(f.steps)|
  }

  // ------------------------------------------------------------ validation

  /** `You need k more complete step(s) (minimum 5 required)`. */
  function StepsMessage(missing: int): (m: string)
    requires 1 <= missing <= MinSteps
    ensures |m| == (if missing > 1 then 51 else 50)
    ensures m[..9] == "You need " && m[9] as int - '0' as int == missing
    ensures m[10..29] == " more complete step"
    ensures m[29] == 's' <==> missing > 1
    ensures m[|m| - 21..] == " (minimum 5 required)"
  {
    "You need " + [Digit(missing)] + " more complete step" + (if missing > 1 then "s" else "")
      + " (minimum 5 required)"
  }

  /** `validateForm`'s message set: one per blank field, and one for the
      steps when fewer than five are complete. */
  function Validate(f: Form): (e: Errors)
    ensures e.name.Some? <==> IsBlank(f.name)
    ensures e.description.Some? <==> IsBlank(f.description)
    ensures e.steps.Some? <==> CompleteCount(f) < MinSteps
    ensures e.name.Some? ==> e.name.value == "Tour name is required"
    ensures e.description.Some? ==> e.description.value == "Tour description is required"
    ensures e.steps.Some? ==> e.steps.value == StepsMessage(MinSteps - CompleteCount(f))
  {
    Errors(
      if IsBlank(f.name) then Some("Tour name is required") else None,
      if IsBlank(f.description) then Some("Tour description is required") else None,
      if CompleteCount(f) < MinSteps then Some(StepsMessage(MinSteps - CompleteCount(f))) else None)
  }

  /** `Object.keys(newErrors).length === 0`. */
  predicate IsValid(f: Form) {
    Validate(f) == NoErrors
  }

  /** A form is valid exactly when name and description are filled in and
      at least five steps are complete. */
  lemma IsValidIff(f: Form)
    ensures IsValid(f) <==> !IsBlank(f.name) && !IsBlank(f.description) && CompleteCount(f) >= MinSteps
  {
  }

  // ----------------------------------------------------------- transitions

  /** `addStep`: one blank draft at the end; any steps message cleared. */
  function AddStep(f: Form): (r: Form)
    ensures |r.steps| == |f.steps| + 1 && r.steps[..|f.steps|] == f.steps && r.steps[|f.steps|] == BlankDraft
    ensures r.errors.steps.None?
    ensures r.errors.name == f.errors.name && r.errors.description == f.errors.description
    ensures CompleteCount(r) == CompleteCount(f)
  {
    CompleteStepsAppend(f.steps, [BlankDraft]);
    assert CompleteSteps([BlankDraft]) == [] by {
      assert [BlankDraft][..0] == [];
    }
    f.(steps := f.steps + [BlankDraft], errors := f.errors.(steps := None))
  }

  /** `removeStep`: drops the draft at `index` unless it is the only one;
      an index outside the list removes nothing. */
  function RemoveStep(f: Form, index: int): (r: Form)
    ensures |f.steps| > 1 && 0 <= index < |f.steps| ==> r.steps == f.steps[..index] + f.steps[index + 1..]
    ensures !(|f.steps| > 1 && 0 <= index < |f.steps|) ==> r.steps == f.steps
    ensures |f.steps| >= 1 ==> |r.steps| >= 1
    ensures r.(steps := f.steps) == f
  {
    if |f.steps| > 1 && 0 <= index < |f.steps| then
      f.(steps := f.steps[..index] + f.steps[index + 1..])
    else f
  }

  /** Removing the draft just added gives back the list before. */
  lemma AddThenRemove(f: Form)
    requires |f.steps| >= 1
    ensures RemoveStep(AddStep(f), |f.steps|).steps == f.steps
  {
    var added := AddStep(f);
    assert added.steps[..|f.steps|] + added.steps[|f.steps| + 1..] == f.steps;
  }

  datatype Field = Title | Description

  /** `updateStep`: writes one field of one draft and clears any steps
      message. An index outside the list makes the source throw before
      any state changes, so the form stays as it was. */
  function UpdateStep(f: Form, index: int, field: Field, value: string): (r: Form)
    ensures !(0 <= index < |f.steps|) ==> r == f
    ensures 0 <= index < |f.steps| ==>
      && |r.steps| == |f.steps|
      && (forall i :: 0 <= i < |f.steps| && i != index ==> r.steps[i] == f.steps[i])
      && r.steps[index] == (match field
                            case Title => f.steps[index].(title := value)
                            case Description => f.steps[index].(description := value))
      && r.errors == f.errors.(steps := None)
      && r.(steps := f.steps, errors := f.errors) == f
  {
    if 0 <= index < |f.steps| then
      var d := f.steps[index];
      var d' := match field
        case Title => d.(title := value)
        case Description => d.(description := value);
      f.(steps := f.steps[index := d'], errors := f.errors.(steps := None))
    else f
  }

  // ---------------------------------------------------------------- submit

  /** One submitted step: the draft's text trimmed, under the given id. */
  function Detail(id: int, d: Draft): StepDetail {
    StepDetail(id, Trim(d.title), Trim(d.description))
  }

  /** The complete drafts, trimmed and numbered from 1. */
  function Numbered(ds: seq<Draft>): (r: seq<StepDetail>)
    ensures |r| == |ds|
    ensures forall i :: 0 <= i < |ds| ==> r[i] == Detail(i + 1, ds[i])
  {
    seq(|ds|, i requires 0 <= i < |ds| => Detail(i + 1, ds[i]))
  }

  /** The tour built by `handleSubmit`. */
  function Payload(f: Form): (t: NewTour)
    ensures t.steps == |t.stepDetails| == CompleteCount(f)
    ensures t.name == Trim(f.name) && t.description == Trim(f.description) && t.status == f.status
    ensures forall i :: 0 <= i < |t.stepDetails| ==> t.stepDetails[i].id == i + 1
  {
    var details := Numbered(CompleteSteps(f.steps));
    NewTour(Trim(f.name), Trim(f.description), |details|, f.status, details)
  }

  /** Every submitted step has a non-blank, already trimmed title and
      description. */
  lemma PayloadStepsTrimmed(f: Form, i: int)
    requires 0 <= i < |Payload(f).stepDetails|
    ensures var d := Payload(f).stepDetails[i];
      && !IsBlank(d.title) && Trim(d.title) == d.title
      && !IsBlank(d.description) && Trim(d.description) == d.description
  {
    var c := CompleteSteps(f.steps)[i];
    TrimIdempotent(c.title);
    TrimIdempotent(c.description);
  }

  /** What `handleSubmit` leaves behind and the tour, if any, that it
      handed to `onCreateTour`. */
  datatype Submitted = Submitted(form: Form, handedOver: Option<NewTour>)

  /** `handleSubmit`: an invalid form only records its messages; a valid
      one is handed over. When `onCreateTour` returns, the form is reset
      and closed; when it throws (`callbackThrows`), the messages stay
      cleared by the validation, the input and the dialog are kept and
      only the submitting flag drops back. */
  function Submit(f: Form, callbackThrows: bool): (r: Submitted)
    ensures r.handedOver.Some? <==> IsValid(f)
    ensures r.handedOver.Some? ==> r.handedOver.value == Payload(f)
    ensures !IsValid(f) ==> r.form == f.(errors := Validate(f))
    ensures IsValid(f) && !callbackThrows ==> r.form == Initial
    ensures IsValid(f) && callbackThrows ==> r.form == f.(errors := NoErrors, submitting := false)
  {
    if !IsValid(f) then Submitted(f.(errors := Validate(f)), None)
    else if callbackThrows then Submitted(f.(errors := NoErrors, submitting := false), Some(Payload(f)))
    else Submitted(Initial, Some(Payload(f)))
  }

  /** Whatever is handed over has at least five steps. */
  lemma SubmittedHasFiveSteps(f: Form, callbackThrows: bool)
    requires Submit(f, callbackThrows).handedOver.Some?
    ensures Submit(f, callbackThrows).handedOver.value.steps >= MinSteps
  {
  }

  /** After `onCreateTour` throws, submitting again hands over the same
      tour: the failed attempt kept everything the payload is built from. */
  lemma RetryAfterFailure(f: Form, callbackThrows: bool)
    requires IsValid(f)
    ensures Submit(Submit(f, true).form, callbackThrows).handedOver == Some(Payload(f))
  {
  }

  // ---------------------------------------------------------------- cancel

  /** `s.title.trim() || s.description.trim()`: the draft was typed into. */
  predicate Started(d: Draft) {
    !IsBlank(d.title) || !IsBlank(d.description)
  }

  /** `hasData`: some field holds more than whitespace. */
  predicate HasData(f: Form) {
    !IsBlank(f.name) || !IsBlank(f.description)
      || exists i :: 0 <= i < |f.steps| && Started(f.steps[i])
  }

  /** `handleCancel`: with data the user must confirm; a confirmed or
      needless cancel resets and closes the form. The button is disabled
      while a submit runs, so the form is never submitting afterwards. */
  function Cancel(f: Form, confirmed: bool): (r: Form)
    ensures HasData(f) && !confirmed ==> r == f
    ensures !HasData(f) || confirmed ==>
      && r.name == "" && r.description == "" && r.status == "Active"
      && r.steps == [BlankDraft] && r.errors == NoErrors
      && !r.open && !r.submitting
      && !HasData(r)
  {
    if HasData(f) && !confirmed then f else Initial
  }

  /** A form holding nothing but whitespace cancels without asking and is
      left as first shown. */
  lemma CancelUntouched(f: Form, confirmed: bool)
    requires IsBlank(f.name) && IsBlank(f.description)
    requires forall i :: 0 <= i < |f.steps| ==> !Started(f.steps[i])
    ensures Cancel(f, confirmed) == Initial
  {
  }

  /** The Create button: `validStepsCount < 5 || isSubmitting`. It is
      disabled exactly while validation would report missing steps or a
      submit is under way. */
  function CreateDisabled(f: Form): (b: bool)
    ensures b <==> Validate(f).steps.Some? || f.submitting
    ensures !b ==> CompleteCount(f) >= MinSteps && !f.submitting
  {
    CompleteCount(f) < MinSteps || f.submitting
  }

  /** `(validStepsCount / 5) * 100`. */
  function Progress(f: Form): (p: real)
    ensures p >= 0.0
    ensures p >= 100.0 <==> CompleteCount(f) >= MinSteps
  {
    CompleteCount(f) as real / 5.0 * 100.0
  }

  /** An enabled Create button always submits: the form can then fail
      validation only on its name or description. */
  lemma EnabledStepsValid(f: Form)
    requires !CreateDisabled(f)
    ensures Validate(f).steps.None?
    ensures IsValid(f) <==> !IsBlank(f.name) && !IsBlank(f.description)
  {
  }
}
