/** The local bookkeeping of `components/dashboard/TourDetails.tsx`: after
    the data-access layer answers, the selected tour's embedded step list
    and cached count are patched in memory. A handler's result is the tour
    passed to `onUpdateTour`, or `None` when that callback is not called. */
module TourDetails {
  import opened Wrappers
  import opened TourTypes
  import Sorting

  /** `selectedTour.tour_steps || []`. */
  function StepsOf(t: Tour): seq<Step> {
    t.tour_steps.GetOr([])
  }

  /** The cached count agrees with the embedded list. */
  predicate CountMatches(t: Tour) {
    t.tour_steps.Some? && t.total_steps == |t.tour_steps.value|
  }

  /** Everything but the step list and the count is as before. */
  predicate SameHeader(a: Tour, b: Tour) {
    a.(tour_steps := None, total_steps := 0) == b.(tour_steps := None, total_steps := 0)
  }

  /** `handleAddStep`: on an error or an empty reply the tour is left
      alone; otherwise the returned step is appended and the count set to
      the new length. */
  function AfterAdd(t: Tour, reply: Result<Option<Step>, string>): (r: Option<Tour>)
    ensures r.Some? <==> reply.Ok? && reply.value.Some?
    ensures r.Some? ==>
      && SameHeader(r.value, t)
      && CountMatches(r.value)
      && |StepsOf(r.value)| == |StepsOf(t)| + 1
      && StepsOf(r.value)[..|StepsOf(t)|] == StepsOf(t)
      && StepsOf(r.value)[|StepsOf(t)|] == reply.value.value
  {
    match reply
    case Err(_) => None
    case Ok(None) => None
    case Ok(Some(data)) =>
      var steps := StepsOf(t) + [data];
      Some(t.(tour_steps := Some(steps), total_steps := |steps|))
  }

  /** `handleEditStep`: every step whose id is `stepId` is replaced by the
      returned row; the count is not touched. */
  function AfterEdit(t: Tour, stepId: int, reply: Result<Option<Step>, string>): (r: Option<Tour>)
    ensures r.Some? <==> reply.Ok? && reply.value.Some?
    ensures r.Some? ==>
      && SameHeader(r.value, t)
      && r.value.total_steps == t.total_steps
      && (CountMatches(t) ==> CountMatches(r.value))
      && |StepsOf(r.value)| == |StepsOf(t)|
      && (forall i :: 0 <= i < |StepsOf(t)| ==>
            StepsOf(r.value)[i] == (if StepsOf(t)[i].id == stepId then reply.value.value else StepsOf(t)[i]))
  {
    match reply
    case Err(_) => None
    case Ok(None) => None
    case Ok(Some(data)) =>
      Some(t.(tour_steps := Some(ReplaceById(StepsOf(t), stepId, data))))
  }

  /** `steps.map(step => step.id === stepId ? data : step)`. */
  function ReplaceById(steps: seq<Step>, stepId: int, data: Step): (r: seq<Step>)
    ensures |r| == |steps|
    ensures forall i :: 0 <= i < |steps| ==> r[i] == (if steps[i].id == stepId then data else steps[i])
  {
    seq(|steps|, i requires 0 <= i < |steps| => if steps[i].id == stepId then data else steps[i])
  }

  /** `steps.filter(step => step.id !== stepId)`. */
  function WithoutId(steps: seq<Step>, stepId: int): (r: seq<Step>)
    ensures |r| <= |steps|
  {
    if steps == [] then []
    else
      var init, last := steps[..|steps| - 1], steps[|steps| - 1];
      WithoutId(init, stepId) + (if last.id == stepId then [] else [last])
  }

  /** The filter keeps exactly the steps with another id. */
  lemma {:induction false} WithoutIdMembers(steps: seq<Step>, stepId: int, x: Step)
    ensures x in WithoutId(steps, stepId) <==> x in steps && x.id != stepId
  {
    if steps != [] {
      var init, last := steps[..|steps| - 1], steps[|steps| - 1];
      WithoutIdMembers(init, stepId, x);
      assert steps == init + [last];
    }
  }

  /** The filter removes nothing when no step carries the id. */
  lemma {:induction false} WithoutAbsentId(steps: seq<Step>, stepId: int)
    requires forall i :: 0 <= i < |steps| ==> steps[i].id != stepId
    ensures WithoutId(steps, stepId) == steps
  {
    if steps != [] {
      var init := steps[..|steps| - 1];
      WithoutAbsentId(init, stepId);
      assert steps == init + [steps[|steps| - 1]];
    }
  }

  /** `handleDeleteStep`: on success every step with id `stepId` is dropped
      and the count set to what remains. */
  function AfterDelete(t: Tour, stepId: int, reply: Result<bool, string>): (r: Option<Tour>)
    ensures r.Some? <==> reply == Ok(true)
    ensures r.Some? ==>
      && SameHeader(r.value, t)
      && CountMatches(r.value)
      && StepsOf(r.value) == WithoutId(StepsOf(t), stepId)
  {
    match reply
    case Err(_) => None
    case Ok(false) => None
    case Ok(true) =>
      var steps := WithoutId(StepsOf(t), stepId);
      Some(t.(tour_steps := Some(steps), total_steps := |steps|))
  }

  /** After a delete no step with that id remains, and every other step
      is still there. */
  lemma DeleteRemovesId(t: Tour, stepId: int, x: Step)
    ensures var after := StepsOf(AfterDelete(t, stepId, Ok(true)).value);
      x in after <==> x in StepsOf(t) && x.id != stepId
  {
    WithoutIdMembers(StepsOf(t), stepId, x);
  }

  /** Deleting a step just added under a fresh id restores the list and
      the count the tour had, when its count matched. */
  lemma AddThenDelete(t: Tour, data: Step)
    requires forall i :: 0 <= i < |StepsOf(t)| ==> StepsOf(t)[i].id != data.id
    ensures var added := AfterAdd(t, Ok(Some(data))).value;
      var back := AfterDelete(added, data.id, Ok(true)).value;
      && StepsOf(back) == StepsOf(t)
      && SameHeader(back, t)
      && (CountMatches(t) ==> back == t)
  {
    var added := AfterAdd(t, Ok(Some(data))).value;
    var steps := StepsOf(added);
    assert steps[..|steps| - 1] == StepsOf(t);
    WithoutAbsentId(StepsOf(t), data.id);
  }

  /** The display order: `a.step_number - b.step_number`, where the step
      rows have no `step_number`, so every comparison is `NaN`. */
  function StepNumber(s: Step): Option<int> {
    None
  }

  /** The steps as listed on screen: the stored order, since the sort sees
      every pair as equal. */
  function Displayed(t: Tour): (r: seq<Step>)
    ensures r == StepsOf(t)
  {
    assert Sorting.NoneKeyed(StepsOf(t), StepNumber);
    Sorting.SortByKey(StepsOf(t), StepNumber)
  }

  /** The `totalSteps` handed to the delete dialog. */
  function DialogTotal(t: Tour): (r: nat)
    ensures r == |StepsOf(t)|
    ensures CountMatches(t) ==> r == t.total_steps
  {
    |Displayed(t)|
  }
}
