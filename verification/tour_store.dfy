/** The data-access functions of `lib/supabase.ts` over an in-memory store.
    Each database statement that can fail without the function noticing
    (its result is ignored) or with the function aborting is controlled by
    a fault flag, so that every path of the source is a path of the model. */
module TourStore {
  import opened Wrappers
  import opened TourTypes
  import opened StepRows
  import Sorting

  /** The two tables plus the next ids the database will hand out. */
  datatype Store = Store(
    tours: map<int, Tour>,
    steps: seq<Step>,
    nextTourId: int,
    nextStepId: int)

  datatype StoreError =
    | TourNotFoundOrUnauthorized   // the ownership pre-check matched no tour
    | NoSingleRow                  // `.single()` saw zero (or several) rows
    | DatabaseError                // the statement itself failed

  const UnauthorizedMessage: string := "Tour not found or unauthorized"

  datatype Outcome<T> = Outcome(store: Store, result: Result<T, StoreError>)

  /** `select ... from tours where id = tid and user_id = uid` finds a row. */
  predicate Owns(s: Store, tid: int, uid: string) {
    tid in s.tours && s.tours[tid].user_id == uid
  }

  /** The ownership pre-check lets the call through: its query did not fail
      and found the tour. Any `error` of that `.single()` query, a failed
      query as much as a missing row, throws "Tour not found or
      unauthorized". */
  predicate CheckPasses(s: Store, tid: int, uid: string, checkFails: bool) {
    Owns(s, tid, uid) && !checkFails
  }

  /** Key, id and referential integrity the database itself maintains. */
  predicate WellFormed(s: Store) {
    && (forall k :: k in s.tours ==> s.tours[k].id == k && k < s.nextTourId)
    && Distinct(IdsOf(s.steps))
    && (forall i :: 0 <= i < |s.steps| ==>
          s.steps[i].id < s.nextStepId && s.steps[i].tour_id in s.tours)
  }

  /** Every tour's orders are `1..N` and its cached count is `N`. */
  predicate Coherent(s: Store) {
    && WellFormed(s)
    && forall tid :: tid in s.tours ==>
         Contiguous(s.steps, tid) && s.tours[tid].total_steps == StepCount(s.steps, tid)
  }

  // ------------------------------------------------------------ createTour

  datatype CreateFaults = CreateFaults(
    tourInsertFails: bool,
    stepsInsertFails: bool,
    rollbackFails: bool)

  /** `tourData.status || "Inactive"`: an absent or empty status becomes the
      capitalised literal, which is not one of the record type's values. */
  function StatusOrDefault(status: Option<string>): (r: string)
    ensures status.None? || status.value == "" ==> r == "Inactive"
    ensures status.Some? && status.value != "" ==> r == status.value
    ensures r != ""
  {
    if status.None? || status.value == "" then "Inactive" else status.value
  }

  /** The steps supplied, `[]` when absent. */
  function Items(input: CreateTourInput): seq<StepInput> {
    input.steps.GetOr([])
  }

  function NewSteps(tid: int, firstId: int, items: seq<StepInput>): (r: seq<Step>)
    ensures |r| == |items|
  {
    seq(|items|, i requires 0 <= i < |items| =>
      Step(firstId + i, tid, i + 1, items[i].title, items[i].description, 0.0))
  }

  /** Inserts the tour, then its steps numbered `1..N`; when the step insert
      fails the tour is deleted again (unless that delete fails too). */
  function CreateTour(s: Store, userId: string, input: CreateTourInput, now: int, f: CreateFaults)
    : (r: Outcome<Tour>)
    ensures f.tourInsertFails ==> r == Outcome(s, Err(DatabaseError))
    ensures r.result.Ok? <==> !f.tourInsertFails && (Items(input) == [] || !f.stepsInsertFails)
    ensures r.result.Ok? ==>
      var t, items := r.result.value, Items(input);
      && t.id == s.nextTourId && t.user_id == userId
      && t.title == input.title && t.description == input.description
      && t.total_steps == |items|
      && t.status == StatusOrDefault(input.status)
      && r.store.tours == s.tours[t.id := t]
      && |r.store.steps| == |s.steps| + |items|
      && r.store.steps[..|s.steps|] == s.steps
      && forall i :: 0 <= i < |items| ==>
           r.store.steps[|s.steps| + i]
             == Step(s.nextStepId + i, t.id, i + 1, items[i].title, items[i].description, 0.0)
    ensures r.result.Err? ==> r.store.steps == s.steps
    ensures r.result.Err? && !f.rollbackFails && s.nextTourId !in s.tours ==> r.store.tours == s.tours
  {
    if f.tourInsertFails then Outcome(s, Err(DatabaseError))
    else
      var tid := s.nextTourId;
      var items := Items(input);
      var tour := Tour(tid, userId, input.title, input.description, |items|,
                       StatusOrDefault(input.status), now, None);
      var s1 := s.(tours := s.tours[tid := tour], nextTourId := tid + 1);
      if |items| > 0 then
        if f.stepsInsertFails then
          var rolledBack := if f.rollbackFails then s1.tours else s1.tours - {tid};
          Outcome(s1.(tours := rolledBack), Err(DatabaseError))
        else
          var steps := s.steps + NewSteps(tid, s.nextStepId, items);
          Outcome(s1.(steps := steps, nextStepId := s.nextStepId + |items|), Ok(tour))
      else Outcome(s1, Ok(tour))
  }

  // --------------------------------------------------------- addStepToTour

  datatype AddFaults = AddFaults(
    ownerCheckFails: bool,   // the ownership pre-check query itself fails
    maxQueryFails: bool,     // the "highest step_order" query; its error is ignored
    insertFails: bool,
    countUpdateFails: bool)  // the `total_steps` update; its error is ignored

  /** The highest `step_order` among non-empty `rows`. */
  function MaxOrder(rows: seq<Step>): (r: int)
    requires rows != []
    ensures r in Orders(rows)
    ensures forall o :: o in Orders(rows) ==> o <= r
  {
    var last := rows[|rows| - 1];
    if |rows| == 1 then last.step_order
    else
      var init := rows[..|rows| - 1];
      assert rows == init + [last];
      var m := MaxOrder(init);
      assert Orders(rows) == Orders(init) + {last.step_order};
      if last.step_order > m then last.step_order else m
  }

  /** `existingSteps[0].step_order + 1` from the query ordered by
      `step_order` descending with limit 1, or 1 when the tour has no rows. */
  function NextStepOrder(steps: seq<Step>, tid: int): (r: int)
    ensures StepsOf(steps, tid) == [] ==> r == 1
    ensures StepsOf(steps, tid) != [] ==> r - 1 in Orders(StepsOf(steps, tid))
    ensures forall o :: o in Orders(StepsOf(steps, tid)) ==> o < r
  {
    var rows := StepsOf(steps, tid);
    if rows == [] then 1 else MaxOrder(rows) + 1
  }

  function AddStepToTour(s: Store, tourId: int, userId: string, input: StepInput, f: AddFaults)
    : (r: Outcome<Step>)
    ensures !CheckPasses(s, tourId, userId, f.ownerCheckFails) ==> r == Outcome(s, Err(TourNotFoundOrUnauthorized))
    ensures CheckPasses(s, tourId, userId, f.ownerCheckFails) && f.insertFails ==> r == Outcome(s, Err(DatabaseError))
    ensures r.result.Ok? <==> CheckPasses(s, tourId, userId, f.ownerCheckFails) && !f.insertFails
    ensures r.result.Ok? ==>
      var st, old_t := r.result.value, s.tours[tourId];
      && st.id == s.nextStepId && st.tour_id == tourId
      && st.title == input.title && st.description == input.description
      && st.completion_rate == 0.0
      && (f.maxQueryFails ==> st.step_order == 1)
      && (!f.maxQueryFails ==>
            && (forall o :: o in Orders(StepsOf(s.steps, tourId)) ==> o < st.step_order)
            && (StepsOf(s.steps, tourId) == [] ==> st.step_order == 1)
            && (StepsOf(s.steps, tourId) != [] ==>
                  st.step_order - 1 in Orders(StepsOf(s.steps, tourId))))
      && r.store.steps == s.steps + [st]
      && r.store.tours == (if f.countUpdateFails then s.tours
                           else s.tours[tourId := old_t.(total_steps := old_t.total_steps + 1)])
  {
    if !CheckPasses(s, tourId, userId, f.ownerCheckFails) then Outcome(s, Err(TourNotFoundOrUnauthorized))
    else
      var next := if f.maxQueryFails then 1 else NextStepOrder(s.steps, tourId);
      if f.insertFails then Outcome(s, Err(DatabaseError))
      else
        var st := Step(s.nextStepId, tourId, next, input.title, input.description, 0.0);
        var t := s.tours[tourId];
        var s1 := s.(steps := s.steps + [st], nextStepId := s.nextStepId + 1);
        if f.countUpdateFails then Outcome(s1, Ok(st))
        else Outcome(s1.(tours := s.tours[tourId := t.(total_steps := t.total_steps + 1)]), Ok(st))
  }

  // ------------------------------------------------------------ updateStep

  /** The supplied fields written over a row; absent fields keep their value. */
  function ApplyStepUpdate(st: Step, u: StepUpdate): (r: Step)
    ensures r.id == st.id && r.tour_id == st.tour_id && r.step_order == st.step_order
    ensures r.completion_rate == st.completion_rate
    ensures u.title.None? ==> r.title == st.title
    ensures u.title.Some? ==> r.title == u.title.value
    ensures u.description.None? ==> r.description == st.description
    ensures u.description.Some? ==> r.description == u.description.value
  {
    st.(title := u.title.GetOr(st.title), description := u.description.GetOr(st.description))
  }

  /** The rows `where id = stepId and tour_id = tourId`. */
  function Matching(steps: seq<Step>, stepId: int, tourId: int): (r: seq<Step>)
    ensures forall st :: st in r <==> st in steps && st.id == stepId && st.tour_id == tourId
  {
    RemoveRows(steps, (st: Step) => !(st.id == stepId && st.tour_id == tourId))
  }

  function UpdateStep(s: Store, stepId: int, tourId: int, userId: string, u: StepUpdate,
                      checkFails: bool, fails: bool)
    : (r: Outcome<Step>)
    ensures !CheckPasses(s, tourId, userId, checkFails) ==> r == Outcome(s, Err(TourNotFoundOrUnauthorized))
    ensures fails ==> r.store == s && r.result.Err?
    ensures r.store.tours == s.tours
    ensures r.store.nextTourId == s.nextTourId && r.store.nextStepId == s.nextStepId
    ensures |r.store.steps| == |s.steps|
    ensures CheckPasses(s, tourId, userId, checkFails) && !fails ==> forall i :: 0 <= i < |s.steps| ==>
      r.store.steps[i] == (if s.steps[i].id == stepId && s.steps[i].tour_id == tourId
                           then ApplyStepUpdate(s.steps[i], u) else s.steps[i])
    ensures r.result.Ok? <==> CheckPasses(s, tourId, userId, checkFails) && !fails && |Matching(s.steps, stepId, tourId)| == 1
    ensures r.result.Ok? ==> r.result.value == ApplyStepUpdate(Matching(s.steps, stepId, tourId)[0], u)
    ensures CheckPasses(s, tourId, userId, checkFails) && fails ==> r == Outcome(s, Err(DatabaseError))
    ensures CheckPasses(s, tourId, userId, checkFails) && !fails && r.result.Err? ==> r.result.error == NoSingleRow
  {
    if !CheckPasses(s, tourId, userId, checkFails) then Outcome(s, Err(TourNotFoundOrUnauthorized))
    else if fails then Outcome(s, Err(DatabaseError))
    else
      var g := (st: Step) => if st.id == stepId && st.tour_id == tourId then ApplyStepUpdate(st, u) else st;
      var steps := MapRows(s.steps, g);
      var hits := Matching(s.steps, stepId, tourId);
      var s' := s.(steps := steps);
      if |hits| == 1 then Outcome(s', Ok(ApplyStepUpdate(hits[0], u)))
      else Outcome(s', Err(NoSingleRow))
  }

  // ------------------------------------------------------------ deleteStep

  datatype DeleteFaults = DeleteFaults(
    ownerCheckFails: bool,   // the ownership pre-check query itself fails
    deleteFails: bool,
    countUpdateFails: bool,  // the `total_steps` update; its error is ignored
    reloadFails: bool)       // `getTourSteps` before renumbering returns no data

  /** `getTourSteps(tid)`: the tour's rows ordered by `step_order`. */
  function TourSteps(steps: seq<Step>, tid: int): (r: seq<Step>)
    ensures multiset(r) == multiset(StepsOf(steps, tid))
    ensures |r| == StepCount(steps, tid)
    ensures forall i, j :: 0 <= i < j < |r| ==> r[i].step_order <= r[j].step_order
  {
    var key := (st: Step) => Some(st.step_order);
    var rows := StepsOf(steps, tid);
    assert Sorting.AllKeyed(rows, key);
    var r := Sorting.SortByKey(rows, key);
    assert forall i, j :: 0 <= i < j < |r| ==> key(r[i]).value <= key(r[j]).value;
    r
  }

  /** `Math.max(0, n)`. */
  function FloorAtZero(n: int): (r: nat)
    ensures r >= n && (n >= 0 ==> r == n) && (n < 0 ==> r == 0)
  {
    if n < 0 then 0 else n
  }

  /** The rows `where id = stepId and tour_id = tourId`. */
  function IsStep(stepId: int, tourId: int): Step -> bool {
    (st: Step) => st.id == stepId && st.tour_id == tourId
  }

  /** `delete from tour_steps where id = stepId and tour_id = tourId`. */
  function WithoutStep(steps: seq<Step>, stepId: int, tourId: int): (r: seq<Step>)
    ensures forall st :: st in r <==> st in steps && !(st.id == stepId && st.tour_id == tourId)
  {
    RemoveRows(steps, IsStep(stepId, tourId))
  }

  /** Deletes the row, decrements the cached count from the value read
      beforehand, then rewrites the tour's orders `1..M` in their current
      order. No check that a row was actually deleted. */
  function DeleteStep(s: Store, stepId: int, tourId: int, userId: string, f: DeleteFaults)
    : (r: Outcome<()>)
    ensures !CheckPasses(s, tourId, userId, f.ownerCheckFails) ==> r == Outcome(s, Err(TourNotFoundOrUnauthorized))
    ensures CheckPasses(s, tourId, userId, f.ownerCheckFails) && f.deleteFails ==> r == Outcome(s, Err(DatabaseError))
    ensures r.result.Ok? <==> CheckPasses(s, tourId, userId, f.ownerCheckFails) && !f.deleteFails
    ensures r.result.Ok? ==>
      var old_t := s.tours[tourId];
      var kept := WithoutStep(s.steps, stepId, tourId);
      && r.store.nextTourId == s.nextTourId && r.store.nextStepId == s.nextStepId
      && r.store.tours == (if f.countUpdateFails then s.tours
                           else s.tours[tourId := old_t.(total_steps := FloorAtZero(old_t.total_steps - 1))])
      && (f.reloadFails ==> r.store.steps == kept)
      && (!f.reloadFails ==> r.store.steps == AssignOrders(kept, IdsOf(TourSteps(kept, tourId)), None, 1))
  {
    if !CheckPasses(s, tourId, userId, f.ownerCheckFails) then Outcome(s, Err(TourNotFoundOrUnauthorized))
    else if f.deleteFails then Outcome(s, Err(DatabaseError))
    else
      assert Owns(s, tourId, userId);
      var t := s.tours[tourId];
      var kept := WithoutStep(s.steps, stepId, tourId);
      var tours := if f.countUpdateFails then s.tours
                   else s.tours[tourId := t.(total_steps := FloorAtZero(t.total_steps - 1))];
      var steps := if f.reloadFails then kept
                   else AssignOrders(kept, IdsOf(TourSteps(kept, tourId)), None, 1);
      Outcome(s.(tours := tours, steps := steps), Ok(()))
  }

  // ---------------------------------------------------------- reorderSteps

  /** Sets `step_order = i + 1` on the tour's row with id `stepIds[i]`, for
      each `i` in turn; the list is not checked against the tour's rows. */
  function ReorderSteps(s: Store, tourId: int, userId: string, stepIds: seq<int>, checkFails: bool)
    : (r: Outcome<()>)
    ensures !CheckPasses(s, tourId, userId, checkFails) ==> r == Outcome(s, Err(TourNotFoundOrUnauthorized))
    ensures r.result.Ok? <==> CheckPasses(s, tourId, userId, checkFails)
    ensures r.store.tours == s.tours
    ensures |r.store.steps| == |s.steps|
    ensures r.result.Ok? ==> forall i :: 0 <= i < |s.steps| ==>
      r.store.steps[i] == (if s.steps[i].tour_id == tourId && s.steps[i].id in stepIds
                           then s.steps[i].(step_order := 1 + LastIndex(stepIds, s.steps[i].id))
                           else s.steps[i])
  {
    if !CheckPasses(s, tourId, userId, checkFails) then Outcome(s, Err(TourNotFoundOrUnauthorized))
    else Outcome(s.(steps := AssignOrders(s.steps, stepIds, Some(tourId), 1)), Ok(()))
  }

  // ----------------------------------------------- tour metadata and status

  function ApplyTourUpdate(t: Tour, u: TourUpdate): (r: Tour)
    ensures r.id == t.id && r.user_id == t.user_id && r.total_steps == t.total_steps
    ensures r.created_at == t.created_at && r.tour_steps == t.tour_steps
    ensures r.title == u.title.GetOr(t.title)
    ensures r.description == u.description.GetOr(t.description)
    ensures r.status == u.status.GetOr(t.status)
  {
    t.(title := u.title.GetOr(t.title),
       description := u.description.GetOr(t.description),
       status := u.status.GetOr(t.status))
  }

  /** `update tours set ... where id = tid and user_id = uid` followed by
      `.single()`: an owner mismatch updates nothing and reports no row. */
  function UpdateTour(s: Store, tourId: int, userId: string, u: TourUpdate, fails: bool)
    : (r: Outcome<Tour>)
    ensures r.result.Ok? <==> Owns(s, tourId, userId) && !fails
    ensures r.result.Err? ==> r.store == s
    ensures r.result.Ok? ==>
      && r.result.value == ApplyTourUpdate(s.tours[tourId], u)
      && r.store == s.(tours := s.tours[tourId := r.result.value])
  {
    if fails then Outcome(s, Err(DatabaseError))
    else if !Owns(s, tourId, userId) then Outcome(s, Err(NoSingleRow))
    else
      var t := ApplyTourUpdate(s.tours[tourId], u);
      Outcome(s.(tours := s.tours[tourId := t]), Ok(t))
  }

  function UpdateTourStatus(s: Store, tourId: int, userId: string, status: string, fails: bool)
    : (r: Outcome<Tour>)
    ensures r.result.Ok? <==> Owns(s, tourId, userId) && !fails
    ensures r.result.Err? ==> r.store == s
    ensures r.result.Ok? ==>
      && r.result.value == s.tours[tourId].(status := status)
      && r.store == s.(tours := s.tours[tourId := r.result.value])
  {
    UpdateTour(s, tourId, userId, TourUpdate(None, None, Some(status)), fails)
  }

  /** The rows `where tour_id = tid`. */
  function InTour(tid: int): Step -> bool {
    (st: Step) => st.tour_id == tid
  }

  /** `delete from tours where id = tid and user_id = uid`; the schema's
      cascade removes the tour's steps. Matching no row is not an error. */
  function DeleteTour(s: Store, tourId: int, userId: string, fails: bool): (r: Outcome<()>)
    ensures fails ==> r == Outcome(s, Err(DatabaseError))
    ensures !fails ==> r.result.Ok?
    ensures !Owns(s, tourId, userId) ==> r.store == s
    ensures !fails && Owns(s, tourId, userId) ==>
      && r.store.tours == s.tours - {tourId}
      && (forall st :: st in r.store.steps <==> st in s.steps && st.tour_id != tourId)
      && r.store.nextTourId == s.nextTourId && r.store.nextStepId == s.nextStepId
  {
    if fails then Outcome(s, Err(DatabaseError))
    else if !Owns(s, tourId, userId) then Outcome(s, Ok(()))
    else
      Outcome(s.(tours := s.tours - {tourId},
                 steps := RemoveRows(s.steps, InTour(tourId))), Ok(()))
  }

  /** The rows `where id = stepId`, in table order. */
  function WithId(steps: seq<Step>, stepId: int): (r: seq<Step>)
    ensures forall st :: st in r <==> st in steps && st.id == stepId
  {
    RemoveRows(steps, (st: Step) => st.id != stepId)
  }

  /** `update tour_steps set completion_rate = rate where id = stepId`
      followed by `.single()`; no owner check is made. */
  function UpdateStepCompletionRate(s: Store, stepId: int, rate: real, fails: bool)
    : (r: Outcome<Step>)
    ensures fails ==> r == Outcome(s, Err(DatabaseError))
    ensures r.store.tours == s.tours && |r.store.steps| == |s.steps|
    ensures r.store.nextTourId == s.nextTourId && r.store.nextStepId == s.nextStepId
    ensures !fails ==> forall i :: 0 <= i < |s.steps| ==>
      r.store.steps[i] == (if s.steps[i].id == stepId
                           then s.steps[i].(completion_rate := rate) else s.steps[i])
    ensures r.result.Ok? <==> !fails && |WithId(s.steps, stepId)| == 1
    ensures r.result.Ok? ==> r.result.value == WithId(s.steps, stepId)[0].(completion_rate := rate)
    ensures !fails && r.result.Err? ==> r.result.error == NoSingleRow
  {
    if fails then Outcome(s, Err(DatabaseError))
    else
      var steps := MapRows(s.steps, (st: Step) => if st.id == stepId then st.(completion_rate := rate) else st);
      var hits := WithId(s.steps, stepId);
      if |hits| == 1 then
        Outcome(s.(steps := steps), Ok(hits[0].(completion_rate := rate)))
      else Outcome(s.(steps := steps), Err(NoSingleRow))
  }
}
