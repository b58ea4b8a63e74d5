/** What `deleteStep` and `reorderSteps` of `lib/supabase.ts` do to step
    orders: a fault-free delete of an existing step renumbers its tour
    `1..N-1` in the old relative order; deleting a step that is not there
    still decrements the cached count; a reorder by a permutation of the
    tour's ids keeps coherence, and one that omits a row leaves a gap. */
module RenumberProps {
  import opened Wrappers
  import opened TourTypes
  import opened StepRows
  import opened TourStore
  import opened TourStoreProps

  // ---------------------------------------------------------------- helpers

  /** In a table with distinct ids, a row is determined by its id. */
  lemma UniqueId(steps: seq<Step>, a: Step, b: Step)
    requires Distinct(IdsOf(steps))
    requires a in steps && b in steps && a.id == b.id
    ensures a == b
  {
    var i :| 0 <= i < |steps| && steps[i] == a;
    var j :| 0 <= j < |steps| && steps[j] == b;
    assert IdsOf(steps)[i] == IdsOf(steps)[j];
  }

  /** Deleting where exactly one row matches removes just that row. */
  lemma {:induction false} RemoveOne(rows: seq<Step>, doomed: Step -> bool, k: int)
    requires 0 <= k < |rows| && doomed(rows[k])
    requires forall j :: 0 <= j < |rows| && j != k ==> !doomed(rows[j])
    ensures RemoveRows(rows, doomed) == rows[..k] + rows[k + 1..]
  {
    var n := |rows|;
    var init, last := rows[..n - 1], rows[n - 1];
    RemoveRowsSnoc(rows, doomed);
    if k == n - 1 {
      KeepAllBefore(rows, doomed);
      DropLast(rows);
    } else {
      RemoveOne(init, doomed, k);
      DropBeforeLast(rows, k);
    }
  }

  lemma DropLast<T>(xs: seq<T>)
    requires xs != []
    ensures xs[..|xs| - 1] + xs[|xs|..] == xs[..|xs| - 1]
  {
  }

  lemma DropBeforeLast<T>(xs: seq<T>, k: int)
    requires 0 <= k < |xs| - 1
    ensures xs[..|xs| - 1][..k] + xs[..|xs| - 1][k + 1..] + [xs[|xs| - 1]] == xs[..k] + xs[k + 1..]
  {
    var init := xs[..|xs| - 1];
    assert init[..k] == xs[..k];
    assert init[k + 1..] + [xs[|xs| - 1]] == xs[k + 1..];
  }

  /** One unfolding of the delete. */
  lemma RemoveRowsSnoc(rows: seq<Step>, doomed: Step -> bool)
    requires rows != []
    ensures RemoveRows(rows, doomed)
         == RemoveRows(rows[..|rows| - 1], doomed) + (if doomed(rows[|rows| - 1]) then [] else [rows[|rows| - 1]])
  {
  }

  /** When only the last row matches, the rows before it all survive. */
  lemma KeepAllBefore(rows: seq<Step>, doomed: Step -> bool)
    requires rows != []
    requires forall j :: 0 <= j < |rows| - 1 ==> !doomed(rows[j])
    ensures RemoveRows(rows[..|rows| - 1], doomed) == rows[..|rows| - 1]
  {
    var init := rows[..|rows| - 1];
    forall st | st in init
      ensures !doomed(st)
    {
      var j :| 0 <= j < |init| && init[j] == st;
      assert rows[j] == st;
    }
    RemoveNothing(init, doomed);
  }

  /** A change of orders alone, with the same tours, keeps the store
      well-formed. */
  lemma SameRowsWellFormed(s: Store, s': Store)
    requires WellFormed(s)
    requires forall k :: k in s'.tours <==> k in s.tours
    requires forall k :: k in s'.tours ==> s'.tours[k].id == k
    requires s'.nextTourId == s.nextTourId && s'.nextStepId == s.nextStepId
    requires |s'.steps| == |s.steps|
    requires forall i :: 0 <= i < |s.steps| ==>
      s'.steps[i].id == s.steps[i].id && s'.steps[i].tour_id == s.steps[i].tour_id
    ensures WellFormed(s')
  {
    assert IdsOf(s'.steps) == IdsOf(s.steps);
  }

  /** Deleting one step keeps the store well-formed. */
  lemma WithoutStepWellFormed(s: Store, stepId: int, tid: int)
    requires WellFormed(s)
    ensures WellFormed(s.(steps := WithoutStep(s.steps, stepId, tid)))
  {
    var kept := WithoutStep(s.steps, stepId, tid);
    DistinctRemoveRows(s.steps, IsStep(stepId, tid));
    forall i | 0 <= i < |kept|
      ensures kept[i].id < s.nextStepId && kept[i].tour_id in s.tours
    {
      assert kept[i] in s.steps;
      var j :| 0 <= j < |s.steps| && s.steps[j] == kept[i];
    }
  }

  /** Deleting a step that is in the tour drops the tour's count by one and
      leaves every other tour's rows alone. */
  lemma WithoutStepRows(steps: seq<Step>, stepId: int, tid: int, other: int)
    requires Distinct(IdsOf(steps))
    requires stepId in IdsOf(StepsOf(steps, tid))
    ensures StepCount(WithoutStep(steps, stepId, tid), tid) == StepCount(steps, tid) - 1
    ensures other != tid ==> StepsOf(WithoutStep(steps, stepId, tid), other) == StepsOf(steps, other)
  {
    var doomed := IsStep(stepId, tid);
    var rows := StepsOf(steps, tid);
    RemoveRowsStepsOf(steps, doomed, tid);
    DistinctStepsOf(steps, tid);
    OwnRows(steps, tid);
    var k :| 0 <= k < |rows| && IdsOf(rows)[k] == stepId;
    forall j | 0 <= j < |rows| && j != k
      ensures !doomed(rows[j])
    {
      assert IdsOf(rows)[j] != IdsOf(rows)[k];
    }
    RemoveOne(rows, doomed, k);
    if other != tid {
      StepsOfMembers(steps, other);
      RemoveOtherRows(steps, doomed, other);
    }
  }

  /** The renumbering pass after a delete: the ids of the tour's rows in
      ascending order of `step_order`. */
  function RenumberIds(kept: seq<Step>, tid: int): (ids: seq<int>)
    ensures multiset(ids) == multiset(IdsOf(StepsOf(kept, tid)))
  {
    var sorted := TourSteps(kept, tid);
    IdsOfMultiset(sorted, StepsOf(kept, tid));
    IdsOf(sorted)
  }

  /** Every id the renumbering lists belongs, in a table with distinct
      ids, to a row of the tour only. */
  lemma RenumberIdsOwn(kept: seq<Step>, tid: int)
    requires Distinct(IdsOf(kept))
    ensures forall st :: st in kept && st.id in RenumberIds(kept, tid) ==> st.tour_id == tid
  {
    var ids := RenumberIds(kept, tid);
    var rows := StepsOf(kept, tid);
    StepsOfMembers(kept, tid);
    forall st | st in kept && st.id in ids
      ensures st.tour_id == tid
    {
      assert st.id in multiset(IdsOf(rows));
      var i :| 0 <= i < |rows| && IdsOf(rows)[i] == st.id;
      assert rows[i] in rows;
      UniqueId(kept, st, rows[i]);
    }
  }

  /** The renumbering pass numbers the tour `1..N`, keeps its row count,
      leaves every other tour's rows alone and changes no id or tour. */
  lemma RenumberContiguous(kept: seq<Step>, tid: int, other: int)
    requires Distinct(IdsOf(kept))
    ensures var r := AssignOrders(kept, RenumberIds(kept, tid), None, 1);
      && Contiguous(r, tid) && StepCount(r, tid) == StepCount(kept, tid)
      && (other != tid ==> StepsOf(r, other) == StepsOf(kept, other))
  {
    var ids := RenumberIds(kept, tid);
    DistinctStepsOf(kept, tid);
    AssignPermutationContiguous(kept, ids, None, tid);
    if other != tid {
      RenumberIdsOwn(kept, tid);
      AssignOrdersOtherTour(kept, ids, None, 1, tid, other);
    }
  }

  // -------------------------------------------------------------- deleteStep

  /** The store after deleting an existing step, decrementing the count
      and renumbering is coherent. */
  lemma RenumberedStoreCoherent(s: Store, s': Store, stepId: int, tourId: int)
    requires Coherent(s) && tourId in s.tours
    requires stepId in IdsOf(StepsOf(s.steps, tourId))
    requires var kept := WithoutStep(s.steps, stepId, tourId);
      s'.steps == AssignOrders(kept, RenumberIds(kept, tourId), None, 1)
    requires s'.tours == s.tours[tourId := s.tours[tourId].(total_steps := s.tours[tourId].total_steps - 1)]
    requires s'.nextTourId == s.nextTourId && s'.nextStepId == s.nextStepId
    ensures Coherent(s')
  {
    RenumberedWellFormed(s, s', stepId, tourId);
    forall t | t in s'.tours
      ensures Contiguous(s'.steps, t) && s'.tours[t].total_steps == StepCount(s'.steps, t)
    {
      RenumberedTour(s, s', stepId, tourId, t);
    }
  }

  lemma RenumberedTour(s: Store, s': Store, stepId: int, tourId: int, t: int)
    requires Coherent(s) && tourId in s.tours && t in s.tours
    requires stepId in IdsOf(StepsOf(s.steps, tourId))
    requires var kept := WithoutStep(s.steps, stepId, tourId);
      s'.steps == AssignOrders(kept, RenumberIds(kept, tourId), None, 1)
    requires s'.tours == s.tours[tourId := s.tours[tourId].(total_steps := s.tours[tourId].total_steps - 1)]
    ensures Contiguous(s'.steps, t) && s'.tours[t].total_steps == StepCount(s'.steps, t)
  {
    DeleteRenumberRows(s.steps, stepId, tourId, t);
    assert Contiguous(s.steps, t) && s.tours[t].total_steps == StepCount(s.steps, t);
  }

  lemma RenumberedWellFormed(s: Store, s': Store, stepId: int, tourId: int)
    requires WellFormed(s) && tourId in s.tours
    requires var kept := WithoutStep(s.steps, stepId, tourId);
      s'.steps == AssignOrders(kept, RenumberIds(kept, tourId), None, 1)
    requires s'.tours == s.tours[tourId := s.tours[tourId].(total_steps := s.tours[tourId].total_steps - 1)]
    requires s'.nextTourId == s.nextTourId && s'.nextStepId == s.nextStepId
    ensures WellFormed(s')
  {
    var kept := WithoutStep(s.steps, stepId, tourId);
    WithoutStepWellFormed(s, stepId, tourId);
    OrdersOnly(kept, RenumberIds(kept, tourId), None, 1);
    RecountWellFormed(s.(steps := kept), s', tourId, s.tours[tourId].total_steps - 1);
  }

  /** Changing one tour's cached count, and only the orders of the rows,
      keeps the store well-formed. */
  lemma RecountWellFormed(s: Store, s': Store, tourId: int, n: int)
    requires WellFormed(s) && tourId in s.tours
    requires s'.tours == s.tours[tourId := s.tours[tourId].(total_steps := n)]
    requires s'.nextTourId == s.nextTourId && s'.nextStepId == s.nextStepId
    requires |s'.steps| == |s.steps|
    requires forall i :: 0 <= i < |s.steps| ==>
      s'.steps[i].id == s.steps[i].id && s'.steps[i].tour_id == s.steps[i].tour_id
    ensures WellFormed(s')
  {
    SameRowsWellFormed(s, s');
  }

  /** Assigning orders leaves every row's id and tour where they were. */
  lemma OrdersOnly(steps: seq<Step>, ids: seq<int>, scope: Option<int>, first: int)
    ensures var r := AssignOrders(steps, ids, scope, first);
      && |r| == |steps|
      && forall i :: 0 <= i < |steps| ==> r[i].id == steps[i].id && r[i].tour_id == steps[i].tour_id
  {
  }

  /** Delete-then-renumber, seen from one tour: the tour itself loses a row
      and is numbered `1..N-1`; any other tour's rows are unchanged. */
  lemma DeleteRenumberRows(steps: seq<Step>, stepId: int, tourId: int, t: int)
    requires Distinct(IdsOf(steps))
    requires stepId in IdsOf(StepsOf(steps, tourId))
    ensures var kept := WithoutStep(steps, stepId, tourId);
      var r := AssignOrders(kept, RenumberIds(kept, tourId), None, 1);
      && (t == tourId ==> Contiguous(r, t) && StepCount(r, t) == StepCount(steps, t) - 1)
      && (t != tourId ==> StepsOf(r, t) == StepsOf(steps, t))
  {
    var kept := WithoutStep(steps, stepId, tourId);
    DistinctRemoveRows(steps, IsStep(stepId, tourId));
    WithoutStepRows(steps, stepId, tourId, t);
    RenumberContiguous(kept, tourId, t);
  }

  /** A fault-free delete of a step that is in the tour keeps every tour
      coherent: the tour is renumbered `1..N-1` and its count drops by one. */
  lemma DeleteStepKeepsCoherent(s: Store, stepId: int, tourId: int, userId: string)
    requires Coherent(s)
    requires Owns(s, tourId, userId)
    requires stepId in IdsOf(StepsOf(s.steps, tourId))
    ensures var r := DeleteStep(s, stepId, tourId, userId, DeleteFaults(false, false, false, false));
      && r.result.Ok?
      && StepCount(r.store.steps, tourId) == StepCount(s.steps, tourId) - 1
      && Coherent(r.store)
  {
    var r := DeleteStep(s, stepId, tourId, userId, DeleteFaults(false, false, false, false));
    var kept := WithoutStep(s.steps, stepId, tourId);
    assert RenumberIds(kept, tourId) == IdsOf(TourSteps(kept, tourId));
    RenumberedStoreCoherent(s, r.store, stepId, tourId);
    DeleteRenumberRows(s.steps, stepId, tourId, tourId);
  }

  /** Deleting a step id that is not in a non-empty coherent tour deletes
      nothing, yet the cached count still drops by one: the tour is left
      incoherent. */
  lemma DeleteMissingStepDrifts(s: Store, stepId: int, tourId: int, userId: string)
    requires Coherent(s)
    requires Owns(s, tourId, userId)
    requires stepId !in IdsOf(StepsOf(s.steps, tourId))
    requires StepCount(s.steps, tourId) > 0
    ensures var r := DeleteStep(s, stepId, tourId, userId, DeleteFaults(false, false, false, false));
      && r.result.Ok?
      && StepCount(r.store.steps, tourId) == StepCount(s.steps, tourId)
      && r.store.tours[tourId].total_steps == StepCount(r.store.steps, tourId) - 1
      && !Coherent(r.store)
  {
    var kept := WithoutStep(s.steps, stepId, tourId);
    var rows := StepsOf(s.steps, tourId);
    StepsOfMembers(s.steps, tourId);
    forall st | st in s.steps
      ensures !IsStep(stepId, tourId)(st)
    {
      if st.tour_id == tourId {
        var i :| 0 <= i < |rows| && rows[i] == st;
        assert IdsOf(rows)[i] == st.id;
      }
    }
    RemoveNothing(s.steps, IsStep(stepId, tourId));
    assert RenumberIds(kept, tourId) == IdsOf(TourSteps(kept, tourId));
    RenumberContiguous(kept, tourId, tourId);
  }

  /** The renumbering keeps the tour's relative order: two rows whose old
      orders were strictly ascending get strictly ascending new orders. */
  lemma RenumberKeepsRelativeOrder(kept: seq<Step>, tid: int, i: int, j: int)
    requires Distinct(IdsOf(kept))
    requires 0 <= i < |StepsOf(kept, tid)| && 0 <= j < |StepsOf(kept, tid)|
    requires StepsOf(kept, tid)[i].step_order < StepsOf(kept, tid)[j].step_order
    ensures var rows' := StepsOf(AssignOrders(kept, RenumberIds(kept, tid), None, 1), tid);
      |rows'| == |StepsOf(kept, tid)| && rows'[i].step_order < rows'[j].step_order
  {
    var rows := StepsOf(kept, tid);
    var sorted := TourSteps(kept, tid);
    var ids := RenumberIds(kept, tid);
    assert ids == IdsOf(sorted);
    DistinctStepsOf(kept, tid);
    RankOrder(rows, sorted, i, j);
    AssignOrdersKeepsRows(kept, ids, None, 1, tid);
    var rows' := StepsOf(AssignOrders(kept, ids, None, 1), tid);
    assert rows'[i].step_order == 1 + LastIndex(ids, rows[i].id);
    assert rows'[j].step_order == 1 + LastIndex(ids, rows[j].id);
  }

  /** Rows with distinct ids, sorted stably by order: a row of strictly
      lower order is listed strictly earlier. */
  lemma RankOrder(rows: seq<Step>, sorted: seq<Step>, i: int, j: int)
    requires Distinct(IdsOf(rows))
    requires multiset(sorted) == multiset(rows)
    requires forall a, b :: 0 <= a < b < |sorted| ==> sorted[a].step_order <= sorted[b].step_order
    requires 0 <= i < |rows| && 0 <= j < |rows| && rows[i].step_order < rows[j].step_order
    ensures rows[i].id in IdsOf(sorted) && rows[j].id in IdsOf(sorted)
    ensures LastIndex(IdsOf(sorted), rows[i].id) < LastIndex(IdsOf(sorted), rows[j].id)
  {
    var ids := IdsOf(sorted);
    IdsOfMultiset(rows, sorted);
    DistinctByMultiset(IdsOf(rows), ids);
    var p := SortedPosition(rows, sorted, i);
    var q := SortedPosition(rows, sorted, j);
  }

  /** Where a tour's row sits in the sorted copy the renumbering lists. */
  lemma SortedPosition(rows: seq<Step>, sorted: seq<Step>, i: int) returns (p: int)
    requires Distinct(IdsOf(rows))
    requires multiset(sorted) == multiset(rows)
    requires 0 <= i < |rows|
    ensures 0 <= p < |sorted| && sorted[p] == rows[i]
    ensures rows[i].id in IdsOf(sorted) && IdsOf(sorted)[p] == rows[i].id
  {
    assert rows[i] in multiset(sorted);
    p :| 0 <= p < |sorted| && sorted[p] == rows[i];
  }

  /** A fault-free delete keeps, within the tour, the relative order of the
      surviving rows. */
  lemma DeleteStepKeepsRelativeOrder(s: Store, stepId: int, tourId: int, userId: string, i: int, j: int)
    requires WellFormed(s) && Owns(s, tourId, userId)
    requires var kept := StepsOf(WithoutStep(s.steps, stepId, tourId), tourId);
      0 <= i < |kept| && 0 <= j < |kept| && kept[i].step_order < kept[j].step_order
    ensures var rows' := StepsOf(DeleteStep(s, stepId, tourId, userId, DeleteFaults(false, false, false, false)).store.steps, tourId);
      0 <= i < |rows'| && 0 <= j < |rows'| && rows'[i].step_order < rows'[j].step_order
  {
    var kept := WithoutStep(s.steps, stepId, tourId);
    WithoutStepWellFormed(s, stepId, tourId);
    assert RenumberIds(kept, tourId) == IdsOf(TourSteps(kept, tourId));
    AssignOrdersKeepsRows(kept, RenumberIds(kept, tourId), None, 1, tourId);
    RenumberKeepsRelativeOrder(kept, tourId, i, j);
  }

  // ------------------------------------------------------------ reorderSteps

  /** Renumbering a tour by a permutation of its own ids, scoped to the
      tour, keeps the store coherent. */
  lemma ReorderedStoreCoherent(s: Store, s': Store, tourId: int, stepIds: seq<int>)
    requires Coherent(s)
    requires multiset(stepIds) == multiset(IdsOf(StepsOf(s.steps, tourId)))
    requires s' == s.(steps := AssignOrders(s.steps, stepIds, Some(tourId), 1))
    ensures Coherent(s')
  {
    ReorderedWellFormed(s, s', tourId, stepIds);
    forall t | t in s'.tours
      ensures Contiguous(s'.steps, t) && s'.tours[t].total_steps == StepCount(s'.steps, t)
    {
      ReorderedTour(s, tourId, stepIds, t);
    }
  }

  /** Reordering changes only orders, so the store stays well-formed. */
  lemma ReorderedWellFormed(s: Store, s': Store, tourId: int, stepIds: seq<int>)
    requires WellFormed(s)
    requires s' == s.(steps := AssignOrders(s.steps, stepIds, Some(tourId), 1))
    ensures WellFormed(s')
  {
    SameRowsWellFormed(s, s');
  }

  /** Each tour is coherent after a permutation reorder of `tourId`. */
  lemma ReorderedTour(s: Store, tourId: int, stepIds: seq<int>, t: int)
    requires Coherent(s) && t in s.tours
    requires multiset(stepIds) == multiset(IdsOf(StepsOf(s.steps, tourId)))
    ensures var steps' := AssignOrders(s.steps, stepIds, Some(tourId), 1);
      Contiguous(steps', t) && s.tours[t].total_steps == StepCount(steps', t)
  {
    if t == tourId {
      DistinctStepsOf(s.steps, tourId);
      AssignPermutationContiguous(s.steps, stepIds, Some(tourId), tourId);
    } else {
      AssignOrdersOtherTour(s.steps, stepIds, Some(tourId), 1, tourId, t);
    }
  }

  /** Every row of a tour is listed by a permutation of the tour's ids. */
  lemma PermutationListsAll(steps: seq<Step>, tourId: int, stepIds: seq<int>)
    requires multiset(stepIds) == multiset(IdsOf(StepsOf(steps, tourId)))
    ensures forall i :: 0 <= i < |steps| && steps[i].tour_id == tourId ==> steps[i].id in stepIds
  {
    var rows := StepsOf(steps, tourId);
    StepsOfMembers(steps, tourId);
    forall i | 0 <= i < |steps| && steps[i].tour_id == tourId
      ensures steps[i].id in stepIds
    {
      assert steps[i] in rows;
      var k :| 0 <= k < |rows| && rows[k] == steps[i];
      assert IdsOf(rows)[k] in multiset(stepIds);
    }
  }

  /** Reordering by a permutation of the tour's own step ids keeps every
      tour coherent and gives each row the position of its id plus one. */
  lemma ReorderPermutationKeepsCoherent(s: Store, tourId: int, userId: string, stepIds: seq<int>)
    requires Coherent(s) && Owns(s, tourId, userId)
    requires multiset(stepIds) == multiset(IdsOf(StepsOf(s.steps, tourId)))
    ensures var r := ReorderSteps(s, tourId, userId, stepIds, false);
      && r.result.Ok?
      && Coherent(r.store)
      && forall i :: 0 <= i < |s.steps| && s.steps[i].tour_id == tourId ==>
           s.steps[i].id in stepIds && r.store.steps[i].step_order == 1 + LastIndex(stepIds, s.steps[i].id)
  {
    var r := ReorderSteps(s, tourId, userId, stepIds, false);
    PermutationListsAll(s.steps, tourId, stepIds);
    ReorderedStoreCoherent(s, r.store, tourId, stepIds);
  }

  /** Reordering that lists every row of the tour but one, whose order is
      not the highest, gives the listed rows `1..N-1` and leaves the
      omitted row where it was: order `N` is then missing. */
  lemma ReorderOmissionBreaksContiguity(s: Store, tourId: int, userId: string, stepIds: seq<int>, x: Step)
    requires WellFormed(s) && Owns(s, tourId, userId)
    requires x in StepsOf(s.steps, tourId) && x.step_order < StepCount(s.steps, tourId)
    requires multiset(stepIds) + multiset{x.id} == multiset(IdsOf(StepsOf(s.steps, tourId)))
    ensures var r := ReorderSteps(s, tourId, userId, stepIds, false);
      && r.result.Ok?
      && StepCount(r.store.steps, tourId) !in Orders(StepsOf(r.store.steps, tourId))
      && !Contiguous(r.store.steps, tourId)
      && !Coherent(r.store)
  {
    var r := ReorderSteps(s, tourId, userId, stepIds, false);
    var rows := StepsOf(s.steps, tourId);
    var rows' := StepsOf(r.store.steps, tourId);
    var n := |rows|;
    AssignOrdersKeepsRows(s.steps, stepIds, Some(tourId), 1, tourId);
    OwnRows(s.steps, tourId);
    DistinctStepsOf(s.steps, tourId);
    assert |multiset(IdsOf(rows))| == n;
    assert |multiset(stepIds) + multiset{x.id}| == |multiset(stepIds)| + 1;
    assert |stepIds| == n - 1;
    forall k | 0 <= k < n
      ensures rows'[k].step_order < n
    {
      if rows[k].id !in stepIds {
        assert IdsOf(rows)[k] in multiset(IdsOf(rows));
        assert rows[k].id == x.id;
        XRowUnique(rows, x, k);
      }
    }
    assert n in Range(n);
    forall o | o in Orders(rows')
      ensures o < n
    {
      var st :| st in rows' && st.step_order == o;
      var k :| 0 <= k < n && rows'[k] == st;
    }
  }

  /** The row whose id the list leaves out is the omitted row itself. */
  lemma XRowUnique(rows: seq<Step>, x: Step, k: int)
    requires Distinct(IdsOf(rows))
    requires x in rows && 0 <= k < |rows| && rows[k].id == x.id
    ensures rows[k] == x
  {
    UniqueId(rows, rows[k], x);
  }
}
