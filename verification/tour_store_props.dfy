/** What the data-access functions of `lib/supabase.ts` guarantee together:
    order contiguity and the cached count survive every fault-free mutation,
    and the paths the source leaves unguarded break them in the ways shown. */
module TourStoreProps {
  import opened Wrappers
  import opened TourTypes
  import opened StepRows
  import opened TourStore

  // ---------------------------------------------------------------- helpers

  lemma StepsOfNone(steps: seq<Step>, tid: int)
    requires forall i :: 0 <= i < |steps| ==> steps[i].tour_id != tid
    ensures StepsOf(steps, tid) == []
  {
    StepsOfMembers(steps, tid);
  }

  lemma {:induction false} StepsOfAll(steps: seq<Step>, tid: int)
    requires forall i :: 0 <= i < |steps| ==> steps[i].tour_id == tid
    ensures StepsOf(steps, tid) == steps
  {
    if steps != [] {
      StepsOfAll(steps[..|steps| - 1], tid);
      assert steps == steps[..|steps| - 1] + [steps[|steps| - 1]];
    }
  }

  lemma OrdersConcat(a: seq<Step>, b: seq<Step>)
    ensures Orders(a + b) == Orders(a) + Orders(b)
  {
    forall o | o in Orders(a + b)
      ensures o in Orders(a) + Orders(b)
    {
      var st :| st in a + b && st.step_order == o;
      assert st in a || st in b;
    }
    forall o | o in Orders(a) + Orders(b)
      ensures o in Orders(a + b)
    {
      if o in Orders(a) {
        var st :| st in a && st.step_order == o;
        assert st in a + b;
      } else {
        var st :| st in b && st.step_order == o;
        assert st in a + b;
      }
    }
  }

  /** Two tables whose rows agree, position by position, on id, tour and
      order: they differ at most in text and completion rate. */
  predicate SameSkeleton(a: seq<Step>, b: seq<Step>) {
    && |a| == |b|
    && forall i :: 0 <= i < |a| ==>
         a[i].id == b[i].id && a[i].tour_id == b[i].tour_id && a[i].step_order == b[i].step_order
  }

  lemma {:induction false} SkeletonStepsOf(a: seq<Step>, b: seq<Step>, tid: int)
    requires SameSkeleton(a, b)
    ensures |StepsOf(a, tid)| == |StepsOf(b, tid)|
    ensures Orders(StepsOf(a, tid)) == Orders(StepsOf(b, tid))
  {
    if a != [] {
      var n := |a|;
      assert a == a[..n - 1] + [a[n - 1]];
      assert b == b[..n - 1] + [b[n - 1]];
      SkeletonStepsOf(a[..n - 1], b[..n - 1], tid);
      var ea := if a[n - 1].tour_id == tid then [a[n - 1]] else [];
      var eb := if b[n - 1].tour_id == tid then [b[n - 1]] else [];
      OrdersConcat(StepsOf(a[..n - 1], tid), ea);
      OrdersConcat(StepsOf(b[..n - 1], tid), eb);
      assert Orders(ea) == Orders(eb);
    }
  }

  /** A change that keeps the tours, the next ids and the skeleton of the
      steps keeps coherence. */
  lemma SkeletonKeepsCoherent(s: Store, s': Store)
    requires Coherent(s)
    requires s'.tours == s.tours && s'.nextTourId == s.nextTourId && s'.nextStepId == s.nextStepId
    requires SameSkeleton(s.steps, s'.steps)
    ensures Coherent(s')
  {
    assert IdsOf(s.steps) == IdsOf(s'.steps);
    forall tid | tid in s'.tours
      ensures Contiguous(s'.steps, tid) && s'.tours[tid].total_steps == StepCount(s'.steps, tid)
    {
      SkeletonStepsOf(s.steps, s'.steps, tid);
    }
  }

  /** Rows of a well-formed table, restricted to one tour, have distinct ids. */
  lemma {:induction false} DistinctStepsOf(steps: seq<Step>, tid: int)
    requires Distinct(IdsOf(steps))
    ensures Distinct(IdsOf(StepsOf(steps, tid)))
  {
    if steps != [] {
      var init, last := steps[..|steps| - 1], steps[|steps| - 1];
      assert IdsOf(init) == IdsOf(steps)[..|steps| - 1];
      DistinctStepsOf(init, tid);
      var rows := StepsOf(init, tid);
      if last.tour_id == tid {
        StepsOfMembers(init, tid);
        forall k | 0 <= k < |rows|
          ensures rows[k].id != last.id
        {
          assert rows[k] in init;
          var j :| 0 <= j < |init| && init[j] == rows[k];
          assert IdsOf(steps)[j] == rows[k].id;
        }
        assert IdsOf(rows + [last]) == IdsOf(rows) + [last.id];
      }
    }
  }

  /** Appending rows with fresh, increasing ids keeps ids distinct. */
  lemma AppendDistinct(steps: seq<Step>, added: seq<Step>, next: int)
    requires Distinct(IdsOf(steps))
    requires forall i :: 0 <= i < |steps| ==> steps[i].id < next
    requires forall i :: 0 <= i < |added| ==> added[i].id == next + i
    ensures Distinct(IdsOf(steps + added))
  {
    var all := steps + added;
    forall i, j | 0 <= i < j < |all|
      ensures IdsOf(all)[i] != IdsOf(all)[j]
    {
      if j < |steps| {
        assert IdsOf(steps)[i] != IdsOf(steps)[j];
      } else if i >= |steps| {
        assert all[i] == added[i - |steps|] && all[j] == added[j - |steps|];
      } else {
        assert all[i] == steps[i] && all[j] == added[j - |steps|];
      }
    }
  }

  /** A new tour numbered `1..N` with `N` rows, appended with fresh ids to a
      coherent store, leaves it coherent. */
  lemma AppendTourCoherent(s: Store, s': Store, t: Tour, added: seq<Step>)
    requires Coherent(s)
    requires t.id == s.nextTourId && t.total_steps == |added|
    requires s'.tours == s.tours[t.id := t] && s'.steps == s.steps + added
    requires s'.nextTourId > t.id && s'.nextStepId == s.nextStepId + |added|
    requires forall i :: 0 <= i < |added| ==>
      added[i].id == s.nextStepId + i && added[i].tour_id == t.id && added[i].step_order == i + 1
    ensures Coherent(s')
  {
    var tid := t.id;
    AppendDistinct(s.steps, added, s.nextStepId);
    forall i | 0 <= i < |s'.steps|
      ensures s'.steps[i].id < s'.nextStepId && s'.steps[i].tour_id in s'.tours
    {
      if i >= |s.steps| {
        assert s'.steps[i] == added[i - |s.steps|];
      }
    }
    assert forall i :: 0 <= i < |s.steps| ==> s.steps[i].tour_id != tid;
    forall tt | tt in s'.tours
      ensures Contiguous(s'.steps, tt) && s'.tours[tt].total_steps == StepCount(s'.steps, tt)
    {
      AppendedRows(s.steps, added, tid, tt);
    }
  }

  /** Rows numbered by position have orders exactly `1..N`. */
  lemma {:induction false} OrdersNumbered(rows: seq<Step>)
    requires forall i :: 0 <= i < |rows| ==> rows[i].step_order == i + 1
    ensures Orders(rows) == Range(|rows|)
  {
    if rows != [] {
      var init := rows[..|rows| - 1];
      assert rows == init + [rows[|rows| - 1]];
      OrdersNumbered(init);
      OrdersConcat(init, [rows[|rows| - 1]]);
      assert Orders([rows[|rows| - 1]]) == {|rows|};
    }
  }

  lemma AppendedRows(steps: seq<Step>, added: seq<Step>, tid: int, tt: int)
    requires forall i :: 0 <= i < |steps| ==> steps[i].tour_id != tid
    requires forall i :: 0 <= i < |added| ==> added[i].tour_id == tid && added[i].step_order == i + 1
    ensures tt == tid ==> StepsOf(steps + added, tt) == added && Orders(added) == Range(|added|)
    ensures tt != tid ==> StepsOf(steps + added, tt) == StepsOf(steps, tt)
  {
    StepsOfAppend(steps, added, tt);
    if tt == tid {
      StepsOfNone(steps, tid);
      StepsOfAll(added, tid);
      OrdersNumbered(added);
    } else {
      StepsOfNone(added, tt);
      assert StepsOf(steps, tt) + [] == StepsOf(steps, tt);
    }
  }

  // -------------------------------------------------------------- createTour

  /** Creating a tour keeps every tour coherent, unless the step insert and
      then the rollback both fail, which strands a tour whose cached count
      promises steps it does not have. */
  lemma CreateTourKeepsCoherent(s: Store, userId: string, input: CreateTourInput, now: int, f: CreateFaults)
    requires Coherent(s)
    requires !(f.stepsInsertFails && f.rollbackFails && Items(input) != [])
    ensures Coherent(CreateTour(s, userId, input, now, f).store)
  {
    var r := CreateTour(s, userId, input, now, f);
    var s' := r.store;
    if r.result.Ok? {
      var added := s'.steps[|s.steps|..];
      assert s'.steps == s.steps + added;
      AppendTourCoherent(s, s', r.result.value, added);
    } else if s' != s {
      assert s'.steps == s.steps && s'.tours == s.tours;
    }
  }

  /** When the step insert fails and so does the compensating delete, the
      new tour is left behind with a count of `|items|` and no rows. */
  lemma CreateTourStrandsOnRollbackFailure(s: Store, userId: string, input: CreateTourInput, now: int)
    requires WellFormed(s) && Items(input) != []
    ensures var r := CreateTour(s, userId, input, now, CreateFaults(false, true, true));
      && r.result.Err?
      && s.nextTourId in r.store.tours
      && r.store.tours[s.nextTourId].total_steps == |Items(input)|
      && StepCount(r.store.steps, s.nextTourId) == 0
      && !Coherent(r.store)
  {
    var r := CreateTour(s, userId, input, now, CreateFaults(false, true, true));
    forall i | 0 <= i < |s.steps|
      ensures s.steps[i].tour_id != s.nextTourId
    {
      assert s.steps[i].tour_id in s.tours;
    }
    StepsOfNone(s.steps, s.nextTourId);
  }

  // ----------------------------------------------------------- addStepToTour

  /** The order `max + 1` chosen for a new step is `N + 1` when the tour's
      orders are already `1..N`. */
  lemma NextOrderIsCount(rows: seq<Step>, o: int)
    requires Orders(rows) == Range(|rows|)
    requires forall x :: x in Orders(rows) ==> x < o
    requires rows == [] ==> o == 1
    requires rows != [] ==> o - 1 in Orders(rows)
    ensures o == |rows| + 1
  {
    if rows != [] {
      assert |rows| in Range(|rows|);
    }
  }

  /** One row appended: only its own tour sees it, at the end. */
  lemma AppendOneRows(steps: seq<Step>, st: Step, tt: int)
    ensures StepsOf(steps + [st], tt)
         == if st.tour_id == tt then StepsOf(steps, tt) + [st] else StepsOf(steps, tt)
  {
    StepsOfAppend(steps, [st], tt);
    assert StepsOf([st], tt) == if st.tour_id == tt then [st] else [];
    assert StepsOf(steps, tt) + [] == StepsOf(steps, tt);
  }

  /** A tour numbered `1..N` extended by a row at `N + 1` is numbered `1..N+1`. */
  lemma ExtendContiguous(rows: seq<Step>, st: Step)
    requires Orders(rows) == Range(|rows|)
    requires st.step_order == |rows| + 1
    ensures Orders(rows + [st]) == Range(|rows + [st]|)
  {
    OrdersConcat(rows, [st]);
    assert Orders([st]) == {st.step_order};
  }

  /** A row at `N + 1` with a fresh id, appended to its tour in a coherent
      store whose count is bumped, leaves the store coherent. */
  lemma AppendStepCoherent(s: Store, s': Store, st: Step)
    requires Coherent(s)
    requires st.tour_id in s.tours && st.id == s.nextStepId
    requires st.step_order == StepCount(s.steps, st.tour_id) + 1
    requires s'.steps == s.steps + [st] && s'.nextStepId == s.nextStepId + 1
    requires s'.nextTourId == s.nextTourId
    requires s'.tours == s.tours[st.tour_id := s.tours[st.tour_id].(total_steps := s.tours[st.tour_id].total_steps + 1)]
    ensures Coherent(s')
  {
    AppendDistinct(s.steps, [st], s.nextStepId);
    forall i | 0 <= i < |s'.steps|
      ensures s'.steps[i].id < s'.nextStepId && s'.steps[i].tour_id in s'.tours
    {
      if i == |s.steps| {
        assert s'.steps[i] == st;
      }
    }
    forall tt | tt in s'.tours
      ensures Contiguous(s'.steps, tt) && s'.tours[tt].total_steps == StepCount(s'.steps, tt)
    {
      AppendOneRows(s.steps, st, tt);
      if tt == st.tour_id {
        ExtendContiguous(StepsOf(s.steps, tt), st);
      }
    }
  }

  /** On a coherent store a fault-free add appends at order `N + 1`, and
      every tour stays coherent. */
  lemma AddStepKeepsCoherent(s: Store, tourId: int, userId: string, input: StepInput)
    requires Coherent(s)
    requires Owns(s, tourId, userId)
    ensures var r := AddStepToTour(s, tourId, userId, input, AddFaults(false, false, false, false));
      && r.result.Ok?
      && r.result.value.step_order == StepCount(s.steps, tourId) + 1
      && Coherent(r.store)
  {
    var r := AddStepToTour(s, tourId, userId, input, AddFaults(false, false, false, false));
    var st := r.result.value;
    NextOrderIsCount(StepsOf(s.steps, tourId), st.step_order);
    AppendStepCoherent(s, r.store, st);
  }

  // -------------------------------------------------------------- updateStep

  /** Editing a step's text never disturbs orders or counts. */
  lemma UpdateStepKeepsCoherent(s: Store, stepId: int, tourId: int, userId: string, u: StepUpdate,
                                 checkFails: bool, fails: bool)
    requires Coherent(s)
    ensures Coherent(UpdateStep(s, stepId, tourId, userId, u, checkFails, fails).store)
  {
    var s' := UpdateStep(s, stepId, tourId, userId, u, checkFails, fails).store;
    SkeletonKeepsCoherent(s, s');
  }

  /** Recording a completion rate never disturbs orders or counts. */
  lemma CompletionRateKeepsCoherent(s: Store, stepId: int, rate: real, fails: bool)
    requires Coherent(s)
    ensures Coherent(UpdateStepCompletionRate(s, stepId, rate, fails).store)
  {
    var s' := UpdateStepCompletionRate(s, stepId, rate, fails).store;
    SkeletonKeepsCoherent(s, s');
  }

  // ----------------------------------------------------------------- tours

  /** Editing a tour's title, description or status keeps coherence. */
  lemma UpdateTourKeepsCoherent(s: Store, tourId: int, userId: string, u: TourUpdate, fails: bool)
    requires Coherent(s)
    ensures Coherent(UpdateTour(s, tourId, userId, u, fails).store)
  {
    var s' := UpdateTour(s, tourId, userId, u, fails).store;
    forall t | t in s'.tours
      ensures Contiguous(s'.steps, t) && s'.tours[t].total_steps == StepCount(s'.steps, t)
    {
    }
  }

  /** Deleting rows keeps ids distinct, fresh and pointing at live tours
      when the tours dropped are exactly those of the deleted rows. */
  lemma RemoveTourWellFormed(s: Store, s': Store, tid: int)
    requires WellFormed(s)
    requires s'.tours == s.tours - {tid} && s'.steps == RemoveRows(s.steps, InTour(tid))
    requires s'.nextTourId == s.nextTourId && s'.nextStepId == s.nextStepId
    ensures WellFormed(s')
  {
    DistinctRemoveRows(s.steps, InTour(tid));
    forall i | 0 <= i < |s'.steps|
      ensures s'.steps[i].id < s'.nextStepId && s'.steps[i].tour_id in s'.tours
    {
      assert s'.steps[i] in s.steps;
      var j :| 0 <= j < |s.steps| && s.steps[j] == s'.steps[i];
    }
  }

  /** Dropping one tour's rows from a coherent store, together with the
      tour, leaves the store coherent and no row of that tour behind. */
  lemma RemoveTourCoherent(s: Store, s': Store, tid: int)
    requires Coherent(s)
    requires s'.tours == s.tours - {tid} && s'.steps == RemoveRows(s.steps, InTour(tid))
    requires s'.nextTourId == s.nextTourId && s'.nextStepId == s.nextStepId
    ensures StepsOf(s'.steps, tid) == []
    ensures Coherent(s')
  {
    var doomed := InTour(tid);
    RemoveRowsStepsOf(s.steps, doomed, tid);
    StepsOfMembers(s.steps, tid);
    RemoveAll(StepsOf(s.steps, tid), doomed);
    RemoveTourWellFormed(s, s', tid);
    forall t | t in s'.tours
      ensures Contiguous(s'.steps, t) && s'.tours[t].total_steps == StepCount(s'.steps, t)
    {
      StepsOfMembers(s.steps, t);
      RemoveOtherRows(s.steps, doomed, t);
    }
  }

  /** Rows all of which are doomed disappear entirely. */
  lemma RemoveAll(rows: seq<Step>, doomed: Step -> bool)
    requires forall st :: st in rows ==> doomed(st)
    ensures RemoveRows(rows, doomed) == []
  {
  }

  /** Deleting a tour leaves no step of it behind and keeps the other
      tours coherent. */
  lemma DeleteTourCascades(s: Store, tourId: int, userId: string)
    requires Coherent(s)
    ensures var r := DeleteTour(s, tourId, userId, false);
      && StepsOf(r.store.steps, tourId) == (if Owns(s, tourId, userId) then [] else StepsOf(s.steps, tourId))
      && Coherent(r.store)
  {
    var r := DeleteTour(s, tourId, userId, false);
    if Owns(s, tourId, userId) {
      RemoveTourCoherent(s, r.store, tourId);
    }
  }

  lemma {:induction false} DistinctRemoveRows(steps: seq<Step>, doomed: Step -> bool)
    requires Distinct(IdsOf(steps))
    ensures Distinct(IdsOf(RemoveRows(steps, doomed)))
  {
    if steps != [] {
      var init, last := steps[..|steps| - 1], steps[|steps| - 1];
      assert IdsOf(init) == IdsOf(steps)[..|steps| - 1];
      DistinctRemoveRows(init, doomed);
      var rows := RemoveRows(init, doomed);
      if !doomed(last) {
        forall k | 0 <= k < |rows|
          ensures rows[k].id != last.id
        {
          assert rows[k] in init;
          var j :| 0 <= j < |init| && init[j] == rows[k];
          assert IdsOf(steps)[j] == rows[k].id;
        }
        assert IdsOf(rows + [last]) == IdsOf(rows) + [last.id];
      }
    }
  }
}
