/** The `tour_steps` table as a sequence of rows, and the SQL statements the
    data-access layer issues against it: select by tour, row-wise update,
    delete, and the `step_order` assignments of reordering and renumbering. */
module StepRows {
  import opened Wrappers
  import opened TourTypes

  /** `select * from tour_steps where tour_id = tid`, in table order. */
  function StepsOf(steps: seq<Step>, tid: int): (r: seq<Step>)
    ensures |r| <= |steps|
  {
    if steps == [] then []
    else
      var init, last := steps[..|steps| - 1], steps[|steps| - 1];
      assert steps == init + [last];
      StepsOf(init, tid) + (if last.tour_id == tid then [last] else [])
  }

  /** A tour's rows are exactly the table's rows of that tour. */
  lemma {:induction false} StepsOfMembers(steps: seq<Step>, tid: int)
    ensures forall st :: st in StepsOf(steps, tid) <==> st in steps && st.tour_id == tid
  {
    if steps != [] {
      var init, last := steps[..|steps| - 1], steps[|steps| - 1];
      assert steps == init + [last];
      StepsOfMembers(init, tid);
    }
  }

  lemma {:induction false} StepsOfAppend(a: seq<Step>, b: seq<Step>, tid: int)
    ensures StepsOf(a + b, tid) == StepsOf(a, tid) + StepsOf(b, tid)
  {
    if b != [] {
      var init := b[..|b| - 1];
      assert (a + b)[..|a + b| - 1] == a + init;
      StepsOfAppend(a, init, tid);
    } else {
      assert a + b == a;
    }
  }

  /** The number of rows a tour owns. */
  function StepCount(steps: seq<Step>, tid: int): nat {
    |StepsOf(steps, tid)|
  }

  /** The `step_order` values occurring among `rows`. */
  function Orders(rows: seq<Step>): set<int> {
    set st | st in rows :: st.step_order
  }

  /** `{1, ..., n}`. */
  function Range(n: int): (r: set<int>)
    ensures forall x :: x in r <==> 1 <= x <= n
  {
    if n <= 0 then {} else Range(n - 1) + {n}
  }

  /** The tour's orders are exactly `1..N` for its `N` rows. */
  predicate Contiguous(steps: seq<Step>, tid: int) {
    var rows := StepsOf(steps, tid);
    Orders(rows) == Range(|rows|)
  }

  /** The ids of `rows`, in order. */
  function IdsOf(rows: seq<Step>): (r: seq<int>)
    ensures |r| == |rows|
    ensures forall i :: 0 <= i < |rows| ==> r[i] == rows[i].id
  {
    seq(|rows|, i requires 0 <= i < |rows| => rows[i].id)
  }

  /** No id occurs twice. */
  predicate Distinct(xs: seq<int>) {
    forall i, j :: 0 <= i < j < |xs| ==> xs[i] != xs[j]
  }

  /** `update tour_steps set ...` applied to every row through `g`. */
  function MapRows(steps: seq<Step>, g: Step -> Step): (r: seq<Step>)
    ensures |r| == |steps|
    ensures forall i :: 0 <= i < |r| ==> r[i] == g(steps[i])
  {
    seq(|steps|, i requires 0 <= i < |steps| => g(steps[i]))
  }

  /** A row-wise update that never moves a row to another tour commutes
      with selecting a tour's rows. */
  lemma {:induction false} MapRowsStepsOf(steps: seq<Step>, g: Step -> Step, tid: int)
    requires forall st :: g(st).tour_id == st.tour_id
    ensures StepsOf(MapRows(steps, g), tid) == MapRows(StepsOf(steps, tid), g)
  {
    if steps != [] {
      var init := steps[..|steps| - 1];
      assert MapRows(steps, g)[..|steps| - 1] == MapRows(init, g);
      MapRowsStepsOf(init, g, tid);
    }
  }

  /** `delete from tour_steps where doomed(row)`. */
  function RemoveRows(steps: seq<Step>, doomed: Step -> bool): (r: seq<Step>)
    ensures |r| <= |steps|
    ensures forall st :: st in r <==> st in steps && !doomed(st)
  {
    if steps == [] then []
    else
      var init, last := steps[..|steps| - 1], steps[|steps| - 1];
      assert steps == init + [last];
      RemoveRows(init, doomed) + (if doomed(last) then [] else [last])
  }

  /** Deleting rows selects, within one tour, exactly the surviving rows. */
  lemma {:induction false} RemoveRowsStepsOf(steps: seq<Step>, doomed: Step -> bool, tid: int)
    ensures StepsOf(RemoveRows(steps, doomed), tid)
         == RemoveRows(StepsOf(steps, tid), doomed)
  {
    if steps != [] {
      var init, last := steps[..|steps| - 1], steps[|steps| - 1];
      RemoveRowsStepsOf(init, doomed, tid);
      var left := RemoveRows(init, doomed);
      var tail := if doomed(last) then [] else [last];
      StepsOfAppend(left, tail, tid);
      var rows := StepsOf(init, tid);
      var end := if last.tour_id == tid then [last] else [];
      assert StepsOf(steps, tid) == rows + end;
      if end != [] {
        assert (rows + end)[..|rows + end| - 1] == rows;
      } else {
        assert rows + end == rows;
      }
    }
  }

  /** Deleting rows of no interest to a tour leaves its rows alone. */
  lemma RemoveOtherRows(steps: seq<Step>, doomed: Step -> bool, tid: int)
    requires forall st :: st in steps && st.tour_id == tid ==> !doomed(st)
    ensures StepsOf(RemoveRows(steps, doomed), tid) == StepsOf(steps, tid)
  {
    RemoveRowsStepsOf(steps, doomed, tid);
    StepsOfMembers(steps, tid);
    RemoveNothing(StepsOf(steps, tid), doomed);
  }

  lemma {:induction false} RemoveNothing(rows: seq<Step>, doomed: Step -> bool)
    requires forall st :: st in rows ==> !doomed(st)
    ensures RemoveRows(rows, doomed) == rows
  {
    if rows != [] {
      var init := rows[..|rows| - 1];
      assert rows == init + [rows[|rows| - 1]];
      RemoveNothing(init, doomed);
    }
  }

  // ---------------------------------------------------------------- orders

  /** The statement `update tour_steps set step_order = o where id = x`
      (and `and tour_id = t` when `scope` is `Some(t)`) targets `st`. */
  predicate Targets(st: Step, x: int, scope: Option<int>) {
    st.id == x && (scope.None? || st.tour_id == scope.value)
  }

  predicate InScope(st: Step, scope: Option<int>) {
    scope.None? || st.tour_id == scope.value
  }

  function SetOrder(steps: seq<Step>, x: int, scope: Option<int>, order: int): (r: seq<Step>)
  {
    MapRows(steps, st => if Targets(st, x, scope) then st.(step_order := order) else st)
  }

  /** The last position of `x` in `ids`. */
  function LastIndex(ids: seq<int>, x: int): (r: nat)
    requires x in ids
    ensures r < |ids| && ids[r] == x
    ensures forall j :: r < j < |ids| ==> ids[j] != x
  {
    if ids[|ids| - 1] == x then |ids| - 1 else LastIndex(ids[..|ids| - 1], x)
  }

  /** The loop `for i: update ... set step_order = first + i where id = ids[i]`.
      A row listed several times keeps the order of its last listing; a row
      not listed, or outside the scope, is untouched. */
  function AssignOrders(steps: seq<Step>, ids: seq<int>, scope: Option<int>, first: int): (r: seq<Step>)
    ensures |r| == |steps|
    ensures forall i :: 0 <= i < |r| ==>
      r[i] == (if steps[i].id in ids && InScope(steps[i], scope)
               then steps[i].(step_order := first + LastIndex(ids, steps[i].id))
               else steps[i])
  {
    if ids == [] then steps
    else
      var init := ids[..|ids| - 1];
      var prev := AssignOrders(steps, init, scope, first);
      SetOrder(prev, ids[|ids| - 1], scope, first + |ids| - 1)
  }

  /** Order assignment never moves a row or touches anything but the
      orders of the listed rows in scope. */
  lemma AssignOrdersKeepsRows(steps: seq<Step>, ids: seq<int>, scope: Option<int>, first: int, tid: int)
    ensures var rows, rows' := StepsOf(steps, tid), StepsOf(AssignOrders(steps, ids, scope, first), tid);
      && |rows'| == |rows|
      && forall i :: 0 <= i < |rows| ==>
           rows'[i] == (if rows[i].id in ids && InScope(rows[i], scope)
                        then rows[i].(step_order := first + LastIndex(ids, rows[i].id))
                        else rows[i])
  {
    var h := (st: Step) =>
      if st.id in ids && InScope(st, scope)
      then st.(step_order := first + LastIndex(ids, st.id)) else st;
    assert AssignOrders(steps, ids, scope, first) == MapRows(steps, h);
    MapRowsStepsOf(steps, h, tid);
  }

  /** Rows of another tour are untouched when the statements are scoped to
      `tid`, or when every listed id belongs to a row of `tid`. */
  lemma AssignOrdersOtherTour(steps: seq<Step>, ids: seq<int>, scope: Option<int>, first: int, tid: int, other: int)
    requires other != tid
    requires scope == Some(tid)
          || forall st :: st in steps && st.id in ids ==> st.tour_id == tid
    ensures StepsOf(AssignOrders(steps, ids, scope, first), other) == StepsOf(steps, other)
  {
    AssignOrdersKeepsRows(steps, ids, scope, first, other);
    StepsOfMembers(steps, other);
    var rows := StepsOf(steps, other);
    forall i | 0 <= i < |rows|
      ensures !(rows[i].id in ids && InScope(rows[i], scope))
    {
      assert rows[i] in rows;
    }
  }

  // ------------------------------------------------------------- multisets

  lemma {:induction false} DistinctCount(xs: seq<int>, x: int)
    requires Distinct(xs)
    ensures multiset(xs)[x] <= 1
  {
    if xs != [] {
      var init := xs[..|xs| - 1];
      assert xs == init + [xs[|xs| - 1]];
      DistinctCount(init, x);
      if xs[|xs| - 1] == x {
        assert x !in init;
      }
    }
  }

  /** A rearrangement of a duplicate-free sequence is duplicate-free. */
  lemma DistinctByMultiset(a: seq<int>, b: seq<int>)
    requires Distinct(a) && multiset(a) == multiset(b)
    ensures Distinct(b)
  {
    forall i, j | 0 <= i < j < |b|
      ensures b[i] != b[j]
    {
      assert b == b[..j] + b[j..];
      assert b[i] in b[..j];
      assert b[j] in b[j..];
      assert multiset(b[..j])[b[i]] >= 1;
      assert multiset(b[j..])[b[j]] >= 1;
      DistinctCount(a, b[i]);
    }
  }

  lemma IdsOfConcat(a: seq<Step>, b: seq<Step>)
    ensures IdsOf(a + b) == IdsOf(a) + IdsOf(b)
  {
  }

  /** Rearranging rows rearranges their ids. */
  lemma {:induction false} IdsOfMultiset(a: seq<Step>, b: seq<Step>)
    requires multiset(a) == multiset(b)
    ensures multiset(IdsOf(a)) == multiset(IdsOf(b))
    decreases |a|
  {
    if a == [] {
      assert |multiset(b)| == 0;
    } else {
      var x, a' := a[|a| - 1], a[..|a| - 1];
      assert a == a' + [x];
      assert x in multiset(b);
      var k :| 0 <= k < |b| && b[k] == x;
      var b' := b[..k] + b[k + 1..];
      TakeOut(b, k);
      assert multiset(a') == multiset(a) - multiset{x};
      IdsOfMultiset(a', b');
      IdsOfConcat(a', [x]);
      assert IdsOf([x]) == [x.id];
      assert multiset(IdsOf(a)) == multiset(IdsOf(a')) + multiset{x.id};
    }
  }

  /** Taking the row at `k` out of `b` takes one copy of it, and of its id,
      out of the multisets. */
  lemma TakeOut(b: seq<Step>, k: int)
    requires 0 <= k < |b|
    ensures multiset(b[..k] + b[k + 1..]) == multiset(b) - multiset{b[k]}
    ensures multiset(IdsOf(b)) == multiset(IdsOf(b[..k] + b[k + 1..])) + multiset{b[k].id}
  {
    TakeOutOne(b, k);
    var ids := IdsOf(b);
    assert IdsOf(b[..k] + b[k + 1..]) == ids[..k] + ids[k + 1..];
    TakeOutOne(ids, k);
  }

  lemma TakeOutOne<T>(xs: seq<T>, k: int)
    requires 0 <= k < |xs|
    ensures multiset(xs[..k] + xs[k + 1..]) == multiset(xs) - multiset{xs[k]}
    ensures multiset(xs) == multiset(xs[..k] + xs[k + 1..]) + multiset{xs[k]}
  {
    assert xs == xs[..k] + [xs[k]] + xs[k + 1..];
  }

  /** Listing exactly the ids of a tour's rows, each once, numbers the
      tour's rows `1..N` and keeps their count. */
  lemma AssignPermutationContiguous(steps: seq<Step>, ids: seq<int>, scope: Option<int>, tid: int)
    requires Distinct(IdsOf(StepsOf(steps, tid)))
    requires multiset(ids) == multiset(IdsOf(StepsOf(steps, tid)))
    requires scope == None || scope == Some(tid)
    ensures var r := AssignOrders(steps, ids, scope, 1);
      Contiguous(r, tid) && StepCount(r, tid) == StepCount(steps, tid)
  {
    var rows := StepsOf(steps, tid);
    var r := AssignOrders(steps, ids, scope, 1);
    var rows' := StepsOf(r, tid);
    DistinctByMultiset(IdsOf(rows), ids);
    AssignOrdersKeepsRows(steps, ids, scope, 1, tid);
    OwnRows(steps, tid);
    PermutedOrders(rows, rows', ids, scope, tid);
  }

  lemma OwnRows(steps: seq<Step>, tid: int)
    ensures forall i :: 0 <= i < |StepsOf(steps, tid)| ==> StepsOf(steps, tid)[i].tour_id == tid
  {
    var rows := StepsOf(steps, tid);
    StepsOfMembers(steps, tid);
    forall i | 0 <= i < |rows|
      ensures rows[i].tour_id == tid
    {
      assert rows[i] in rows;
    }
  }

  lemma PermutedOrders(rows: seq<Step>, rows': seq<Step>, ids: seq<int>, scope: Option<int>, tid: int)
    requires Distinct(ids)
    requires multiset(ids) == multiset(IdsOf(rows))
    requires scope == None || scope == Some(tid)
    requires forall i :: 0 <= i < |rows| ==> rows[i].tour_id == tid
    requires |rows'| == |rows|
    requires forall i :: 0 <= i < |rows| ==>
      rows'[i] == (if rows[i].id in ids && InScope(rows[i], scope)
                   then rows[i].(step_order := 1 + LastIndex(ids, rows[i].id))
                   else rows[i])
    ensures Orders(rows') == Range(|rows'|)
  {
    assert |multiset(ids)| == |ids|;
    forall i | 0 <= i < |rows|
      ensures rows[i].id in ids && rows'[i].step_order == 1 + LastIndex(ids, rows[i].id)
    {
      assert IdsOf(rows)[i] == rows[i].id;
      assert rows[i].id in multiset(IdsOf(rows));
    }
    forall v | v in Orders(rows')
      ensures 1 <= v <= |rows|
    {
      var st' :| st' in rows' && st'.step_order == v;
    }
    forall v | 1 <= v <= |rows|
      ensures v in Orders(rows')
    {
      var x := ids[v - 1];
      assert x in multiset(IdsOf(rows));
      var i :| 0 <= i < |rows| && IdsOf(rows)[i] == x;
      assert LastIndex(ids, x) == v - 1;
      assert rows'[i] in rows';
    }
  }
}
