/** The one sort the system relies on, in two guises: `Array.prototype.sort`
    with a comparator `(a, b) => a.k - b.k`, and a database `order by k`.
    `Array.prototype.sort` is stable: elements that compare equal keep
    their input order. A database `order by` leaves the order of equal keys
    unspecified; the model picks the stable order there too. A missing key
    makes the JavaScript difference `NaN`, which the sort treats as
    "equal", so the key is an `Option<int>`. */
module Sorting {
  import opened Wrappers

  /** `a` must be placed after `b`: the comparator's result is positive. */
  predicate After<T>(key: T -> Option<int>, a: T, b: T) {
    key(a).Some? && key(b).Some? && key(a).value > key(b).value
  }

  /** Every element carries a key. */
  predicate AllKeyed<T>(xs: seq<T>, key: T -> Option<int>) {
    forall i :: 0 <= i < |xs| ==> key(xs[i]).Some?
  }

  /** No element carries a key. */
  predicate NoneKeyed<T>(xs: seq<T>, key: T -> Option<int>) {
    forall i :: 0 <= i < |xs| ==> key(xs[i]).None?
  }

  /** Keys never decrease along the sequence. */
  predicate SortedBy<T>(xs: seq<T>, key: T -> Option<int>)
    requires AllKeyed(xs, key)
  {
    forall i, j :: 0 <= i < j < |xs| ==> key(xs[i]).value <= key(xs[j]).value
  }

  /** Places `x` behind every element of `xs` it does not have to precede. */
  function Insert<T>(xs: seq<T>, x: T, key: T -> Option<int>): (r: seq<T>)
    ensures multiset(r) == multiset(xs) + multiset{x}
    ensures AllKeyed(xs, key) && key(x).Some? ==> AllKeyed(r, key)
    ensures NoneKeyed(xs, key) ==> r == xs + [x]
  {
    if xs == [] then [x]
    else
      var init, last := xs[..|xs| - 1], xs[|xs| - 1];
      assert xs == init + [last];
      if After(key, last, x) then Insert(init, x, key) + [last]
      else xs + [x]
  }

  /** The stable insertion sort of `xs` by `key`. */
  function SortByKey<T>(xs: seq<T>, key: T -> Option<int>): (r: seq<T>)
    ensures multiset(r) == multiset(xs)
    ensures |r| == |xs|
    ensures AllKeyed(xs, key) ==> AllKeyed(r, key) && SortedBy(r, key)
    ensures NoneKeyed(xs, key) ==> r == xs
  {
    if xs == [] then []
    else
      var init := xs[..|xs| - 1];
      assert xs == init + [xs[|xs| - 1]];
      var r := Insert(SortByKey(init, key), xs[|xs| - 1], key);
      if AllKeyed(xs, key) then
        InsertSorted(SortByKey(init, key), xs[|xs| - 1], key);
        r
      else r
  }

  /** Inserting a keyed element into a sorted keyed sequence keeps it sorted. */
  lemma {:induction false} InsertSorted<T>(xs: seq<T>, x: T, key: T -> Option<int>)
    requires AllKeyed(xs, key) && key(x).Some? && SortedBy(xs, key)
    ensures SortedBy(Insert(xs, x, key), key)
  {
    if xs != [] {
      var init, last := xs[..|xs| - 1], xs[|xs| - 1];
      if After(key, last, x) {
        InsertSorted(init, x, key);
        var m := Insert(init, x, key);
        forall i | 0 <= i < |m|
          ensures key(m[i]).value <= key(last).value
        {
          assert m[i] in multiset(m);
          assert m[i] in multiset(init) || m[i] == x;
          if m[i] != x {
            var k :| 0 <= k < |init| && init[k] == m[i];
            assert xs[k] == m[i];
          }
        }
      }
    }
  }

  /** Sorting keeps exactly the elements it was given. */
  lemma SortByKeyMembers<T>(xs: seq<T>, key: T -> Option<int>, x: T)
    ensures x in SortByKey(xs, key) <==> x in xs
  {
    var r := SortByKey(xs, key);
    assert x in r <==> x in multiset(r);
    assert x in xs <==> x in multiset(xs);
  }
}
