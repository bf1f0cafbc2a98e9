/** The shape of every list query in the routes: the rows of one table
    that satisfy a WHERE condition, ordered newest first. Tables are kept
    in insertion order, so "newest first" is the reverse of that order. */
module Listing {

  /** The elements of `xs` that satisfy `keep`, last inserted first. */
  function KeepNewestFirst<T>(xs: seq<T>, keep: T -> bool): (r: seq<T>)
    ensures |r| <= |xs|
  {
    if xs == [] then []
    else
      var rest := KeepNewestFirst(xs[..|xs| - 1], keep);
      if keep(xs[|xs| - 1]) then [xs[|xs| - 1]] + rest else rest
  }

  /** The keys of `r` strictly descend. */
  predicate Descending<T>(r: seq<T>, key: T -> int) {
    forall i, j :: 0 <= i < j < |r| ==> key(r[i]) > key(r[j])
  }

  /** The keys of `r` strictly ascend. */
  predicate Ascending<T>(r: seq<T>, key: T -> int) {
    forall i, j :: 0 <= i < j < |r| ==> key(r[i]) < key(r[j])
  }

  /** The query returns exactly the rows that satisfy its condition. */
  lemma {:induction false} KeepMembers<T>(xs: seq<T>, keep: T -> bool)
    ensures forall x :: x in KeepNewestFirst(xs, keep) ==> x in xs && keep(x)
    ensures forall x :: x in xs && keep(x) ==> x in KeepNewestFirst(xs, keep)
  {
    if xs != [] {
      var init := xs[..|xs| - 1];
      KeepMembers(init, keep);
      assert xs == init + [xs[|xs| - 1]];
    }
  }

  /** When the table's keys ascend in insertion order, the query's keys
      descend: the newest row comes first. */
  lemma {:induction false} KeepOrder<T>(xs: seq<T>, keep: T -> bool, key: T -> int)
    requires Ascending(xs, key)
    ensures Descending(KeepNewestFirst(xs, keep), key)
  {
    if xs != [] {
      var last := xs[|xs| - 1];
      var init := xs[..|xs| - 1];
      var rest := KeepNewestFirst(init, keep);
      KeepOrder(init, keep, key);
      KeepMembers(init, keep);
      assert forall i :: 0 <= i < |rest| ==> key(rest[i]) < key(last) by {
        forall i | 0 <= i < |rest|
          ensures key(rest[i]) < key(last)
        {
          assert rest[i] in rest;
          assert rest[i] in init;
          var k :| 0 <= k < |init| && init[k] == rest[i];
          assert init[k] == xs[k];
        }
      }
      if keep(last) {
        var r := [last] + rest;
        forall i, j | 0 <= i < j < |r|
          ensures key(r[i]) > key(r[j])
        {
          assert r[j] == rest[j - 1];
          if i > 0 {
            assert r[i] == rest[i - 1];
          }
        }
      }
    }
  }

  /** Appending a row that satisfies the condition puts it at the head of
      the query's result and leaves the rest as it was. */
  lemma KeepAppend<T>(xs: seq<T>, x: T, keep: T -> bool)
    ensures KeepNewestFirst(xs + [x], keep)
            == (if keep(x) then [x] else []) + KeepNewestFirst(xs, keep)
  {
    assert (xs + [x])[..|xs|] == xs;
  }

  /** Replacing a row that fails the condition by another that fails it
      leaves the query's result unchanged. */
  lemma {:induction false} KeepUpdateHidden<T>(xs: seq<T>, i: nat, x: T, keep: T -> bool)
    requires i < |xs| && !keep(xs[i]) && !keep(x)
    ensures KeepNewestFirst(xs[i := x], keep) == KeepNewestFirst(xs, keep)
  {
    var last := |xs| - 1;
    if i == last {
      assert xs[i := x][..last] == xs[..last];
    } else {
      assert xs[i := x][..last] == xs[..last][i := x];
      KeepUpdateHidden(xs[..last], i, x, keep);
    }
  }

  /** The result depends only on the condition's value on the table's rows. */
  lemma {:induction false} KeepCongruent<T>(xs: seq<T>, keep: T -> bool, keep': T -> bool)
    requires forall x :: x in xs ==> keep(x) == keep'(x)
    ensures KeepNewestFirst(xs, keep) == KeepNewestFirst(xs, keep')
  {
    if xs != [] {
      var init := xs[..|xs| - 1];
      assert forall x :: x in init ==> x in xs;
      KeepCongruent(init, keep, keep');
    }
  }

  // ---------------------------------------------------------------------
  // `Array.prototype.filter`, which keeps the order

  /** The elements of `xs` that satisfy `keep`, in their order. */
  function Filter<T>(xs: seq<T>, keep: T -> bool): (r: seq<T>)
    ensures |r| <= |xs|
    ensures forall x :: x in r ==> x in xs && keep(x)
    ensures forall x :: x in xs && keep(x) ==> x in r
  {
    if xs == [] then []
    else
      var rest := Filter(xs[1..], keep);
      assert forall x :: x in xs[1..] ==> x in xs;
      assert xs == [xs[0]] + xs[1..];
      (if keep(xs[0]) then [xs[0]] else []) + rest
  }

  /** Filtering splits over concatenation, so each kept element keeps its
      place relative to the others. */
  lemma {:induction false} FilterAppend<T>(xs: seq<T>, ys: seq<T>, keep: T -> bool)
    ensures Filter(xs + ys, keep) == Filter(xs, keep) + Filter(ys, keep)
  {
    if xs != [] {
      assert (xs + ys)[1..] == xs[1..] + ys;
      assert (xs + ys)[0] == xs[0];
      FilterAppend(xs[1..], ys, keep);
      var h: seq<T> := if keep(xs[0]) then [xs[0]] else [];
      assert Filter(xs + ys, keep) == h + Filter(xs[1..] + ys, keep);
      assert Filter(xs, keep) == h + Filter(xs[1..], keep);
    } else {
      assert xs + ys == ys;
    }
  }

  /** A list whose every element passes is left as it is. */
  lemma {:induction false} FilterAll<T>(xs: seq<T>, keep: T -> bool)
    requires forall x :: x in xs ==> keep(x)
    ensures Filter(xs, keep) == xs
  {
    if xs != [] {
      assert forall x :: x in xs[1..] ==> x in xs;
      FilterAll(xs[1..], keep);
      assert keep(xs[0]) by { assert xs[0] in xs; }
      assert xs == [xs[0]] + xs[1..];
    }
  }

  /** A list none of whose elements passes filters to nothing. */
  lemma {:induction false} FilterNone<T>(xs: seq<T>, keep: T -> bool)
    requires forall x :: x in xs ==> !keep(x)
    ensures Filter(xs, keep) == []
  {
    if xs != [] {
      assert !keep(xs[0]) by { assert xs[0] in xs; }
      assert forall x :: x in xs[1..] ==> x in xs;
      FilterNone(xs[1..], keep);
    }
  }
}
