/** The part of a list that satisfies a condition. The queries and deletions of the tables are
such filters, whatever order they visit the rows in. */
module Filters {

  function Filter<T>(xs: seq<T>, keep: T -> bool): seq<T> {
    if xs == [] then []
    else if keep(xs[0]) then [xs[0]] + Filter(xs[1..], keep)
    else Filter(xs[1..], keep)
  }

  lemma {:induction false} FilterAppend<T>(xs: seq<T>, ys: seq<T>, keep: T -> bool)
    ensures Filter(xs + ys, keep) == Filter(xs, keep) + Filter(ys, keep)
  {
    if xs == [] {
      assert xs + ys == ys;
    } else {
      assert (xs + ys)[1..] == xs[1..] + ys;
      FilterAppend(xs[1..], ys, keep);
    }
  }

  /** A filter keeps exactly the rows that satisfy the condition, each as often as before. */
  lemma {:induction false} FilterCounts<T>(xs: seq<T>, keep: T -> bool, x: T)
    ensures multiset(Filter(xs, keep))[x] == if keep(x) then multiset(xs)[x] else 0
  {
    if xs != [] {
      FilterCounts(xs[1..], keep, x);
      assert xs == [xs[0]] + xs[1..];
    }
  }

  lemma {:induction false} FilterMembers<T>(xs: seq<T>, keep: T -> bool)
    ensures forall x :: x in Filter(xs, keep) <==> x in xs && keep(x)
  {
    if xs != [] {
      FilterMembers(xs[1..], keep);
      assert xs == [xs[0]] + xs[1..];
    }
  }

  /** `x` stands somewhere before `y`. */
  ghost predicate Precedes<T>(xs: seq<T>, x: T, y: T) {
    exists i, j :: 0 <= i < j < |xs| && xs[i] == x && xs[j] == y
  }

  lemma {:induction false} FilteredFrom<T>(xs: seq<T>, keep: T -> bool, k: nat) returns (j: nat)
    requires k < |Filter(xs, keep)|
    ensures j < |xs| && xs[j] == Filter(xs, keep)[k]
  {
    if keep(xs[0]) && k == 0 {
      j := 0;
    } else {
      var i := FilteredFrom(xs[1..], keep, if keep(xs[0]) then k - 1 else k);
      j := i + 1;
    }
  }

  /** It also keeps their order. */
  lemma {:induction false} FilterKeepsOrder<T>(xs: seq<T>, keep: T -> bool, k: nat, l: nat)
    requires k < l < |Filter(xs, keep)|
    ensures Precedes(xs, Filter(xs, keep)[k], Filter(xs, keep)[l])
  {
    var ys := Filter(xs, keep);
    if keep(xs[0]) && k == 0 {
      var rest := Filter(xs[1..], keep);
      var j := FilteredFrom(xs[1..], keep, l - 1);
      assert rest[l - 1] == ys[l];
      assert xs[0] == ys[k] && xs[j + 1] == ys[l];
    } else {
      var m := if keep(xs[0]) then 1 else 0;
      FilterKeepsOrder(xs[1..], keep, k - m, l - m);
      var i, j :| 0 <= i < j < |xs[1..]| && xs[1..][i] == ys[k] && xs[1..][j] == ys[l];
      assert xs[i + 1] == ys[k] && xs[j + 1] == ys[l];
    }
  }

  /** Two kept rows stand in the filter as they do in the list. */
  lemma {:induction false} PairInFilter<T>(xs: seq<T>, keep: T -> bool, k: nat, l: nat)
    requires k < l < |xs| && keep(xs[k]) && keep(xs[l])
    ensures Precedes(Filter(xs, keep), xs[k], xs[l])
  {
    var rest := Filter(xs[1..], keep);
    if k == 0 {
      var j := KeptAt(xs[1..], keep, l - 1);
      assert Filter(xs, keep)[0] == xs[k] && Filter(xs, keep)[j + 1] == xs[l];
    } else {
      PairInFilter(xs[1..], keep, k - 1, l - 1);
      var i, j :| 0 <= i < j < |rest| && rest[i] == xs[k] && rest[j] == xs[l];
      var m := if keep(xs[0]) then 1 else 0;
      assert Filter(xs, keep)[i + m] == xs[k] && Filter(xs, keep)[j + m] == xs[l];
    }
  }

  lemma {:induction false} KeptAt<T>(xs: seq<T>, keep: T -> bool, i: nat) returns (k: nat)
    requires i < |xs| && keep(xs[i])
    ensures k < |Filter(xs, keep)| && Filter(xs, keep)[k] == xs[i]
  {
    if i == 0 {
      k := 0;
    } else {
      var j := KeptAt(xs[1..], keep, i - 1);
      k := if keep(xs[0]) then j + 1 else j;
    }
  }
}
