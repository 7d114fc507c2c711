/** The decision loop shared by CheckAndReserveBudget and CheckBudget. */
module Admission {
  import opened Model
  import opened RunningMinimum

  /** First row with the given id, as the parent map is filled. */
  function Find(bs: seq<Budget>, id: Id): (r: Option<Budget>)
    ensures r.Some? ==> r.value.id == id
  {
    if bs == [] then None
    else if bs[0].id == id then Some(bs[0])
    else Find(bs[1..], id)
  }

  function MatchedParent(bs: seq<Budget>, b: Budget): Option<Budget> {
    if b.parent.Some? then Find(bs, b.parent.value) else None
  }

  predicate CanFallBack(bs: seq<Budget>, b: Budget, estimate: Money) {
    && b.allowFallback
    && MatchedParent(bs, b).Some?
    && MatchedParent(bs, b).value.Remaining() >= estimate
  }

  /** The budget has room, or may borrow the room of a matched parent. */
  predicate Passes(bs: seq<Budget>, b: Budget, estimate: Money) {
    b.Remaining() >= estimate || CanFallBack(bs, b, estimate)
  }

  /** The declarative meaning of admission. */
  predicate Admits(bs: seq<Budget>, estimate: Money) {
    forall i :: 0 <= i < |bs| ==> Passes(bs, bs[i], estimate)
  }

  predicate StopsAt(bs: seq<Budget>, i: nat, estimate: Money)
    requires i < |bs|
  {
    !Passes(bs, bs[i], estimate) && bs[i].isolated
  }

  /** The loop visits the first `n` budgets: it stops after the first isolated failing one. */
  ghost predicate Visits(bs: seq<Budget>, estimate: Money, n: nat) {
    && n <= |bs|
    && (forall i :: 0 <= i < n - 1 ==> !StopsAt(bs, i, estimate))
    && (n < |bs| ==> n > 0 && StopsAt(bs, n - 1, estimate))
  }

  /** `id` is the last of the first `n` budgets that fails. */
  ghost predicate LastFailing(bs: seq<Budget>, estimate: Money, n: nat, id: Id)
    requires n <= |bs|
  {
    exists k :: 0 <= k < n && bs[k].id == id && !Passes(bs, bs[k], estimate)
                && forall j :: k < j < n ==> Passes(bs, bs[j], estimate)
  }

  predicate FallsBack(bs: seq<Budget>, b: Budget, estimate: Money) {
    b.Remaining() < estimate && CanFallBack(bs, b, estimate)
  }

  ghost predicate LastFallback(bs: seq<Budget>, estimate: Money, n: nat, id: Id)
    requires n <= |bs|
  {
    exists k :: 0 <= k < n && FallsBack(bs, bs[k], estimate) && bs[k].parent == Some(id)
                && forall j :: k < j < n ==> !FallsBack(bs, bs[j], estimate)
  }

  /** The remaining amounts in visiting order. */
  function Remainders(bs: seq<Budget>): (xs: seq<Money>)
    ensures |xs| == |bs| && forall i :: 0 <= i < |bs| ==> xs[i] == bs[i].amount - bs[i].usage - bs[i].pending
  {
    seq(|bs|, i requires 0 <= i < |bs| => bs[i].Remaining())
  }

  /** What the two result pointers hold after `n` visits. */
  ghost predicate Pointers(bs: seq<Budget>, estimate: Money, n: nat, at: Option<Id>, fallback: Option<Id>)
    requires n <= |bs|
  {
    && (at.None? ==> forall j :: 0 <= j < n ==> Passes(bs, bs[j], estimate))
    && (at.Some? ==> LastFailing(bs, estimate, n, at.value))
    && (fallback.None? ==> forall j :: 0 <= j < n ==> !FallsBack(bs, bs[j], estimate))
    && (fallback.Some? ==> LastFallback(bs, estimate, n, fallback.value))
  }

  lemma BeforeFirstVisit(bs: seq<Budget>, estimate: Money)
    ensures Pointers(bs, estimate, 0, None, None) && Tracks(Remainders(bs), 0, -1.0)
  {}

  lemma PointersStep(bs: seq<Budget>, estimate: Money, n: nat, at: Option<Id>, fallback: Option<Id>)
    requires n < |bs| && Pointers(bs, estimate, n, at, fallback)
    ensures var b := bs[n];
      Pointers(bs, estimate, n + 1,
        if Passes(bs, b, estimate) then at else Some(b.id),
        if FallsBack(bs, b, estimate) then b.parent else fallback)
  {}

  lemma DecisionMeansAdmits(bs: seq<Budget>, estimate: Money, n: nat, at: Option<Id>, fallback: Option<Id>)
    requires Visits(bs, estimate, n) && Pointers(bs, estimate, n, at, fallback)
    ensures at.None? <==> Admits(bs, estimate)
  {}

  // ---------- the verdict over the columns ----------

  lemma {:induction false} FindIs(bs: seq<Budget>, id: Id)
    requires DistinctIds(bs)
    ensures Find(bs, id).Some? <==> exists j :: 0 <= j < |bs| && bs[j].id == id
    ensures forall j :: 0 <= j < |bs| && bs[j].id == id ==> Find(bs, id) == Some(bs[j])
  {
    if bs != [] {
      FindIs(bs[1..], id);
      forall j | 1 <= j < |bs| && bs[j].id == id
        ensures Find(bs, id) == Some(bs[j])
      {
        assert bs[1..][j - 1] == bs[j];
      }
    }
  }

  /** A budget passes iff it has room, or may fall back on a parent in the list that has. */
  lemma {:induction false} PassesIff(bs: seq<Budget>, b: Budget, estimate: Money)
    requires DistinctIds(bs)
    ensures Passes(bs, b, estimate) <==>
      || b.amount - b.usage - b.pending >= estimate
      || (b.allowFallback && exists j :: 0 <= j < |bs| && b.parent == Some(bs[j].id)
                                         && bs[j].amount - bs[j].usage - bs[j].pending >= estimate)
    ensures FallsBack(bs, b, estimate) <==>
      Passes(bs, b, estimate) && b.amount - b.usage - b.pending < estimate
  {
    if b.parent.Some? {
      FindIs(bs, b.parent.value);
    }
  }

  /** The verdict over the columns: nobody is rate limited iff every budget has room or may fall
      back on a parent in the list that has. */
  lemma {:induction false} AdmitsIff(bs: seq<Budget>, estimate: Money)
    requires DistinctIds(bs)
    ensures Admits(bs, estimate) <==>
      forall i :: 0 <= i < |bs| ==>
        || bs[i].amount - bs[i].usage - bs[i].pending >= estimate
        || (bs[i].allowFallback && exists j :: 0 <= j < |bs| && bs[i].parent == Some(bs[j].id)
                                               && bs[j].amount - bs[j].usage - bs[j].pending >= estimate)
  {
    forall i | 0 <= i < |bs|
      ensures Passes(bs, bs[i], estimate) <==>
        || bs[i].amount - bs[i].usage - bs[i].pending >= estimate
        || (bs[i].allowFallback && exists j :: 0 <= j < |bs| && bs[i].parent == Some(bs[j].id)
                                               && bs[j].amount - bs[j].usage - bs[j].pending >= estimate)
    {
      PassesIff(bs, bs[i], estimate);
    }
    hide Passes;
  }

  // ---------- the loop ----------

  /** The loop of CheckAndReserveBudget over the sorted matched budgets. */
  method Decide(bs: seq<Budget>, estimate: Money)
    returns (rateLimitedAt: Option<Id>, fallback: Option<Id>, minRemaining: Money, visited: nat)
    ensures rateLimitedAt.None? <==> Admits(bs, estimate)
    ensures DistinctIds(bs) ==> (rateLimitedAt.None? <==> forall i :: 0 <= i < |bs| ==>
      || bs[i].amount - bs[i].usage - bs[i].pending >= estimate
      || (bs[i].allowFallback && exists j :: 0 <= j < |bs| && bs[i].parent == Some(bs[j].id)
                                             && bs[j].amount - bs[j].usage - bs[j].pending >= estimate))
    ensures Visits(bs, estimate, visited)
    ensures Pointers(bs, estimate, visited, rateLimitedAt, fallback)
    ensures Tracks(Remainders(bs), visited, minRemaining)
  {
    hide Pointers, Tracks;
    BeforeFirstVisit(bs, estimate);
    rateLimitedAt, fallback, minRemaining, visited := None, None, -1.0, 0;
    while visited < |bs|
      invariant visited <= |bs|
      invariant forall i :: 0 <= i < visited ==> !StopsAt(bs, i, estimate)
      invariant Pointers(bs, estimate, visited, rateLimitedAt, fallback)
      invariant Tracks(Remainders(bs), visited, minRemaining)
    {
      var budget := bs[visited];
      var remaining := budget.Remaining();
      TracksStep(Remainders(bs), visited, minRemaining);
      PointersStep(bs, estimate, visited, rateLimitedAt, fallback);
      if minRemaining < 0.0 || remaining < minRemaining {
        minRemaining := remaining;
      }
      visited := visited + 1;
      if remaining < estimate {
        if budget.allowFallback && budget.parent.Some? {
          var parent := MatchedParent(bs, budget);
          if parent.Some? && parent.value.Remaining() >= estimate {
            fallback := Some(parent.value.id);
            continue;
          }
        }
        rateLimitedAt := Some(budget.id);
        if budget.isolated {
          break;
        }
      }
    }
    DecisionMeansAdmits(bs, estimate, visited, rateLimitedAt, fallback);
    if DistinctIds(bs) {
      AdmitsIff(bs, estimate);
    }
  }

  /** An overdrawn budget followed by one with room: the report shows the later one, not the
      smaller one. */
  lemma RemainingIsNotAlwaysMinimum()
    ensures exists bs: seq<Budget>, m ::
      && Visits(bs, 1.0, |bs|)
      && Tracks(Remainders(bs), |bs|, m)
      && !IsLeast(Remainders(bs), |bs|, m)
  {
    var a := Budget(0, Team, 0.0, 5.0, 0.0, None, false, false, true, Approved);
    var b := Budget(1, Org, 9.0, 0.0, 0.0, None, false, false, true, Approved);
    var bs := [a, b];
    assert !a.isolated && !b.isolated;
    var xs := Remainders(bs);
    assert xs[0] == -5.0 && xs[1] == 9.0;
    assert LeastSince(xs, 1, 2, 9.0);
    assert Tracks(xs, |bs|, 9.0) && !IsLeast(xs, |bs|, 9.0);
    assert Visits(bs, 1.0, |bs|);
  }

  /** A budget that cannot fall back is admitted only on its own room. */
  lemma AdmittedWithoutFallback(bs: seq<Budget>, estimate: Money, b: Budget)
    requires Admits(bs, estimate) && b in bs
    requires !b.allowFallback || b.parent.None?
    ensures b.usage + b.pending + estimate <= b.amount
  {}
}
