/** Where the laws stop: the bounds are attained, and reading a reservation outside the
transaction that consumes it is not harmless. */
module Limits {
  import opened Model
  import opened Ledger
  import opened Effects
  import opened HoldLaws
  import Admission
  import HierarchySort
  import RequestLaws
  import SpendLaws

  /** A lone enforced budget is its own candidate list. */
  lemma {:induction false} LoneCandidate(t: BudgetTable, b: Id)
    requires Keyed(t) && b in t && t[b].Enforced() && t[b].kind != Unknown
    ensures Candidates(t, [b], {b}) == [t[b]]
  {
    var rows := [b];
    assert rows[1..] == [];
    assert Enforced(t, rows) == [t[b]];
    var bs := [t[b]];
    assert bs[1..] == [];
    assert Matching(bs, {b}) == bs;
    HierarchySort.OfKindUniform(bs, t[b].kind, Team);
    HierarchySort.OfKindUniform(bs, t[b].kind, Org);
    HierarchySort.OfKindUniform(bs, t[b].kind, Provider);
  }

  lemma {:induction false} NoRows(rs: seq<Reservation>, r: RequestId)
    requires RequestLaws.RowsFor(rs, r) == []
    ensures forall i :: 0 <= i < |rs| ==> rs[i].requestId != r
  {
    if rs != [] {
      NoRows(rs[1..], r);
    }
  }

  /** The overspend bound is attained: right after a reset a request for the whole amount is
      admitted, on top of everything that was live before. */
  lemma {:induction false} OverspendBoundIsTight(db: Db, b: Id, r: RequestId, expiresAt: Instant)
    requires Consistent(db) && b in db.budgets && db.budgets[b].Enforced() && db.budgets[b].kind != Unknown
    requires db.budgets[b].amount >= 0.0 && RequestLaws.RowsFor(db.reservations, r) == []
    ensures var after := Apply(Apply(db, Reset(b)), Reserve(r, [b], {b}, db.budgets[b].amount, expiresAt));
      && b in after.budgets && after.budgets[b].amount == db.budgets[b].amount
      && after.budgets[b].usage + Held(after.reservations, b) == after.budgets[b].amount + Held(db.reservations, b)
  {
    var amount := db.budgets[b].amount;
    var reset := Apply(db, Reset(b));
    LoneCandidate(reset.budgets, b);
    var bs := [reset.budgets[b]];
    assert Candidates(reset.budgets, [b], {b}) == bs;
    assert bs[0].Remaining() >= amount;
    assert Admission.Admits(bs, amount);
    NoRows(db.reservations, r);
    HeldByNew(bs, r, amount, expiresAt, b);
    assert bs[0].id == b && b in IdsOf(bs);
    HeldAppend(db.reservations, NewReservations(bs, r, amount, expiresAt), b);
  }

  /** DecrementBudgets reads the request's reservation before its transaction. If the
      reservation expires and is cleaned up in between, its hold is released twice. */
  lemma {:induction false} StaleReadReleasesTwice(db: Db, r: RequestId, now: Instant, cost: Money, chain: Rows)
    requires Consistent(db) && First(db.reservations, r).Some?
    requires First(db.reservations, r).value.expiresAt <= now
    requires RequestLaws.RowsFor(Unexpired(db.reservations, now), r) == []
    requires IdsOf(HierarchySort.Sorted(chain)) <= db.budgets.Keys
    requires var b := First(db.reservations, r).value.budgetId;
      b in db.budgets && db.budgets[b].pending == Held(db.reservations, b)
    ensures var res := First(db.reservations, r).value;
      var after := CommitCompletion(Apply(db, Cleanup(now)), res, cost, chain, None);
      var live := Held(after.reservations, res.budgetId);
      && res.budgetId in after.budgets
      && after.budgets[res.budgetId].pending == Max(0.0, live - res.estimate)
      && (after.budgets[res.budgetId].pending < live <==> res.estimate > 0.0 && live > 0.0)
  {
    var res := First(db.reservations, r).value;
    var b := res.budgetId;
    var cleaned := Apply(db, Cleanup(now));
    CleanedState(db, r, now);
    SpendLaws.CompletedRow(cleaned, res, cost, chain, None, b);
    hide Apply, CommitCompletion, HierarchySort.Sorted, First, Held, HeldBy, Without, Unexpired, Consistent, IdsOf;
    HeldWithout(cleaned.reservations, b, r);
  }

  /** After the cleanup the request's hold is released, and pending is still the sum. */
  lemma {:induction false} CleanedState(db: Db, r: RequestId, now: Instant)
    requires Consistent(db) && First(db.reservations, r).Some?
    requires First(db.reservations, r).value.expiresAt <= now
    requires RequestLaws.RowsFor(Unexpired(db.reservations, now), r) == []
    requires var b := First(db.reservations, r).value.budgetId;
      b in db.budgets && db.budgets[b].pending == Held(db.reservations, b)
    ensures var b := First(db.reservations, r).value.budgetId;
      var cleaned := Apply(db, Cleanup(now));
      && cleaned.budgets.Keys == db.budgets.Keys
      && cleaned.budgets[b].pending == Held(cleaned.reservations, b) >= 0.0
      && HeldBy(cleaned.reservations, b, r) == 0.0
  {
    var res := First(db.reservations, r).value;
    var b := res.budgetId;
    var i :| 0 <= i < |db.reservations| && db.reservations[i] == res;
    assert HasExpired(db.reservations, b, now);
    HeldUnexpired(db.reservations, b, now);
    HeldBounds(db.reservations, db.budgets.Keys, b, r, now);
    var rest := Unexpired(db.reservations, now);
    NoRows(rest, r);
    NoOtherRow(rest, b, r);
  }

  ghost predicate ExpiresBetween(rs: seq<Reservation>, b: Id, summed: Instant, deleted: Instant) {
    exists i :: 0 <= i < |rs| && rs[i].budgetId == b && rs[i].estimate > 0.0 && summed < rs[i].expiresAt <= deleted
  }

  lemma {:induction false} ExpiredGrows(rs: seq<Reservation>, ids: set<Id>, b: Id, summed: Instant, deleted: Instant)
    requires RowsIn(rs, ids) && summed <= deleted
    ensures ExpiredOn(rs, b, summed) <= ExpiredOn(rs, b, deleted)
    ensures ExpiredOn(rs, b, summed) < ExpiredOn(rs, b, deleted) <==> ExpiresBetween(rs, b, summed, deleted)
  {
    if rs != [] {
      ExpiredGrows(rs[1..], ids, b, summed, deleted);
      var late := rs[0].budgetId == b && rs[0].estimate > 0.0 && summed < rs[0].expiresAt <= deleted;
      assert ExpiresBetween(rs, b, summed, deleted) <==> late || ExpiresBetween(rs[1..], b, summed, deleted) by {
        if ExpiresBetween(rs[1..], b, summed, deleted) {
          var i :| 0 <= i < |rs[1..]| && rs[1..][i].budgetId == b && rs[1..][i].estimate > 0.0
                   && summed < rs[1..][i].expiresAt <= deleted;
          assert rs[i + 1] == rs[1..][i];
        }
        if ExpiresBetween(rs, b, summed, deleted) && !late {
          var i :| 0 <= i < |rs| && rs[i].budgetId == b && rs[i].estimate > 0.0 && summed < rs[i].expiresAt <= deleted;
          assert rs[1..][i - 1] == rs[i];
        }
      }
    }
  }

  /** A hold is leaked by a cleanup exactly when a reservation expires between the two: it is
      deleted without having been summed. */
  lemma {:induction false} CleanupLeaksIff(db: Db, b: Id, summed: Instant, deleted: Instant)
    requires Consistent(db) && b in db.budgets && summed <= deleted
    requires db.budgets[b].pending == Held(db.reservations, b)
    ensures var after := CleanupAcross(db, summed, deleted);
      && after.budgets[b].pending >= Held(after.reservations, b)
      && (after.budgets[b].pending == Held(after.reservations, b) <==> !ExpiresBetween(db.reservations, b, summed, deleted))
  {
    HeldUnexpired(db.reservations, b, summed);
    HeldUnexpired(db.reservations, b, deleted);
    HeldBounds(db.reservations, db.budgets.Keys, b, "", summed);
    ExpiredGrows(db.reservations, db.budgets.Keys, b, summed, deleted);
  }
}
