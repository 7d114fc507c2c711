/** What DecrementBudgets does, said over the columns of the tables alone: which reservation it
finds, what it charges along the chain, and which rows it writes and deletes. */
module ChargeLaws {
  import opened Model
  import opened Ledger
  import opened Filters
  import opened BucketFill
  import HierarchySort
  import SpendLaws

  /** The reservation found is the oldest of the request. */
  lemma {:induction false} FirstIs(rs: seq<Reservation>, r: RequestId)
    ensures First(rs, r).None? <==> forall i :: 0 <= i < |rs| ==> rs[i].requestId != r
    ensures forall i :: 0 <= i < |rs| && rs[i].requestId == r && (forall j :: 0 <= j < i ==> rs[j].requestId != r) ==>
      First(rs, r) == Some(rs[i])
  {
    if rs != [] {
      FirstIs(rs[1..], r);
      assert forall i :: 1 <= i < |rs| ==> rs[1..][i - 1] == rs[i];
      forall i | 0 <= i < |rs| && rs[i].requestId == r && (forall j :: 0 <= j < i ==> rs[j].requestId != r)
        ensures First(rs, r) == Some(rs[i])
      {
        if i > 0 {
          assert forall j :: 0 <= j < i - 1 ==> rs[1..][j] == rs[j + 1];
        }
      }
    }
  }

  /** All reservations of the request go, and no other. */
  lemma {:induction false} WithoutIs(rs: seq<Reservation>, r: RequestId)
    ensures Without(rs, r) == Filter(rs, (x: Reservation) => x.requestId != r)
  {
    if rs != [] {
      WithoutIs(rs[1..], r);
    }
  }

  lemma {:induction false} SharesAreCharged(chain: Rows, cost: Money, i: Id)
    requires cost >= 0.0
    ensures var sorted := HierarchySort.Sorted(chain);
      var charged := ChargedTo(Lines(sorted, cost, None), i);
      && (forall k :: 0 <= k < |sorted| && sorted[k].id == i ==> charged == Share(sorted, cost, k))
      && ((forall k :: 0 <= k < |sorted| ==> sorted[k].id != i) ==> charged == 0.0)
  {
    var sorted := HierarchySort.Sorted(chain);
    var lines := Lines(sorted, cost, None);
    HierarchySort.SortedDistinct(chain);
    forall k | 0 <= k < |sorted|
      ensures lines[k] == Line(sorted[k].id, Share(sorted, cost, k), Share(sorted, cost, k), true)
    {
      LinesAreShares(sorted, cost, k);
    }
    hide Lines, Share, HierarchySort.Sorted;
    if k :| 0 <= k < |sorted| && sorted[k].id == i {
      SpendLaws.ChargedToOne(lines, i, k);
    } else {
      SpendLaws.ChargedToNone(lines, i);
    }
  }

  /** The new rows of usage_records: one for each budget of the chain, with its share. */
  ghost predicate RecordsEach(sorted: seq<Budget>, cost: Money, r: RequestId, added: seq<UsageRecord>) {
    |added| == |sorted|
    && forall k :: 0 <= k < |sorted| ==> added[k] == UsageRecord(sorted[k].id, r, Share(sorted, cost, k), true)
  }

  /** Every budget of the chain is charged its share, the reserved budget's pending amount falls
      by the estimate but not below 0, and nothing else changes. */
  ghost predicate ChargesEach(t: BudgetTable, after: BudgetTable, sorted: seq<Budget>, cost: Money, res: Reservation) {
    && after.Keys == t.Keys
    && (forall i :: i in t ==>
          after[i] == t[i].(usage := after[i].usage,
                            pending := if i == res.budgetId then Max(0.0, t[i].pending - res.estimate) else t[i].pending))
    && (forall k :: 0 <= k < |sorted| && sorted[k].id in t ==>
          after[sorted[k].id].usage == t[sorted[k].id].usage + Share(sorted, cost, k))
    && (forall i :: i in t && (forall k :: 0 <= k < |sorted| ==> sorted[k].id != i) ==> after[i].usage == t[i].usage)
  }

  /** The whole transaction over the columns, for a cost that is not negative and, as always, no
      rate-limited budget. A budget of the chain that is gone rolls everything back. */
  lemma {:induction false} CompletionMeans(db: Db, res: Reservation, cost: Money, chain: Rows)
    requires cost >= 0.0
    ensures var after, sorted := CommitCompletion(db, res, cost, chain, None), HierarchySort.Sorted(chain);
      if exists k :: 0 <= k < |sorted| && sorted[k].id !in db.budgets then after == db
      else
        && ChargesEach(db.budgets, after.budgets, sorted, cost, res)
        && after.reservations == Filter(db.reservations, (x: Reservation) => x.requestId != res.requestId)
        && db.usage <= after.usage
        && RecordsEach(sorted, cost, res.requestId, after.usage[|db.usage|..])
  {
    var after, sorted := CommitCompletion(db, res, cost, chain, None), HierarchySort.Sorted(chain);
    if k :| 0 <= k < |sorted| && sorted[k].id !in db.budgets {
      assert sorted[k].id in IdsOf(sorted);
    } else {
      WithoutIs(db.reservations, res.requestId);
      BudgetsAreCharged(db, res, cost, chain);
      RecordsAreShares(sorted, cost, res.requestId);
      hide Lines, Share, HierarchySort.Sorted, Without, Filter, ChargesEach, RecordsEach, ChargeAll, ReleaseOn, NewRecords;
      assert after.usage == db.usage + NewRecords(Lines(sorted, cost, None), res.requestId);
    }
  }

  lemma {:induction false} RecordsAreShares(sorted: seq<Budget>, cost: Money, r: RequestId)
    requires cost >= 0.0
    ensures RecordsEach(sorted, cost, r, NewRecords(Lines(sorted, cost, None), r))
  {
    forall k | 0 <= k < |sorted|
      ensures Lines(sorted, cost, None)[k] == Line(sorted[k].id, Share(sorted, cost, k), Share(sorted, cost, k), true)
    {
      LinesAreShares(sorted, cost, k);
    }
    hide Lines, Share;
  }

  lemma {:induction false} BudgetsAreCharged(db: Db, res: Reservation, cost: Money, chain: Rows)
    requires cost >= 0.0
    requires forall k :: 0 <= k < |HierarchySort.Sorted(chain)| ==> HierarchySort.Sorted(chain)[k].id in db.budgets
    ensures ChargesEach(db.budgets, CommitCompletion(db, res, cost, chain, None).budgets, HierarchySort.Sorted(chain), cost, res)
  {
    hide CommitCompletion, Share, HierarchySort.Sorted;
    forall i | i in db.budgets
      ensures RowIsCharged(db, res, cost, chain, i)
    {
      OneRow(db, res, cost, chain, i);
    }
    CompletionKeepsKeys(db, res, cost, chain);
  }

  lemma CompletionKeepsKeys(db: Db, res: Reservation, cost: Money, chain: Rows)
    ensures CommitCompletion(db, res, cost, chain, None).budgets.Keys == db.budgets.Keys
  {}

  ghost predicate RowIsCharged(db: Db, res: Reservation, cost: Money, chain: Rows, i: Id)
    requires i in db.budgets
  {
    var after, sorted := CommitCompletion(db, res, cost, chain, None).budgets, HierarchySort.Sorted(chain);
    var row := db.budgets[i];
    && i in after
    && after[i] == row.(usage := after[i].usage,
                        pending := if i == res.budgetId then Max(0.0, row.pending - res.estimate) else row.pending)
    && (forall k :: 0 <= k < |sorted| && sorted[k].id == i ==> after[i].usage == row.usage + Share(sorted, cost, k))
    && ((forall k :: 0 <= k < |sorted| ==> sorted[k].id != i) ==> after[i].usage == row.usage)
  }

  lemma {:induction false} OneRow(db: Db, res: Reservation, cost: Money, chain: Rows, i: Id)
    requires cost >= 0.0 && i in db.budgets
    requires IdsOf(HierarchySort.Sorted(chain)) <= db.budgets.Keys
    ensures RowIsCharged(db, res, cost, chain, i)
  {
    SpendLaws.CompletedRow(db, res, cost, chain, None, i);
    SharesAreCharged(chain, cost, i);
    hide CommitCompletion, Lines, Share, HierarchySort.Sorted, ChargedTo, IdsOf;
  }

  // ---------- nothing is lost on the way up ----------

  /** What the non-isolated rows of a list were charged together. */
  ghost function Rise(t: BudgetTable, after: BudgetTable, rows: seq<Budget>): Money {
    if rows == [] then 0.0
    else (if !rows[0].isolated && rows[0].id in t && rows[0].id in after then after[rows[0].id].usage - t[rows[0].id].usage
          else 0.0) + Rise(t, after, rows[1..])
  }

  lemma {:induction false} RiseAppend(t: BudgetTable, after: BudgetTable, xs: seq<Budget>, ys: seq<Budget>)
    ensures Rise(t, after, xs + ys) == Rise(t, after, xs) + Rise(t, after, ys)
  {
    if xs == [] {
      assert xs + ys == ys;
    } else {
      assert (xs + ys)[1..] == xs[1..] + ys;
      RiseAppend(t, after, xs[1..], ys);
    }
  }

  lemma RiseOfOne(t: BudgetTable, after: BudgetTable, b: Budget)
    requires b.id in t && b.id in after
    ensures Rise(t, after, [b]) == if b.isolated then 0.0 else after[b.id].usage - t[b.id].usage
  {
    assert [b][1..] == [];
  }

  /** The sort does not change the sum, if what it drops was not charged. */
  lemma {:induction false} RiseOfSorted(t: BudgetTable, after: BudgetTable, rows: seq<Budget>)
    requires forall b :: b in rows && b.kind == Unknown && b.id in t && b.id in after ==> after[b.id].usage == t[b.id].usage
    ensures Rise(t, after, HierarchySort.Sorted(rows)) == Rise(t, after, rows)
  {
    var team, org, provider := HierarchySort.OfKind(rows, Team), HierarchySort.OfKind(rows, Org), HierarchySort.OfKind(rows, Provider);
    RiseAppend(t, after, team + org, provider);
    RiseAppend(t, after, team, org);
    if rows != [] {
      RiseOfSorted(t, after, rows[1..]);
      var team', org' := HierarchySort.OfKind(rows[1..], Team), HierarchySort.OfKind(rows[1..], Org);
      var provider' := HierarchySort.OfKind(rows[1..], Provider);
      RiseAppend(t, after, team' + org', provider');
      RiseAppend(t, after, team', org');
      assert rows[0].kind == Team ==> ([rows[0]] + team')[1..] == team';
      assert rows[0].kind == Org ==> ([rows[0]] + org')[1..] == org';
      assert rows[0].kind == Provider ==> ([rows[0]] + provider')[1..] == provider';
      assert rows[0] in rows;
    }
  }

  lemma {:induction false} RiseIsCharged(t: BudgetTable, after: BudgetTable, sorted: seq<Budget>, cost: Money, k: nat)
    requires cost >= 0.0 && k <= |sorted|
    requires forall i :: 0 <= i < |sorted| ==>
      sorted[i].id in t && sorted[i].id in after && after[sorted[i].id].usage == t[sorted[i].id].usage + Share(sorted, cost, i)
    ensures Rise(t, after, sorted[..k]) == Charged(sorted, Lines(sorted, cost, None), k, false)
  {
    if k > 0 {
      RiseIsCharged(t, after, sorted, cost, k - 1);
      LinesAreShares(sorted, cost, k - 1);
      hide Lines, Share;
      assert sorted[..k] == sorted[..k - 1] + [sorted[k - 1]];
      RiseAppend(t, after, sorted[..k - 1], [sorted[k - 1]]);
      RiseOfOne(t, after, sorted[k - 1]);
      hide Rise;
    }
  }

  lemma {:induction false} UnknownIsNotCharged(chain: Rows, b: Budget, k: nat)
    requires b in chain && b.kind == Unknown && k < |HierarchySort.Sorted(chain)|
    ensures HierarchySort.Sorted(chain)[k].id != b.id
  {
    var sorted := HierarchySort.Sorted(chain);
    HierarchySort.SortedIsStable(chain);
    hide HierarchySort.Sorted, HierarchySort.OfKind;
    assert sorted[k] in sorted;
    var i, j :| 0 <= i < |chain| && 0 <= j < |chain| && chain[i] == b && chain[j] == sorted[k];
  }

  lemma {:induction false} RiseIsCost(t: BudgetTable, after: BudgetTable, res: Reservation, cost: Money, chain: Rows)
    requires cost >= 0.0 && ChargesEach(t, after, HierarchySort.Sorted(chain), cost, res)
    requires forall k :: 0 <= k < |HierarchySort.Sorted(chain)| ==> HierarchySort.Sorted(chain)[k].id in t
    ensures Rise(t, after, chain)
      == Charged(HierarchySort.Sorted(chain), Lines(HierarchySort.Sorted(chain), cost, None), |HierarchySort.Sorted(chain)|, false)
  {
    var sorted := HierarchySort.Sorted(chain);
    forall b | b in chain && b.kind == Unknown && b.id in t && b.id in after
      ensures after[b.id].usage == t[b.id].usage
    {
      forall k | 0 <= k < |sorted|
        ensures sorted[k].id != b.id
      {
        UnknownIsNotCharged(chain, b, k);
      }
    }
    hide HierarchySort.Sorted, Share, Lines, Charged, Rise;
    RiseOfSorted(t, after, chain);
    RiseIsCharged(t, after, sorted, cost, |sorted|);
    assert sorted[..|sorted|] == sorted;
  }

  /** Over the tables: a completion whose chain ends in a non-isolated root of known type raises
      the usage of the non-isolated budgets of the chain by exactly the cost. */
  lemma {:induction false} WholeCostIsCharged(db: Db, res: Reservation, cost: Money, chain: Rows)
    requires cost >= 0.0 && (forall b :: b in chain ==> b.id in db.budgets)
    requires exists r :: r in chain && !r.isolated && r.parent.None? && r.kind != Unknown
    ensures Rise(db.budgets, CommitCompletion(db, res, cost, chain, None).budgets, chain) == cost
  {
    var sorted := HierarchySort.Sorted(chain);
    HierarchySort.SortedIsStable(chain);
    forall k | 0 <= k < |sorted|
      ensures sorted[k].id in db.budgets
    {
      assert sorted[k] in sorted;
    }
    var r :| r in chain && !r.isolated && r.parent.None? && r.kind != Unknown;
    assert r in sorted;
    var k :| 0 <= k < |sorted| && sorted[k] == r;
    hide CommitCompletion, HierarchySort.Sorted, HierarchySort.OfKind, Share, Lines, Charged, Filter, Rise, ChargesEach;
    CompletionMeans(db, res, cost, chain);
    RiseIsCost(db.budgets, CommitCompletion(db, res, cost, chain, None).budgets, res, cost, chain);
    WholeCostIsChargedIff(sorted, cost);
  }
}
