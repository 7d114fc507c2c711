/** Bucket filling and the amount of a non-isolated child. The chain is read before the
transaction that charges it, so the child's row may be out of date by then. */
module ChildLaws {
  import opened Model
  import opened Ledger
  import opened HoldLaws
  import opened SpendLaws
  import BucketFill
  import HierarchySort

  predicate FillsUp(isolated: bool, parent: Option<Id>) {
    !isolated && parent.Some?
  }

  function ChargeFor(chain: Rows, cost: Money, limitedAt: Option<Id>, b: Id): Money {
    ChargedTo(BucketFill.Lines(HierarchySort.Sorted(chain), cost, limitedAt), b)
  }

  lemma {:induction false} ChargeAtPlace(chain: Rows, cost: Money, limitedAt: Option<Id>, k: nat)
    requires k < |HierarchySort.Sorted(chain)|
    ensures var sorted := HierarchySort.Sorted(chain);
      ChargeFor(chain, cost, limitedAt, sorted[k].id) == BucketFill.LineAt(sorted, cost, limitedAt, k).charged
  {
    HierarchySort.SortedDistinct(chain);
    ChargedToOne(BucketFill.Lines(HierarchySort.Sorted(chain), cost, limitedAt), HierarchySort.Sorted(chain)[k].id, k);
  }

  /** A completion that read `x` charges the child at most what `x` had room for. */
  lemma {:induction false} StaleCharge(chain: Rows, cost: Money, limitedAt: Option<Id>, x: Budget, usage: Money)
    requires x in chain && FillsUp(x.isolated, x.parent)
    ensures var charge := ChargeFor(chain, cost, limitedAt, x.id);
      && 0.0 <= charge
      && usage + charge <= Max(usage, x.amount + (usage - x.usage))
  {
    var sorted := HierarchySort.Sorted(chain);
    ChargeOf(chain, cost, limitedAt, x.id);
    ChargeIsBounded(chain, cost, limitedAt, x.id);
    hide BucketFill.Lines, BucketFill.LineAt, ChargedTo, HierarchySort.Sorted;
    if ChargeFor(chain, cost, limitedAt, x.id) != 0.0 {
      var k :| 0 <= k < |sorted| && sorted[k].id == x.id && sorted[k] in chain
               && ChargeFor(chain, cost, limitedAt, x.id) == BucketFill.LineAt(sorted, cost, limitedAt, k).charged;
      if cost >= 0.0 {
        BucketFill.LinesAreBounded(sorted, cost, limitedAt, k);
      }
    }
  }

  /** Exactly when a charge leaves the child within its amount: the child is within it before,
      and either what reaches it or the room it was read with fits into the room it has. */
  lemma {:induction false} ChildStaysWithinIff(chain: Rows, cost: Money, k: nat, row: Budget)
    requires cost >= 0.0 && k < |HierarchySort.Sorted(chain)|
    requires var x := HierarchySort.Sorted(chain)[k]; x.id == row.id && FillsUp(x.isolated, x.parent)
    ensures var sorted := HierarchySort.Sorted(chain);
      var x, rest := sorted[k], BucketFill.Rest(sorted, cost, None, k);
      row.usage + ChargeFor(chain, cost, None, row.id) <= row.amount <==>
        row.usage <= row.amount
        && (rest <= row.amount - row.usage || x.amount - x.usage <= row.amount - row.usage)
  {
    var sorted := HierarchySort.Sorted(chain);
    ChargeAtPlace(chain, cost, None, k);
    BucketFill.CostIsConserved(sorted, cost, None, k);
  }

  // ---------- whole runs ----------

  /** The budget stays a non-isolated child and its amount is not lowered. */
  ghost predicate KeepsFilling(db: Db, s: Step, b: Id) {
    match s
    case Create(x) => x.id == b ==> x.amount >= 0.0 && FillsUp(x.isolated, x.parent)
    case Configure(id, c) =>
      id == b && b in db.budgets ==> db.budgets[b].amount <= c.amount && FillsUp(c.isolated, c.parent)
    case _ => true
  }

  /** The child's row in a chain is one it had before: same kind of child, no larger amount. */
  ghost predicate ReadBefore(db: Db, s: Step, b: Id) {
    s.Complete? && b in db.budgets ==>
      forall x :: x in s.chain && x.id == b ==> FillsUp(x.isolated, x.parent) && x.amount <= db.budgets[b].amount
  }

  ghost predicate ChildRun(steps: seq<Step>, b: Id) {
    forall i :: 0 <= i < |steps| ==> KeepsFilling(Run(steps[..i]), steps[i], b) && ReadBefore(Run(steps[..i]), steps[i], b)
  }

  lemma ChildRunPrefix(steps: seq<Step>, b: Id)
    requires steps != [] && ChildRun(steps, b)
    ensures ChildRun(steps[..|steps| - 1], b)
  {
    var pre := steps[..|steps| - 1];
    forall i | 0 <= i < |pre|
      ensures KeepsFilling(Run(pre[..i]), pre[i], b) && ReadBefore(Run(pre[..i]), pre[i], b)
    {
      assert pre[..i] == steps[..i];
    }
  }

  /** What the child was charged between the read of the chain and its use. */
  function DriftIn(chain: seq<Budget>, b: Id, usage: Money): Money {
    if chain == [] then 0.0
    else if chain[0].id == b then Max(0.0, usage - chain[0].usage)
    else DriftIn(chain[1..], b, usage)
  }

  lemma {:induction false} DriftOf(chain: Rows, x: Budget, usage: Money)
    requires x in chain
    ensures DriftIn(chain, x.id, usage) == Max(0.0, usage - x.usage)
  {
    if chain[0] != x {
      DriftOf(chain[1..], x, usage);
    }
  }

  lemma {:induction false} DriftIsPositive(chain: seq<Budget>, b: Id, usage: Money)
    ensures DriftIn(chain, b, usage) >= 0.0
  {
    if chain != [] {
      DriftIsPositive(chain[1..], b, usage);
    }
  }

  /** The largest drift of any completion since the child was created or last reset. */
  ghost function WorstDrift(steps: seq<Step>, b: Id): Money {
    if steps == [] then 0.0
    else
      var db, s := Run(steps[..|steps| - 1]), steps[|steps| - 1];
      var before := WorstDrift(steps[..|steps| - 1], b);
      if b !in db.budgets || s == Reset(b) then 0.0
      else if s.Complete? then Max(before, DriftIn(s.chain, b, db.budgets[b].usage))
      else before
  }

  /** In every run a non-isolated child overshoots its amount by no more than the worst drift,
      however wrong the estimates are. */
  lemma {:induction false} ChildOvershootIsBounded(steps: seq<Step>, b: Id)
    requires SaneRun(steps) && ChildRun(steps, b) && b in Run(steps).budgets
    ensures var row := Run(steps).budgets[b];
      && 0.0 <= row.usage <= row.amount + WorstDrift(steps, b)
      && FillsUp(row.isolated, row.parent) && row.amount >= 0.0 && WorstDrift(steps, b) >= 0.0
  {
    var pre, s := steps[..|steps| - 1], steps[|steps| - 1];
    ChildRunPrefix(steps, b);
    ReachableIsConsistent(pre);
    if b in Run(pre).budgets {
      ChildOvershootIsBounded(pre, b);
      assert KeepsFilling(Run(steps[..|pre|]), s, b) && ReadBefore(Run(steps[..|pre|]), s, b);
      ChildStep(Run(pre), s, b, WorstDrift(pre, b));
    } else {
      NewBudgetHoldsNothing(Run(pre), s, b);
      assert KeepsFilling(Run(steps[..|pre|]), s, b);
    }
  }

  lemma {:induction false} ChildStep(db: Db, s: Step, b: Id, drift: Money)
    requires Consistent(db) && KeepsFilling(db, s, b) && ReadBefore(db, s, b)
    requires b in db.budgets && b in Apply(db, s).budgets && drift >= 0.0
    requires 0.0 <= db.budgets[b].usage <= db.budgets[b].amount + drift && db.budgets[b].amount >= 0.0
    requires FillsUp(db.budgets[b].isolated, db.budgets[b].parent)
    ensures var row := Apply(db, s).budgets[b];
      var now := if s == Reset(b) then 0.0
                 else if s.Complete? then Max(drift, DriftIn(s.chain, b, db.budgets[b].usage)) else drift;
      && 0.0 <= row.usage <= row.amount + now && row.amount >= 0.0 && now >= 0.0
      && FillsUp(row.isolated, row.parent)
  {
    if s.Complete? {
      CompletedChild(db, s, b, drift);
    }
  }

  lemma {:induction false} CompletedChild(db: Db, s: Step, b: Id, drift: Money)
    requires s.Complete? && ReadBefore(db, s, b) && b in db.budgets && b in Apply(db, s).budgets && drift >= 0.0
    requires 0.0 <= db.budgets[b].usage <= db.budgets[b].amount + drift
    ensures 0.0 <= Apply(db, s).budgets[b].usage
      <= db.budgets[b].amount + Max(drift, DriftIn(s.chain, b, db.budgets[b].usage))
  {
    var usage := db.budgets[b].usage;
    ChargeIsBounded(s.chain, s.cost, s.limitedAt, b);
    if x :| x in s.chain && x.id == b {
      StaleCharge(s.chain, s.cost, s.limitedAt, x, usage);
      DriftOf(s.chain, x, usage);
    } else {
      assert b !in IdsOf(s.chain);
    }
    hide BucketFill.Lines, HierarchySort.Sorted, ChargedTo, DriftIn;
  }

  /** Completions that read the child's current row. */
  ghost predicate FreshRun(steps: seq<Step>, b: Id) {
    forall i :: 0 <= i < |steps| ==> FreshRow(Run(steps[..i]), steps[i], b)
  }

  ghost predicate FreshRow(db: Db, s: Step, b: Id) {
    s.Complete? && b in db.budgets ==> forall x :: x in s.chain && x.id == b ==> x == db.budgets[b]
  }

  lemma {:induction false} NoDrift(steps: seq<Step>, b: Id)
    requires FreshRun(steps, b)
    ensures WorstDrift(steps, b) == 0.0
  {
    if steps != [] {
      var pre, s := steps[..|steps| - 1], steps[|steps| - 1];
      forall i | 0 <= i < |pre|
        ensures FreshRow(Run(pre[..i]), pre[i], b)
      {
        assert pre[..i] == steps[..i];
      }
      NoDrift(pre, b);
      assert FreshRow(Run(steps[..|pre|]), s, b);
      if s.Complete? && b in Run(pre).budgets {
        FreshRowHasNoDrift(s.chain, b, Run(pre).budgets[b]);
      }
    }
  }

  lemma {:induction false} FreshRowHasNoDrift(chain: seq<Budget>, b: Id, row: Budget)
    requires forall x :: x in chain && x.id == b ==> x == row
    ensures DriftIn(chain, b, row.usage) == 0.0
  {
    if chain != [] {
      assert chain[0] in chain;
      FreshRowHasNoDrift(chain[1..], b, row);
    }
  }

  /** On fresh rows a non-isolated child never spends more than its amount. */
  lemma {:induction false} ChildNeverOverspends(steps: seq<Step>, b: Id)
    requires SaneRun(steps) && ChildRun(steps, b) && FreshRun(steps, b) && b in Run(steps).budgets
    ensures var row := Run(steps).budgets[b];
      0.0 <= row.usage <= row.amount && FillsUp(row.isolated, row.parent)
  {
    ChildOvershootIsBounded(steps, b);
    NoDrift(steps, b);
  }

  // ---------- where the row in the chain comes from ----------

  ghost predicate KeepsFillingRun(steps: seq<Step>, b: Id) {
    forall i :: 0 <= i < |steps| ==> KeepsFilling(Run(steps[..i]), steps[i], b)
  }

  /** The child exists from moment `j` to moment `n`. */
  ghost predicate Stays(steps: seq<Step>, j: nat, n: nat, b: Id)
    requires j <= n <= |steps|
  {
    forall i :: j <= i <= n ==> b in Run(steps[..i]).budgets
  }

  /** The row that the child had at any earlier moment satisfies ReadBefore: that is all the
      unlocked query of DecrementBudgets can have read. */
  lemma {:induction false} EarlierRowsQualify(steps: seq<Step>, j: nat, n: nat, b: Id)
    requires j <= n <= |steps| && KeepsFillingRun(steps, b) && Stays(steps, j, n, b)
    ensures var before, now := Run(steps[..j]).budgets[b], Run(steps[..n]).budgets[b];
      before.amount <= now.amount && FillsUp(before.isolated, before.parent)
  {
    hide Run, Apply;
    if j == n {
      AlwaysFilling(steps, n, b);
    } else {
      EarlierRowsQualify(steps, j, n - 1, b);
      RunAt(steps, n - 1);
      assert KeepsFilling(Run(steps[..n - 1]), steps[n - 1], b);
      assert b in Run(steps[..n - 1]).budgets && b in Run(steps[..n]).budgets;
      hide KeepsFilling, KeepsFillingRun, Stays;
      RowMovesUp(Run(steps[..n - 1]), steps[n - 1], b);
    }
  }

  /** Without a reset in between, its drift is what was charged since, never negative. */
  lemma {:induction false} EarlierUsageIsLess(steps: seq<Step>, j: nat, n: nat, b: Id)
    requires j <= n <= |steps| && Stays(steps, j, n, b)
    requires forall i :: j <= i < n ==> steps[i] != Reset(b)
    requires KeepsFillingRun(steps, b)
    ensures Run(steps[..j]).budgets[b].usage <= Run(steps[..n]).budgets[b].usage
  {
    hide Run, Apply;
    if j < n {
      EarlierUsageIsLess(steps, j, n - 1, b);
      RunAt(steps, n - 1);
      assert KeepsFilling(Run(steps[..n - 1]), steps[n - 1], b);
      assert b in Run(steps[..n - 1]).budgets && b in Run(steps[..n]).budgets;
      hide KeepsFilling, KeepsFillingRun, Stays;
      RowMovesUp(Run(steps[..n - 1]), steps[n - 1], b);
    }
  }

  lemma {:induction false} RowMovesUp(db: Db, s: Step, b: Id)
    requires KeepsFilling(db, s, b) && b in db.budgets && b in Apply(db, s).budgets
    ensures db.budgets[b].amount <= Apply(db, s).budgets[b].amount
    ensures s != Reset(b) ==> db.budgets[b].usage <= Apply(db, s).budgets[b].usage
  {
    if s.Complete? {
      ChargeIsBounded(s.chain, s.cost, s.limitedAt, b);
    }
  }

  lemma {:induction false} AlwaysFilling(steps: seq<Step>, n: nat, b: Id)
    requires n <= |steps| && KeepsFillingRun(steps, b)
    ensures StillFills(Run(steps[..n]), b)
  {
    if n > 0 {
      AlwaysFilling(steps, n - 1, b);
      RunAt(steps, n - 1);
      hide Run, Apply;
      assert KeepsFilling(Run(steps[..n - 1]), steps[n - 1], b);
      hide KeepsFilling, KeepsFillingRun, StillFills;
      FillingStep(Run(steps[..n - 1]), steps[n - 1], b);
    }
  }

  ghost predicate StillFills(db: Db, b: Id) {
    b in db.budgets ==> FillsUp(db.budgets[b].isolated, db.budgets[b].parent)
  }

  lemma {:induction false} FillingStep(db: Db, s: Step, b: Id)
    requires KeepsFilling(db, s, b) && StillFills(db, b)
    ensures StillFills(Apply(db, s), b)
  {}
}
