/** Laws of `current_usage_usd` over whole runs: how far a budget can be overspent, and that
usage agrees with the usage records. */
module SpendLaws {
  import opened Model
  import opened Ledger
  import opened HoldLaws
  import Admission
  import BucketFill
  import HierarchySort

  // ---------- what one completion charges to one budget ----------

  lemma {:induction false} ChargedToNone(lines: seq<BucketFill.Line>, b: Id)
    requires forall i :: 0 <= i < |lines| ==> lines[i].budgetId != b || lines[i].charged == 0.0
    ensures ChargedTo(lines, b) == 0.0
  {
    if lines != [] {
      ChargedToNone(lines[1..], b);
    }
  }

  lemma {:induction false} ChargedToOne(lines: seq<BucketFill.Line>, b: Id, k: nat)
    requires k < |lines| && lines[k].budgetId == b
    requires forall i :: 0 <= i < |lines| && i != k ==> lines[i].budgetId != b
    ensures ChargedTo(lines, b) == lines[k].charged
  {
    if k == 0 {
      ChargedToNone(lines[1..], b);
    } else {
      ChargedToOne(lines[1..], b, k - 1);
    }
  }

  /** A completion charges a budget at its one place in the sorted chain, or not at all. */
  lemma {:induction false} ChargeOf(chain: Rows, cost: Money, limitedAt: Option<Id>, b: Id)
    ensures var sorted := HierarchySort.Sorted(chain);
      var charge := ChargedTo(BucketFill.Lines(sorted, cost, limitedAt), b);
      || charge == 0.0
      || exists k :: 0 <= k < |sorted| && sorted[k].id == b && sorted[k] in chain
                     && charge == BucketFill.LineAt(sorted, cost, limitedAt, k).charged
  {
    var sorted := HierarchySort.Sorted(chain);
    var lines := BucketFill.Lines(sorted, cost, limitedAt);
    HierarchySort.SortedDistinct(chain);
    HierarchySort.SortedIsStable(chain);
    if k :| 0 <= k < |sorted| && sorted[k].id == b {
      assert sorted[k] in sorted;
      ChargedToOne(lines, b, k);
    } else {
      ChargedToNone(lines, b);
    }
  }

  /** Never more than the actual cost, and nothing for a budget outside the chain. */
  lemma {:induction false} ChargeIsBounded(chain: Rows, cost: Money, limitedAt: Option<Id>, b: Id)
    ensures var charge := ChargedTo(BucketFill.Lines(HierarchySort.Sorted(chain), cost, limitedAt), b);
      && 0.0 <= charge <= Max(0.0, cost)
      && (b !in IdsOf(chain) ==> charge == 0.0)
  {
    var sorted := HierarchySort.Sorted(chain);
    var charge := ChargedTo(BucketFill.Lines(sorted, cost, limitedAt), b);
    ChargeOf(chain, cost, limitedAt, b);
    if charge != 0.0 {
      var k :| 0 <= k < |sorted| && sorted[k].id == b && sorted[k] in chain
               && charge == BucketFill.LineAt(sorted, cost, limitedAt, k).charged;
      if cost >= 0.0 {
        BucketFill.LinesAreBounded(sorted, cost, limitedAt, k);
      } else {
        BucketFill.NegativeStays(sorted, cost, limitedAt, k);
      }
    }
  }

  // ---------- the overspend bound ----------

  predicate NoFallback(allowFallback: bool, parent: Option<Id>) {
    !allowFallback || parent.None?
  }

  /** The budget never gets a usable fallback and its amount is not lowered. */
  ghost predicate KeepsTerms(db: Db, s: Step, b: Id) {
    match s
    case Create(x) => x.id == b ==> x.amount >= 0.0 && NoFallback(x.allowFallback, x.parent)
    case Configure(id, c) =>
      id == b && b in db.budgets ==> db.budgets[b].amount <= c.amount && NoFallback(c.allowFallback, c.parent)
    case _ => true
  }

  /** The conditions on a run under which a budget keeps its limit: it keeps its terms, and a
      request charges it only up to what it reserved on it. */
  ghost predicate Guarded(db: Db, s: Step, b: Id) {
    && KeepsTerms(db, s, b)
    && (s.Complete? && b in IdsOf(s.chain) && First(db.reservations, s.requestId).Some?
        ==> s.cost <= HeldBy(db.reservations, b, s.requestId))
  }

  ghost predicate GuardedRun(steps: seq<Step>, b: Id) {
    forall i :: 0 <= i < |steps| ==> Guarded(Run(steps[..i]), steps[i], b)
  }

  lemma GuardedPrefix(steps: seq<Step>, b: Id)
    requires steps != [] && GuardedRun(steps, b)
    ensures GuardedRun(steps[..|steps| - 1], b)
    ensures Guarded(Run(steps[..|steps| - 1]), steps[|steps| - 1], b)
  {
    var pre := steps[..|steps| - 1];
    forall i | 0 <= i < |pre|
      ensures Guarded(Run(pre[..i]), pre[i], b)
    {
      assert pre[..i] == steps[..i];
    }
  }

  /** What a completion that read the reservation `res` charges to or releases on `b` beyond
      what its request still holds there. */
  ghost function CompletionExcess(db: Db, res: Reservation, cost: Money, chain: Rows, b: Id): Money {
    var charged := if b in IdsOf(chain) then cost else 0.0;
    var released := if b == res.budgetId then res.estimate else 0.0;
    if !(IdsOf(HierarchySort.Sorted(chain)) <= db.budgets.Keys) then 0.0
    else Max(0.0, Max(charged, released) - HeldBy(db.reservations, b, res.requestId))
  }

  ghost function StepExcess(db: Db, s: Step, b: Id): Money {
    if s.Complete? && First(db.reservations, s.requestId).Some?
    then CompletionExcess(db, First(db.reservations, s.requestId).value, s.cost, s.chain, b)
    else 0.0
  }

  lemma {:induction false} GuardedHasNoExcess(db: Db, s: Step, b: Id)
    requires Consistent(db) && Guarded(db, s, b)
    ensures StepExcess(db, s, b) == 0.0
  {
    if s.Complete? && First(db.reservations, s.requestId).Some? {
      FirstHolds(db.reservations, s.requestId);
      HeldBounds(db.reservations, db.budgets.Keys, b, s.requestId, 0);
    }
  }

  /** The budget row stays non-negative and without a usable fallback; `owed` is what is still
      to be released of reservations that are gone. */
  ghost predicate KeepsLimit(row: Budget, held: Money, owed: Money, slack: Money) {
    && row.amount >= 0.0
    && NoFallback(row.allowFallback, row.parent)
    && row.usage + held <= row.amount + slack
    && held + owed - slack <= row.pending
  }

  lemma {:induction false} ReserveKeepsLimit(db: Db, s: Step, b: Id, owed: Money, slack: Money)
    requires Consistent(db) && Sane(s) && s.Reserve? && b in db.budgets && owed >= 0.0
    requires KeepsLimit(db.budgets[b], Held(db.reservations, b), owed, slack)
    ensures b in Apply(db, s).budgets
    ensures KeepsLimit(Apply(db, s).budgets[b], Held(Apply(db, s).reservations, b), owed, slack)
  {
    var bs := Candidates(db.budgets, s.rows, s.matches);
    CandidatesMembers(db.budgets, s.rows, s.matches);
    HeldByNew(bs, s.requestId, s.estimate, s.expiresAt, b);
    HeldAppend(db.reservations, NewReservations(bs, s.requestId, s.estimate, s.expiresAt), b);
    if Apply(db, s) != db && b in IdsOf(bs) {
      var k :| 0 <= k < |bs| && bs[k].id == b;
      assert bs[k] in bs;
      Admission.AdmittedWithoutFallback(bs, s.estimate, db.budgets[b]);
    }
  }

  /** What a completion leaves in one budget's row. */
  lemma {:induction false} CompletedRow(db: Db, res: Reservation, cost: Money, chain: Rows, limitedAt: Option<Id>, b: Id)
    requires b in db.budgets
    ensures var after := CommitCompletion(db, res, cost, chain, limitedAt);
      var sorted := HierarchySort.Sorted(chain);
      var row, charge := db.budgets[b], ChargedTo(BucketFill.Lines(sorted, cost, limitedAt), b);
      && b in after.budgets
      && (!(IdsOf(sorted) <= db.budgets.Keys) ==> after == db)
      && (IdsOf(sorted) <= db.budgets.Keys ==>
            && after.reservations == Without(db.reservations, res.requestId)
            && after.budgets[b] == row.(usage := row.usage + charge,
                                        pending := if b == res.budgetId then Max(0.0, row.pending - res.estimate) else row.pending))
  {
    hide HierarchySort.Sorted, BucketFill.Lines, ChargedTo, Without;
  }

  /** Whatever reservation a completion read, and whether or not it is still there. */
  lemma {:induction false} CompletionKeepsLimit(db: Db, res: Reservation, cost: Money, chain: Rows, limitedAt: Option<Id>,
                                                b: Id, owed: Money, slack: Money)
    requires Consistent(db) && b in db.budgets
    requires KeepsLimit(db.budgets[b], Held(db.reservations, b), owed, slack)
    ensures var after := CommitCompletion(db, res, cost, chain, limitedAt);
      b in after.budgets
      && KeepsLimit(after.budgets[b], Held(after.reservations, b), owed, slack + CompletionExcess(db, res, cost, chain, b))
  {
    CompletedRow(db, res, cost, chain, limitedAt, b);
    HeldWithout(db.reservations, b, res.requestId);
    HeldBounds(db.reservations, db.budgets.Keys, b, res.requestId, 0);
    ChargeIsBounded(chain, cost, limitedAt, b);
    hide HierarchySort.Sorted, BucketFill.Lines, ChargedTo, Held, HeldBy, Without, CommitCompletion, Consistent, IdsOf;
  }

  lemma {:induction false} StepKeepsLimit(db: Db, s: Step, b: Id, owed: Money, slack: Money)
    requires Consistent(db) && Sane(s) && KeepsTerms(db, s, b) && owed >= 0.0
    requires b in db.budgets && b in Apply(db, s).budgets
    requires KeepsLimit(db.budgets[b], Held(db.reservations, b), owed, slack)
    ensures KeepsLimit(Apply(db, s).budgets[b], Held(Apply(db, s).reservations, b), owed,
      if s == Reset(b) then Held(db.reservations, b) + owed else slack + StepExcess(db, s, b))
  {
    match s
    case Reserve(_, _, _, _, _) => ReserveKeepsLimit(db, s, b, owed, slack);
    case Complete(r, cost, chain, limitedAt) =>
      if First(db.reservations, r).Some? {
        CompletionKeepsLimit(db, First(db.reservations, r).value, cost, chain, limitedAt, b, owed, slack);
      }
    case Cleanup(now) =>
      StepHolds(db, s, b);
      HeldUnexpired(db.reservations, b, now);
      HeldBounds(db.reservations, db.budgets.Keys, b, "", now);
    case Reset(id) =>
    case Create(x) =>
    case Configure(id, c) =>
    case SetStatus(id, status) =>
    case Delete(ids) => StepHolds(db, s, b);
  }

  /** The overspend bound, over every run: what a budget has spent plus what is reserved on it
      stays within its amount, plus what was still live when it was last reset. */
  lemma {:induction false} OverspendIsBounded(steps: seq<Step>, b: Id)
    requires SaneRun(steps) && GuardedRun(steps, b) && b in Run(steps).budgets
    ensures var db := Run(steps);
      db.budgets[b].usage + Held(db.reservations, b) <= db.budgets[b].amount + LiveAtReset(steps, b)
  {
    LimitIsKept(steps, b);
  }

  lemma {:induction false} LimitIsKept(steps: seq<Step>, b: Id)
    requires SaneRun(steps) && GuardedRun(steps, b) && b in Run(steps).budgets
    ensures KeepsLimit(Run(steps).budgets[b], Held(Run(steps).reservations, b), 0.0, LiveAtReset(steps, b))
  {
    var pre, s := steps[..|steps| - 1], steps[|steps| - 1];
    GuardedPrefix(steps, b);
    ReachableIsConsistent(pre);
    if b in Run(pre).budgets {
      LimitIsKept(pre, b);
      GuardedHasNoExcess(Run(pre), s, b);
      StepKeepsLimit(Run(pre), s, b, 0.0, LiveAtReset(pre, b));
    } else {
      NewBudgetHoldsNothing(Run(pre), s, b);
    }
  }

  /** The promise of the design notes, for a budget that is never reset: two requests cannot
      both be admitted if only one of them fits. */
  lemma NoDoubleSpending(steps: seq<Step>, b: Id)
    requires SaneRun(steps) && GuardedRun(steps, b) && NoReset(steps, b) && b in Run(steps).budgets
    ensures Run(steps).budgets[b].usage + Held(Run(steps).reservations, b) <= Run(steps).budgets[b].amount
  {
    OverspendIsBounded(steps, b);
    NoneLiveAtReset(steps, b);
  }

  lemma {:induction false} NoneLiveAtReset(steps: seq<Step>, b: Id)
    requires NoReset(steps, b)
    ensures LiveAtReset(steps, b) == 0.0
  {
    if steps != [] {
      NoneLiveAtReset(steps[..|steps| - 1], b);
    }
  }

  // ---------- the two ledgers agree ----------

  /** Sum of the usage records of a budget. */
  ghost function Recorded(us: seq<UsageRecord>, b: Id): Money {
    if us == [] then 0.0
    else (if us[0].budgetId == b then us[0].cost else 0.0) + Recorded(us[1..], b)
  }

  /** Sum of the records that a budget already had when it was last reset. */
  ghost function RecordedAtReset(steps: seq<Step>, b: Id): Money {
    if steps == [] then 0.0
    else
      var db, s := Run(steps[..|steps| - 1]), steps[|steps| - 1];
      if b !in db.budgets then 0.0
      else if s == Reset(b) then Recorded(db.usage, b)
      else RecordedAtReset(steps[..|steps| - 1], b)
  }

  /** How the stream handler completes requests: never with a rate-limited budget. */
  predicate Unlimited(s: Step) {
    s.Complete? ==> s.limitedAt.None?
  }

  /** A budget that records nothing: a non-isolated child that is full on the row read. */
  predicate RecordsNothing(x: Budget) {
    !x.isolated && x.parent.Some? && x.amount <= x.usage
  }

  /** A completion with a negative cost writes it into the record of `b` and charges nothing. */
  ghost predicate Misrecords(db: Db, cost: Money, chain: Rows, b: Id) {
    && cost < 0.0
    && IdsOf(HierarchySort.Sorted(chain)) <= db.budgets.Keys
    && exists x :: x in chain && x.id == b && x.kind != Unknown && !RecordsNothing(x)
  }

  ghost predicate StepMisrecords(db: Db, s: Step, b: Id) {
    s.Complete? && First(db.reservations, s.requestId).Some? && Misrecords(db, s.cost, s.chain, b)
  }

  /** Some completion did, since the budget was created or last reset. */
  ghost predicate Misrecorded(steps: seq<Step>, b: Id) {
    steps != [] &&
    var db, s := Run(steps[..|steps| - 1]), steps[|steps| - 1];
    b in db.budgets && s != Reset(b) && (Misrecorded(steps[..|steps| - 1], b) || StepMisrecords(db, s, b))
  }

  lemma {:induction false} RecordedAppend(us: seq<UsageRecord>, vs: seq<UsageRecord>, b: Id)
    ensures Recorded(us + vs, b) == Recorded(us, b) + Recorded(vs, b)
  {
    if us == [] {
      assert us + vs == vs;
    } else {
      assert (us + vs)[1..] == us[1..] + vs;
      RecordedAppend(us[1..], vs, b);
    }
  }

  lemma {:induction false} RecordedKept(us: seq<UsageRecord>, b: Id, kept: set<Id>)
    requires b in kept
    ensures Recorded(RecordsOf(us, kept), b) == Recorded(us, b)
  {
    if us != [] {
      RecordedKept(us[1..], b, kept);
    }
  }

  ghost predicate RecordsIn(us: seq<UsageRecord>, ids: set<Id>) {
    forall i :: 0 <= i < |us| ==> us[i].budgetId in ids
  }

  lemma {:induction false} RecordedOfMissing(us: seq<UsageRecord>, ids: set<Id>, b: Id)
    requires RecordsIn(us, ids) && b !in ids
    ensures Recorded(us, b) == 0.0
  {
    if us != [] {
      RecordedOfMissing(us[1..], ids, b);
    }
  }

  lemma {:induction false} RecordsOfMembers(us: seq<UsageRecord>, kept: set<Id>)
    ensures RecordsIn(RecordsOf(us, kept), kept)
  {
    if us != [] {
      RecordsOfMembers(us[1..], kept);
    }
  }

  /** Foreign key of usage_records, over every run. */
  lemma {:induction false} RecordsHaveBudgets(steps: seq<Step>)
    ensures RecordsIn(Run(steps).usage, Run(steps).budgets.Keys)
  {
    if steps != [] {
      RecordsHaveBudgets(steps[..|steps| - 1]);
      hide Apply;
      StepKeepsRecords(Run(steps[..|steps| - 1]), steps[|steps| - 1]);
    }
  }

  lemma {:induction false} StepKeepsRecords(db: Db, s: Step)
    requires RecordsIn(db.usage, db.budgets.Keys)
    ensures RecordsIn(Apply(db, s).usage, Apply(db, s).budgets.Keys)
  {
    if s.Delete? {
      RecordsOfMembers(db.usage, (db.budgets - s.ids).Keys);
    } else if s.Complete? && First(db.reservations, s.requestId).Some? {
      hide BucketFill.Lines, HierarchySort.Sorted;
      CompletionKeepsRecords(db, First(db.reservations, s.requestId).value, s.cost, s.chain, s.limitedAt);
    }
  }

  lemma {:induction false} CompletionKeepsRecords(db: Db, res: Reservation, cost: Money, chain: Rows, limitedAt: Option<Id>)
    requires RecordsIn(db.usage, db.budgets.Keys)
    ensures var after := CommitCompletion(db, res, cost, chain, limitedAt);
      RecordsIn(after.usage, after.budgets.Keys)
  {
    var sorted := HierarchySort.Sorted(chain);
    if IdsOf(sorted) <= db.budgets.Keys {
      var lines := BucketFill.Lines(sorted, cost, limitedAt);
      hide HierarchySort.Sorted, BucketFill.Rest;
      forall k | 0 <= k < |sorted|
        ensures lines[k].budgetId in db.budgets
      {
        assert sorted[k].id in IdsOf(sorted);
      }
    }
  }

  lemma {:induction false} RecordedNowhere(lines: seq<BucketFill.Line>, r: RequestId, b: Id)
    requires forall i :: 0 <= i < |lines| ==> lines[i].budgetId != b
    ensures Recorded(NewRecords(lines, r), b) == 0.0
  {
    if lines != [] {
      RecordedNowhere(lines[1..], r, b);
      assert NewRecords(lines, r)[1..] == NewRecords(lines[1..], r);
    }
  }

  lemma {:induction false} RecordedOnce(lines: seq<BucketFill.Line>, r: RequestId, b: Id, k: nat)
    requires k < |lines| && lines[k].budgetId == b
    requires forall i :: 0 <= i < |lines| && i != k ==> lines[i].budgetId != b
    ensures Recorded(NewRecords(lines, r), b) == lines[k].recorded
  {
    assert NewRecords(lines, r)[1..] == NewRecords(lines[1..], r);
    if k == 0 {
      RecordedNowhere(lines[1..], r, b);
    } else {
      RecordedOnce(lines[1..], r, b, k - 1);
    }
  }

  /** What a completion writes into the records of a budget, less what it charges it: nothing,
      or the negative cost. */
  lemma {:induction false} RecordsLessCharges(chain: Rows, cost: Money, r: RequestId, b: Id)
    ensures var lines := BucketFill.Lines(HierarchySort.Sorted(chain), cost, None);
      Recorded(NewRecords(lines, r), b) - ChargedTo(lines, b) ==
        if cost < 0.0 && (exists x :: x in chain && x.id == b && x.kind != Unknown && !RecordsNothing(x))
        then cost else 0.0
  {
    var sorted := HierarchySort.Sorted(chain);
    var lines := BucketFill.Lines(sorted, cost, None);
    HierarchySort.SortedDistinct(chain);
    HierarchySort.SortedIsStable(chain);
    if k :| 0 <= k < |sorted| && sorted[k].id == b {
      assert sorted[k] in sorted;
      ChargedToOne(lines, b, k);
      RecordedOnce(lines, r, b, k);
      LineDifference(sorted, cost, k);
      hide BucketFill.LineAt, HierarchySort.Sorted;
      forall x | x in chain && x.id == b && x.kind != Unknown
        ensures x == sorted[k]
      {
        assert x in sorted;
      }
    } else {
      ChargedToNone(lines, b);
      RecordedNowhere(lines, r, b);
      forall x | x in chain && x.kind != Unknown
        ensures x.id != b
      {
        assert x in sorted;
      }
    }
  }

  lemma {:induction false} LineDifference(sorted: seq<Budget>, cost: Money, k: nat)
    requires k < |sorted|
    ensures var line := BucketFill.LineAt(sorted, cost, None, k);
      line.recorded - line.charged == if cost < 0.0 && !RecordsNothing(sorted[k]) then cost else 0.0
  {
    if cost >= 0.0 {
      BucketFill.CostIsConserved(sorted, cost, None, k);
    } else {
      BucketFill.NegativeStays(sorted, cost, None, k);
    }
  }

  /** How far a completion moves the two ledgers apart. */
  lemma {:induction false} CompletionLedger(db: Db, res: Reservation, cost: Money, chain: Rows, b: Id)
    requires b in db.budgets
    ensures var after := CommitCompletion(db, res, cost, chain, None);
      && b in after.budgets
      && (after.budgets[b].usage - db.budgets[b].usage) - (Recorded(after.usage, b) - Recorded(db.usage, b))
           == if Misrecords(db, cost, chain, b) then -cost else 0.0
  {
    RecordsLessCharges(chain, cost, res.requestId, b);
    RecordedAppend(db.usage, NewRecords(BucketFill.Lines(HierarchySort.Sorted(chain), cost, None), res.requestId), b);
    hide BucketFill.Lines, HierarchySort.Sorted, NewRecords, Recorded, ChargedTo;
  }

  lemma {:induction false} LedgerStep(db: Db, s: Step, b: Id)
    requires Unlimited(s) && b in db.budgets && b in Apply(db, s).budgets && s != Reset(b)
    ensures (Apply(db, s).budgets[b].usage - db.budgets[b].usage) - (Recorded(Apply(db, s).usage, b) - Recorded(db.usage, b))
      == if StepMisrecords(db, s, b) then -s.cost else 0.0
  {
    if s.Complete? && First(db.reservations, s.requestId).Some? {
      CompletionLedger(db, First(db.reservations, s.requestId).value, s.cost, s.chain, b);
    } else if s.Delete? && Apply(db, s) != db {
      RecordedKept(db.usage, b, (db.budgets - s.ids).Keys);
    }
  }

  /** The usage never falls behind the records, and it equals them iff nothing was misrecorded. */
  lemma {:induction false} LedgersAgreeIff(steps: seq<Step>, b: Id)
    requires forall i :: 0 <= i < |steps| ==> Unlimited(steps[i])
    requires b in Run(steps).budgets
    ensures var recorded := Recorded(Run(steps).usage, b) - RecordedAtReset(steps, b);
      && recorded <= Run(steps).budgets[b].usage
      && (Run(steps).budgets[b].usage == recorded <==> !Misrecorded(steps, b))
  {
    var pre, s := steps[..|steps| - 1], steps[|steps| - 1];
    if b in Run(pre).budgets {
      LedgersAgreeIff(pre, b);
      if s != Reset(b) {
        LedgerStep(Run(pre), s, b);
      }
    } else {
      RecordsHaveBudgets(pre);
      RecordedOfMissing(Run(pre).usage, Run(pre).budgets.Keys, b);
    }
  }

  /** The two ledgers agree in every run in which no completion has a negative cost: a budget's
      usage is the sum of the usage records written for it since its last reset. */
  lemma {:induction false} LedgersAgree(steps: seq<Step>, b: Id)
    requires forall i :: 0 <= i < |steps| ==> Unlimited(steps[i]) && (steps[i].Complete? ==> steps[i].cost >= 0.0)
    requires b in Run(steps).budgets
    ensures Run(steps).budgets[b].usage == Recorded(Run(steps).usage, b) - RecordedAtReset(steps, b)
  {
    LedgersAgreeIff(steps, b);
    NothingMisrecorded(steps, b);
  }

  lemma {:induction false} NothingMisrecorded(steps: seq<Step>, b: Id)
    requires forall i :: 0 <= i < |steps| ==> steps[i].Complete? ==> steps[i].cost >= 0.0
    ensures !Misrecorded(steps, b)
  {
    if steps != [] {
      NothingMisrecorded(steps[..|steps| - 1], b);
    }
  }
}
