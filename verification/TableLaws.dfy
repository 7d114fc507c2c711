/** What the background workers and the management API do to the tables, said over their columns
alone. */
module TableLaws {
  import opened Model
  import opened Ledger
  import opened Filters
  import opened HoldLaws
  import opened LedgerService
  import Effects
  import HierarchySort
  import SpendLaws

  // ---------- deletions ----------

  lemma {:induction false} UnexpiredIs(rs: seq<Reservation>, now: Instant)
    ensures Unexpired(rs, now) == Filter(rs, (x: Reservation) => x.expiresAt > now)
  {
    if rs != [] {
      UnexpiredIs(rs[1..], now);
    }
  }

  lemma {:induction false} ReservationsOfIs(rs: seq<Reservation>, kept: set<Id>)
    ensures ReservationsOf(rs, kept) == Filter(rs, (x: Reservation) => x.budgetId in kept)
  {
    if rs != [] {
      ReservationsOfIs(rs[1..], kept);
    }
  }

  lemma {:induction false} RecordsOfIs(us: seq<UsageRecord>, kept: set<Id>)
    ensures RecordsOf(us, kept) == Filter(us, (u: UsageRecord) => u.budgetId in kept)
  {
    if us != [] {
      RecordsOfIs(us[1..], kept);
    }
  }

  /** A cascade deletes the budgets from which the parent column leads to `id`, and with each its
      reservations and usage records. */
  lemma {:induction false} CascadeMeans(db: Db, id: Id)
    requires Consistent(db) && id in db.budgets
    ensures var after := Apply(db, Delete(Subtree(db.budgets, id)));
      && (forall x :: x in after.budgets <==> x in db.budgets && !exists n :: Climbs(db.budgets, x, id, n))
      && (forall x :: x in after.budgets ==> after.budgets[x] == db.budgets[x])
      && after.reservations == Filter(db.reservations, (x: Reservation) => x.budgetId in after.budgets)
      && after.usage == Filter(db.usage, (u: UsageRecord) => u.budgetId in after.budgets)
  {
    var kept := db.budgets - Subtree(db.budgets, id);
    DeleteWhole(db.budgets, id);
    SubtreeClimbs(db.budgets, id);
    hide Climbs, Subtree, NoDangling;
    ReservationsOfIs(db.reservations, kept.Keys);
    RecordsOfIs(db.usage, kept.Keys);
    SameFilter(db.reservations, (x: Reservation) => x.budgetId in kept.Keys, (x: Reservation) => x.budgetId in kept);
    SameFilter(db.usage, (u: UsageRecord) => u.budgetId in kept.Keys, (u: UsageRecord) => u.budgetId in kept);
  }

  lemma {:induction false} SameFilter<T>(xs: seq<T>, keep: T -> bool, keep': T -> bool)
    requires forall x :: keep(x) <==> keep'(x)
    ensures Filter(xs, keep) == Filter(xs, keep')
  {
    if xs != [] {
      SameFilter(xs[1..], keep, keep');
    }
  }

  // ---------- the cleanup ----------

  /** Only what was not expired stays; every pending amount falls by what had expired on its
      budget when the sums were made, but not below 0; nothing else changes. */
  lemma {:induction false} CleanupMeans(db: Db, summed: Instant, deleted: Instant)
    requires Consistent(db)
    ensures var after := Effects.CleanupAcross(db, summed, deleted);
      var left := Filter(db.reservations, (x: Reservation) => x.expiresAt > summed);
      && after.reservations == Filter(db.reservations, (x: Reservation) => x.expiresAt > deleted)
      && after.usage == db.usage && after.budgets.Keys == db.budgets.Keys
      && forall i :: i in db.budgets ==>
           var row := db.budgets[i];
           after.budgets[i] == row.(pending := Max(0.0, row.pending - (Held(db.reservations, i) - Held(left, i))))
  {
    UnexpiredIs(db.reservations, summed);
    UnexpiredIs(db.reservations, deleted);
    var after := Effects.CleanupAcross(db, summed, deleted);
    forall i | i in db.budgets
      ensures ExpiredOn(db.reservations, i, summed) == Held(db.reservations, i) - Held(Unexpired(db.reservations, summed), i)
      ensures !HasExpired(db.reservations, i, summed) ==> ExpiredOn(db.reservations, i, summed) == 0.0
      ensures db.budgets[i].pending >= 0.0
    {
      HeldUnexpired(db.reservations, i, summed);
    }
    hide Consistent, Held, ExpiredOn, HasExpired, Filter, Unexpired;
  }

  /** With one reading of the clock that is the Cleanup step. */
  lemma CleanupAtOnce(db: Db, now: Instant)
    ensures Apply(db, Cleanup(now)) == Effects.CleanupAcross(db, now, now)
  {}

  // ---------- who wrote a budget's columns last ----------

  /** CreateBudget or UpdateBudget writes the settings of `b`. */
  ghost predicate WritesSettings(db: Db, s: Step, b: Id) {
    match s
    case Create(x) => x.id == b && b !in db.budgets && (x.parent.Some? ==> x.parent.value in db.budgets)
    case Configure(id, c) => id == b && b in db.budgets && (c.parent.Some? ==> c.parent.value in db.budgets)
    case _ => false
  }

  ghost predicate HasSettings(row: Budget, s: Step) {
    match s
    case Create(x) =>
      row.amount == x.amount && row.parent == x.parent && row.isolated == x.isolated
      && row.allowFallback == x.allowFallback && row.enabled == x.enabled
    case Configure(_, c) =>
      row.amount == c.amount && row.parent == c.parent && row.isolated == c.isolated
      && row.allowFallback == c.allowFallback && row.enabled == c.enabled
    case _ => false
  }

  /** The approval handlers, or the creation. */
  ghost predicate WritesStatus(db: Db, s: Step, b: Id) {
    match s
    case Create(x) => x.id == b && b !in db.budgets && (x.parent.Some? ==> x.parent.value in db.budgets)
    case SetStatus(id, _) => id == b && b in db.budgets
    case _ => false
  }

  ghost predicate HasStatus(row: Budget, s: Step) {
    match s
    case Create(x) => row.status == x.status
    case SetStatus(_, status) => row.status == status
    case _ => false
  }

  ghost predicate SameSettings(row: Budget, row': Budget) {
    row'.amount == row.amount && row'.parent == row.parent && row'.isolated == row.isolated
    && row'.allowFallback == row.allowFallback && row'.enabled == row.enabled
  }

  /** What a step does to the columns of a budget that is there before it. */
  lemma {:induction false} StepKeepsColumns(db: Db, s: Step, b: Id)
    requires b in db.budgets && b in Apply(db, s).budgets
    ensures var row, row' := db.budgets[b], Apply(db, s).budgets[b];
      && row'.id == row.id && row'.kind == row.kind
      && (if WritesSettings(db, s, b) then HasSettings(row', s) else SameSettings(row, row'))
      && (if WritesStatus(db, s, b) then HasStatus(row', s) else row'.status == row.status)
  {
    if s.Complete? && First(db.reservations, s.requestId).Some? {
      SpendLaws.CompletedRow(db, First(db.reservations, s.requestId).value, s.cost, s.chain, s.limitedAt, b);
    }
    hide CommitCompletion, HierarchySort.Sorted, Candidates, Conflicts, First;
  }

  lemma {:induction false} OnlyCreateAdds(db: Db, s: Step, b: Id)
    requires b !in db.budgets && b in Apply(db, s).budgets
    ensures WritesSettings(db, s, b) && WritesStatus(db, s, b)
    ensures HasSettings(Apply(db, s).budgets[b], s) && HasStatus(Apply(db, s).budgets[b], s)
  {
    hide HierarchySort.Sorted, Candidates, Conflicts, First;
  }

  ghost predicate WroteSettings(steps: seq<Step>, b: Id, k: nat) {
    && k < |steps| && WritesSettings(Run(steps[..k]), steps[k], b)
    && forall j :: k < j < |steps| ==> !WritesSettings(Run(steps[..j]), steps[j], b)
  }

  ghost predicate WroteStatus(steps: seq<Step>, b: Id, k: nat) {
    && k < |steps| && WritesStatus(Run(steps[..k]), steps[k], b)
    && forall j :: k < j < |steps| ==> !WritesStatus(Run(steps[..j]), steps[j], b)
  }

  /** The last writers after one more step. */
  lemma {:induction false} LastWriter(steps: seq<Step>, b: Id, k: nat)
    requires steps != []
    ensures var pre, n := steps[..|steps| - 1], |steps| - 1;
      && (WritesSettings(Run(pre), steps[n], b) ==> WroteSettings(steps, b, n))
      && (WritesStatus(Run(pre), steps[n], b) ==> WroteStatus(steps, b, n))
      && (!WritesSettings(Run(pre), steps[n], b) && WroteSettings(pre, b, k) ==> WroteSettings(steps, b, k))
      && (!WritesStatus(Run(pre), steps[n], b) && WroteStatus(pre, b, k) ==> WroteStatus(steps, b, k))
  {
    hide WritesSettings, WritesStatus, Run;
    var pre := steps[..|steps| - 1];
    forall j | 0 <= j < |pre|
      ensures pre[..j] == steps[..j]
    {}
    assert steps[..|pre|] == pre;
  }

  /** In every run the settings of a budget are those of the last call that wrote them: neither
      checks, charges, cleanups and resets nor the approval handlers touch them. */
  lemma {:induction false} SettingsAreLastWritten(steps: seq<Step>, b: Id) returns (k: nat)
    requires b in Run(steps).budgets
    ensures WroteSettings(steps, b, k) && HasSettings(Run(steps).budgets[b], steps[k])
  {
    var pre, s := steps[..|steps| - 1], steps[|steps| - 1];
    k := |pre|;
    if b !in Run(pre).budgets {
      OnlyCreateAdds(Run(pre), s, b);
      LastWriter(steps, b, k);
    } else {
      StepKeepsColumns(Run(pre), s, b);
      hide Apply, WritesSettings, WroteSettings, WritesStatus, HasStatus;
      if !WritesSettings(Run(pre), s, b) {
        k := SettingsAreLastWritten(pre, b);
      }
      LastWriter(steps, b, k);
      InPrefix(steps, k);
    }
  }

  lemma InPrefix(steps: seq<Step>, k: nat)
    ensures k < |steps| - 1 ==> steps[..|steps| - 1][k] == steps[k]
  {}

  /** So is its approval status. */
  lemma {:induction false} StatusIsLastWritten(steps: seq<Step>, b: Id) returns (k: nat)
    requires b in Run(steps).budgets
    ensures WroteStatus(steps, b, k) && HasStatus(Run(steps).budgets[b], steps[k])
  {
    var pre, s := steps[..|steps| - 1], steps[|steps| - 1];
    k := |pre|;
    if b !in Run(pre).budgets {
      OnlyCreateAdds(Run(pre), s, b);
      LastWriter(steps, b, k);
    } else {
      StepKeepsColumns(Run(pre), s, b);
      hide Apply, WritesStatus, WroteStatus, WritesSettings, HasSettings;
      if !WritesStatus(Run(pre), s, b) {
        k := StatusIsLastWritten(pre, b);
      }
      LastWriter(steps, b, k);
      InPrefix(steps, k);
    }
  }
}
