/** The three tables behind budget enforcement and the committed transactions on them. */
module Ledger {
  import opened Model
  import HierarchySort
  import Admission
  import BucketFill

  type BudgetTable = map<Id, Budget>

  /** `reservations` and `usage` are in insertion order. */
  datatype Db = Db(budgets: BudgetTable, reservations: seq<Reservation>, usage: seq<UsageRecord>)

  const EMPTY := Db(map[], [], [])

  datatype Settings = Settings(
    amount: Money,
    parent: Option<Id>,
    isolated: bool,
    allowFallback: bool,
    enabled: bool)

  /** One committed transaction.
      - `Reserve`: CheckAndReserveBudget. `rows` is the answer of SELECT .. FOR UPDATE in its
        ORDER BY, `matches` the budgets whose CEL expression accepts the request.
      - `Complete`: DecrementBudgets. `chain` is the ancestor query's answer, read before the
        transaction and so possibly out of date.
      - `Cleanup`, `Reset`: the background workers, one budget at a time for resets.
      - `Create`, `Configure`, `SetStatus`, `Delete`: the management API. */
  datatype Step =
    | Reserve(requestId: RequestId, rows: IdList, matches: set<Id>, estimate: Money, expiresAt: Instant)
    | Complete(requestId: RequestId, cost: Money, chain: Rows, limitedAt: Option<Id>)
    | Cleanup(now: Instant)
    | Reset(id: Id)
    | Create(budget: Budget)
    | Configure(id: Id, settings: Settings)
    | SetStatus(id: Id, status: ApprovalStatus)
    | Delete(ids: set<Id>)

  // ---------- queries ----------

  /** The enabled and approved rows among `rows`, as locked and read. */
  function Enforced(t: BudgetTable, rows: seq<Id>): seq<Budget> {
    if rows == [] then []
    else if rows[0] in t && t[rows[0]].Enforced() then [t[rows[0]]] + Enforced(t, rows[1..])
    else Enforced(t, rows[1..])
  }

  function Matching(bs: seq<Budget>, matches: set<Id>): seq<Budget> {
    if bs == [] then []
    else if bs[0].id in matches then [bs[0]] + Matching(bs[1..], matches)
    else Matching(bs[1..], matches)
  }

  /** The budgets a request is checked against and reserves, most specific first. */
  function Candidates(t: BudgetTable, rows: seq<Id>, matches: set<Id>): seq<Budget> {
    HierarchySort.Sorted(Matching(Enforced(t, rows), matches))
  }

  /** GetReservationByRequestID: the oldest row of a request. */
  function First(rs: seq<Reservation>, r: RequestId): (f: Option<Reservation>)
    ensures f.Some? ==> f.value in rs && f.value.requestId == r
  {
    if rs == [] then None
    else if rs[0].requestId == r then Some(rs[0])
    else First(rs[1..], r)
  }

  /** UNIQUE (budget_id, request_id) would be violated by reserving `bs` for `r`. */
  predicate Conflicts(rs: seq<Reservation>, bs: seq<Budget>, r: RequestId) {
    exists i, j :: 0 <= i < |rs| && 0 <= j < |bs| && rs[i].requestId == r && rs[i].budgetId == bs[j].id
  }

  // ---------- row updates ----------

  function AddPending(t: BudgetTable, ids: set<Id>, estimate: Money): BudgetTable {
    map i | i in t :: if i in ids then t[i].(pending := t[i].pending + estimate) else t[i]
  }

  /** pending = GREATEST(0, pending - amount) */
  function Release(b: Budget, amount: Money): Budget {
    b.(pending := Max(0.0, b.pending - amount))
  }

  function ReleaseOn(t: BudgetTable, id: Id, amount: Money): BudgetTable {
    if id in t then t[id := Release(t[id], amount)] else t
  }

  function ChargedTo(lines: seq<BucketFill.Line>, id: Id): Money {
    if lines == [] then 0.0
    else (if lines[0].budgetId == id then lines[0].charged else 0.0) + ChargedTo(lines[1..], id)
  }

  function ChargeAll(t: BudgetTable, lines: seq<BucketFill.Line>): BudgetTable {
    map i | i in t :: t[i].(usage := t[i].usage + ChargedTo(lines, i))
  }

  function NewReservations(bs: seq<Budget>, r: RequestId, estimate: Money, expiresAt: Instant): (rs: seq<Reservation>)
    ensures |rs| == |bs|
  {
    seq(|bs|, i requires 0 <= i < |bs| => Reservation(bs[i].id, r, estimate, expiresAt))
  }

  function NewRecords(lines: seq<BucketFill.Line>, r: RequestId): (us: seq<UsageRecord>)
    ensures |us| == |lines|
  {
    seq(|lines|, i requires 0 <= i < |lines| =>
      UsageRecord(lines[i].budgetId, r, lines[i].recorded, lines[i].parentCharged))
  }

  /** DELETE FROM request_reservations WHERE request_id = r */
  function Without(rs: seq<Reservation>, r: RequestId): seq<Reservation> {
    if rs == [] then []
    else if rs[0].requestId == r then Without(rs[1..], r)
    else [rs[0]] + Without(rs[1..], r)
  }

  /** DELETE FROM request_reservations WHERE expires_at <= now */
  function Unexpired(rs: seq<Reservation>, now: Instant): seq<Reservation> {
    if rs == [] then []
    else if rs[0].expiresAt <= now then Unexpired(rs[1..], now)
    else [rs[0]] + Unexpired(rs[1..], now)
  }

  predicate HasExpired(rs: seq<Reservation>, id: Id, now: Instant) {
    exists i :: 0 <= i < |rs| && rs[i].budgetId == id && rs[i].expiresAt <= now
  }

  /** SUM(estimated_cost_usd) of the expired rows of one budget. */
  function ExpiredOn(rs: seq<Reservation>, id: Id, now: Instant): Money {
    if rs == [] then 0.0
    else (if rs[0].budgetId == id && rs[0].expiresAt <= now then rs[0].estimate else 0.0)
         + ExpiredOn(rs[1..], id, now)
  }

  function ReleaseExpired(t: BudgetTable, rs: seq<Reservation>, now: Instant): BudgetTable {
    map i | i in t :: if HasExpired(rs, i, now) then Release(t[i], ExpiredOn(rs, i, now)) else t[i]
  }

  /** ON DELETE CASCADE from budget_definitions. */
  function ReservationsOf(rs: seq<Reservation>, kept: set<Id>): seq<Reservation> {
    if rs == [] then []
    else if rs[0].budgetId in kept then [rs[0]] + ReservationsOf(rs[1..], kept)
    else ReservationsOf(rs[1..], kept)
  }

  function RecordsOf(us: seq<UsageRecord>, kept: set<Id>): seq<UsageRecord> {
    if us == [] then []
    else if us[0].budgetId in kept then [us[0]] + RecordsOf(us[1..], kept)
    else RecordsOf(us[1..], kept)
  }

  predicate ParentExists(t: BudgetTable, parent: Option<Id>) {
    parent.Some? ==> parent.value in t
  }

  /** The foreign key of parent_id. */
  predicate NoDangling(t: BudgetTable) {
    forall i :: i in t ==> ParentExists(t, t[i].parent)
  }

  // ---------- the transactions ----------

  function ApplyReserve(db: Db, s: Step): Db
    requires s.Reserve?
  {
    var bs := Candidates(db.budgets, s.rows, s.matches);
    if !Admission.Admits(bs, s.estimate) || Conflicts(db.reservations, bs, s.requestId) then db
    else Db(AddPending(db.budgets, IdsOf(bs), s.estimate),
            db.reservations + NewReservations(bs, s.requestId, s.estimate, s.expiresAt),
            db.usage)
  }

  /** The transaction of DecrementBudgets once the oldest reservation row `res` and the chain
      have been read. A usage record for a missing budget violates its foreign key and rolls
      everything back. */
  function CommitCompletion(db: Db, res: Reservation, cost: Money, chain: Rows, limitedAt: Option<Id>): Db {
    var sorted := HierarchySort.Sorted(chain);
    if !(IdsOf(sorted) <= db.budgets.Keys) then db
    else
      var lines := BucketFill.Lines(sorted, cost, limitedAt);
      Db(ReleaseOn(ChargeAll(db.budgets, lines), res.budgetId, res.estimate),
         Without(db.reservations, res.requestId),
         db.usage + NewRecords(lines, res.requestId))
  }

  function ApplyComplete(db: Db, s: Step): Db
    requires s.Complete?
  {
    match First(db.reservations, s.requestId)
    case None => db
    case Some(res) => CommitCompletion(db, res, s.cost, s.chain, s.limitedAt)
  }

  function ApplyDelete(db: Db, ids: set<Id>): Db {
    var kept := db.budgets - ids;
    if !NoDangling(kept) then db
    else Db(kept, ReservationsOf(db.reservations, kept.Keys), RecordsOf(db.usage, kept.Keys))
  }

  function Apply(db: Db, s: Step): Db {
    match s
    case Reserve(_, _, _, _, _) => ApplyReserve(db, s)
    case Complete(_, _, _, _) => ApplyComplete(db, s)
    case Cleanup(now) =>
      db.(budgets := ReleaseExpired(db.budgets, db.reservations, now),
          reservations := Unexpired(db.reservations, now))
    case Reset(id) =>
      if id in db.budgets then
        db.(budgets := db.budgets[id := db.budgets[id].(usage := 0.0, pending := 0.0)])
      else db
    case Create(b) =>
      if b.id !in db.budgets && ParentExists(db.budgets, b.parent) then
        db.(budgets := db.budgets[b.id := b.(usage := 0.0, pending := 0.0)])
      else db
    case Configure(id, c) =>
      if id in db.budgets && ParentExists(db.budgets, c.parent) then
        db.(budgets := db.budgets[id := db.budgets[id].(
          amount := c.amount, parent := c.parent, isolated := c.isolated,
          allowFallback := c.allowFallback, enabled := c.enabled)])
      else db
    case SetStatus(id, status) =>
      if id in db.budgets then
        db.(budgets := db.budgets[id := db.budgets[id].(status := status)])
      else db
    case Delete(ids) => ApplyDelete(db, ids)
  }

  /** The tables after a run that starts empty. */
  function Run(steps: seq<Step>): Db {
    if steps == [] then EMPTY
    else Apply(Run(steps[..|steps| - 1]), steps[|steps| - 1])
  }

  lemma RunAt(steps: seq<Step>, n: nat)
    requires n < |steps|
    ensures Run(steps[..n + 1]) == Apply(Run(steps[..n]), steps[n])
  {
    assert steps[..n + 1][..n] == steps[..n];
  }

  /** Estimates are products of prices and token counts, so never negative. */
  predicate Sane(s: Step) {
    s.Reserve? ==> s.estimate >= 0.0
  }

  predicate SaneRun(steps: seq<Step>) {
    forall i :: 0 <= i < |steps| ==> Sane(steps[i])
  }

  // ---------- structural facts ----------

  ghost predicate Keyed(t: BudgetTable) {
    forall i :: i in t ==> t[i].id == i
  }

  ghost predicate UniqueRows(rs: seq<Reservation>) {
    forall i, j :: 0 <= i < j < |rs| ==> rs[i].requestId != rs[j].requestId || rs[i].budgetId != rs[j].budgetId
  }

  ghost predicate RowsIn(rs: seq<Reservation>, ids: set<Id>) {
    forall i :: 0 <= i < |rs| ==> rs[i].budgetId in ids && rs[i].estimate >= 0.0
  }

  /** What every reachable state satisfies. */
  ghost predicate Consistent(db: Db) {
    && Keyed(db.budgets)
    && NoDangling(db.budgets)
    && UniqueRows(db.reservations)
    && RowsIn(db.reservations, db.budgets.Keys)
    && (forall i :: i in db.budgets ==> db.budgets[i].pending >= 0.0)
  }

  lemma {:induction false} EnforcedMembers(t: BudgetTable, rows: seq<Id>)
    requires Keyed(t)
    ensures forall b :: b in Enforced(t, rows) <==> b.id in rows && b.id in t && b == t[b.id] && b.Enforced()
  {
    if rows != [] {
      EnforcedMembers(t, rows[1..]);
      assert rows == [rows[0]] + rows[1..];
    }
  }

  lemma {:induction false} EnforcedDistinct(t: BudgetTable, rows: seq<Id>)
    requires Keyed(t) && Distinct(rows)
    ensures DistinctIds(Enforced(t, rows))
  {
    if rows != [] {
      EnforcedDistinct(t, rows[1..]);
      EnforcedMembers(t, rows[1..]);
    }
  }

  lemma {:induction false} MatchingMembers(bs: seq<Budget>, matches: set<Id>)
    ensures forall b :: b in Matching(bs, matches) <==> b in bs && b.id in matches
    ensures DistinctIds(bs) ==> DistinctIds(Matching(bs, matches))
  {
    if bs != [] {
      MatchingMembers(bs[1..], matches);
      assert bs == [bs[0]] + bs[1..];
    }
  }

  /** The candidates are exactly the locked, enforced, matched rows of known type. */
  lemma {:induction false} CandidatesMembers(t: BudgetTable, rows: IdList, matches: set<Id>)
    requires Keyed(t)
    ensures DistinctIds(Candidates(t, rows, matches))
    ensures forall b :: b in Candidates(t, rows, matches) <==>
      b.id in rows && b.id in matches && b.id in t && b == t[b.id] && b.Enforced() && b.kind != Unknown
  {
    var e := Enforced(t, rows);
    EnforcedMembers(t, rows);
    EnforcedDistinct(t, rows);
    MatchingMembers(e, matches);
    HierarchySort.SortedIsStable(Matching(e, matches));
    HierarchySort.SortedDistinct(Matching(e, matches));
  }

  lemma {:induction false} WithoutMembers(rs: seq<Reservation>, r: RequestId)
    requires UniqueRows(rs)
    ensures UniqueRows(Without(rs, r))
    ensures forall x :: x in Without(rs, r) <==> x in rs && x.requestId != r
  {
    if rs != [] {
      WithoutMembers(rs[1..], r);
      assert rs == [rs[0]] + rs[1..];
      assert forall x :: x in rs[1..] ==> x.requestId != rs[0].requestId || x.budgetId != rs[0].budgetId;
    }
  }

  lemma {:induction false} UnexpiredMembers(rs: seq<Reservation>, now: Instant)
    requires UniqueRows(rs)
    ensures UniqueRows(Unexpired(rs, now))
    ensures forall x :: x in Unexpired(rs, now) <==> x in rs && now < x.expiresAt
  {
    if rs != [] {
      UnexpiredMembers(rs[1..], now);
      assert rs == [rs[0]] + rs[1..];
      assert forall x :: x in rs[1..] ==> x.requestId != rs[0].requestId || x.budgetId != rs[0].budgetId;
    }
  }

  lemma {:induction false} ReservationsOfMembers(rs: seq<Reservation>, kept: set<Id>)
    requires UniqueRows(rs)
    ensures UniqueRows(ReservationsOf(rs, kept))
    ensures forall x :: x in ReservationsOf(rs, kept) <==> x in rs && x.budgetId in kept
  {
    if rs != [] {
      ReservationsOfMembers(rs[1..], kept);
      assert rs == [rs[0]] + rs[1..];
      assert forall x :: x in rs[1..] ==> x.requestId != rs[0].requestId || x.budgetId != rs[0].budgetId;
    }
  }

  lemma RowsInByMembers(rs: seq<Reservation>, ids: set<Id>)
    requires forall x :: x in rs ==> x.budgetId in ids && x.estimate >= 0.0
    ensures RowsIn(rs, ids)
  {
    forall i | 0 <= i < |rs|
      ensures rs[i].budgetId in ids && rs[i].estimate >= 0.0
    {
      assert rs[i] in rs;
    }
  }

  lemma {:induction false} NewRowsAreUnique(rs: seq<Reservation>, bs: Rows, r: RequestId, estimate: Money, expiresAt: Instant)
    requires UniqueRows(rs) && !Conflicts(rs, bs, r)
    ensures UniqueRows(rs + NewReservations(bs, r, estimate, expiresAt))
  {
    var all := rs + NewReservations(bs, r, estimate, expiresAt);
    forall i, j | 0 <= i < j < |all|
      ensures all[i].requestId != all[j].requestId || all[i].budgetId != all[j].budgetId
    {
      if |rs| <= j {
        assert all[j].budgetId == bs[j - |rs|].id && all[j].requestId == r;
        if i < |rs| {
          assert all[i] == rs[i];
        } else {
          assert all[i].budgetId == bs[i - |rs|].id;
        }
      }
    }
  }

  lemma {:induction false} ReserveKeepsConsistent(db: Db, s: Step)
    requires Consistent(db) && s.Reserve? && Sane(s)
    ensures Consistent(ApplyReserve(db, s))
  {
    hide UniqueRows, Conflicts, Candidates;
    var bs := Candidates(db.budgets, s.rows, s.matches);
    CandidatesMembers(db.budgets, s.rows, s.matches);
    if ApplyReserve(db, s) != db {
      NewRowsAreUnique(db.reservations, bs, s.requestId, s.estimate, s.expiresAt);
      forall j | 0 <= j < |bs|
        ensures bs[j].id in db.budgets
      {
        assert bs[j] in bs;
      }
    }
  }

  lemma {:induction false} StepKeepsConsistent(db: Db, s: Step)
    requires Consistent(db) && Sane(s)
    ensures Consistent(Apply(db, s))
  {
    var after := Apply(db, s);
    match s
    case Reserve(_, _, _, _, _) => ReserveKeepsConsistent(db, s);
    case Complete(r, _, _, _) =>
      WithoutMembers(db.reservations, r);
      RowsInByMembers(Without(db.reservations, r), db.budgets.Keys);
    case Cleanup(now) =>
      UnexpiredMembers(db.reservations, now);
      RowsInByMembers(after.reservations, db.budgets.Keys);
    case Reset(id) =>
    case Create(b) =>
    case Configure(id, c) =>
    case SetStatus(id, status) =>
    case Delete(ids) =>
      if after != db {
        ReservationsOfMembers(db.reservations, (db.budgets - ids).Keys);
        RowsInByMembers(after.reservations, after.budgets.Keys);
      }
  }

  /** The tables are consistent after every run. */
  lemma {:induction false} ReachableIsConsistent(steps: seq<Step>)
    requires SaneRun(steps)
    ensures Consistent(Run(steps))
  {
    if steps != [] {
      ReachableIsConsistent(steps[..|steps| - 1]);
      StepKeepsConsistent(Run(steps[..|steps| - 1]), steps[|steps| - 1]);
    }
  }
}
