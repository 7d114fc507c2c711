/** The budget service over its mutable tables. Each method is one transaction, or one
background job, and is proved to have the effect of the corresponding ledger step. */
module LedgerService {
  import opened Model
  import opened Ledger
  import opened Forest
  import opened Descendants
  import opened Effects
  import opened HoldLaws
  import Admission
  import BucketFill
  import ChargeLaws
  import CheckLaws
  import HierarchySort
  import RunningMinimum

  datatype CheckResult =
    | NoBudgets
    | RateLimited(at: Id, remaining: Money)
    | Reserved(fallback: Option<Id>, remaining: Money)
    | CommitFailed

  datatype DecrementResult =
    | NoReservation
    | QueryNeverEnds
    | RolledBack
    | Charged(lines: seq<BucketFill.Line>, remaining: Money)

  datatype DeleteResult =
    | Deleted(count: nat)
    | NotFound
    | DescendantsNeverEnd

  /** Parent links inside the table. */
  function ParentsOf(t: BudgetTable): Parents {
    map i | i in t && t[i].parent.Some? && t[i].parent.value in t :: t[i].parent.value
  }

  function RowsAt(t: BudgetTable, path: seq<Id>): seq<Budget> {
    if path == [] then []
    else if path[0] in t then [t[path[0]]] + RowsAt(t, path[1..])
    else RowsAt(t, path[1..])
  }

  /** GetBudgetsWithParent: a budget and its ancestors by depth; None if the query never ends. */
  function AncestorRows(t: BudgetTable, id: Id): Option<seq<Budget>> {
    if id !in t then Some([])
    else
      match Walk(ParentsOf(t), id, {})
      case None => None
      case Some(path) => Some(RowsAt(t, path))
  }

  lemma {:induction false} RowsAtDistinct(t: BudgetTable, path: seq<Id>)
    requires Keyed(t) && Distinct(path)
    ensures DistinctIds(RowsAt(t, path))
    ensures forall b :: b in RowsAt(t, path) ==> b.id in path && b.id in t && b == t[b.id]
  {
    if path != [] {
      RowsAtDistinct(t, path[1..]);
      assert path == [path[0]] + path[1..];
    }
  }

  lemma {:induction false} AncestorRowsAreRows(t: BudgetTable, id: Id)
    requires Keyed(t) && AncestorRows(t, id).Some?
    ensures DistinctIds(AncestorRows(t, id).value)
    ensures forall b :: b in AncestorRows(t, id).value ==> b.id in t && b == t[b.id]
  {
    if id in t {
      WalkIsAncestorPath(ParentsOf(t), id);
      RowsAtDistinct(t, Walk(ParentsOf(t), id, {}).value);
    }
  }

  /** The budget's row, its parent's, and so on along the parent column up to a row without one. */
  ghost predicate IsChain(t: BudgetTable, id: Id, rows: seq<Budget>) {
    && rows != [] && id in t && rows[0] == t[id]
    && (forall k :: 0 <= k < |rows| - 1 ==>
          rows[k].parent.Some? && rows[k].parent.value in t && rows[k + 1] == t[rows[k].parent.value])
    && rows[|rows| - 1].parent.None?
  }

  lemma {:induction false} RowsAtAll(t: BudgetTable, path: seq<Id>)
    requires forall k :: 0 <= k < |path| ==> path[k] in t
    ensures |RowsAt(t, path)| == |path| && forall k :: 0 <= k < |path| ==> RowsAt(t, path)[k] == t[path[k]]
  {
    if path != [] {
      RowsAtAll(t, path[1..]);
    }
  }

  lemma {:induction false} PathInTable(t: BudgetTable, id: Id, path: seq<Id>, k: nat)
    requires id in t && AncestorPath(ParentsOf(t), id, path) && k < |path|
    ensures path[k] in t
    ensures k + 1 < |path| ==> path[k] in ParentsOf(t) && ParentsOf(t)[path[k]] == path[k + 1]
  {
    var p := ParentsOf(t);
    assert Up(p, id, k) == Some(path[k]);
    if k > 0 {
      PathInTable(t, id, path, k - 1);
    } else {
      assert path[0] == id;
    }
    if k + 1 < |path| {
      assert Up(p, id, k + 1) == Some(path[k + 1]);
      UpCompose(p, id, k, 1);
    }
  }

  lemma {:induction false} PathIsChain(t: BudgetTable, id: Id, path: seq<Id>)
    requires Keyed(t) && NoDangling(t) && id in t && AncestorPath(ParentsOf(t), id, path)
    ensures IsChain(t, id, RowsAt(t, path))
  {
    var p, n := ParentsOf(t), |path| - 1;
    forall k | 0 <= k < |path|
      ensures path[k] in t
      ensures k < n ==> path[k] in p && p[path[k]] == path[k + 1]
    {
      PathInTable(t, id, path, k);
    }
    RowsAtAll(t, path);
    var rows := RowsAt(t, path);
    forall k | 0 <= k < n
      ensures rows[k].parent.Some? && rows[k].parent.value in t && rows[k + 1] == t[rows[k].parent.value]
    {
      assert rows[k] == t[path[k]] && rows[k + 1] == t[path[k + 1]];
    }
    assert Up(p, id, 0) == Some(path[0]);
    UpCompose(p, id, n, 1);
    assert Up(p, id, n) == Some(path[n]) && Up(p, path[n], 1) == None;
    assert path[n] !in p;
    assert ParentExists(t, t[path[n]].parent);
  }

  lemma {:induction false} ChainIsUp(t: BudgetTable, id: Id, rows: seq<Budget>, k: nat)
    requires Keyed(t) && IsChain(t, id, rows) && k <= |rows|
    ensures Up(ParentsOf(t), id, k) == if k < |rows| then Some(rows[k].id) else None
    ensures k < |rows| ==> rows[k].id in t && rows[k] == t[rows[k].id]
  {
    if k > 0 {
      ChainIsUp(t, id, rows, k - 1);
      UpCompose(ParentsOf(t), id, k - 1, 1);
    }
  }

  lemma {:induction false} OneChain(t: BudgetTable, id: Id, rows: seq<Budget>, others: seq<Budget>, n: nat)
    requires IsChain(t, id, rows) && IsChain(t, id, others) && n <= |rows|
    ensures n <= |others| && rows[..n] == others[..n]
  {
    if n > 0 {
      OneChain(t, id, rows, others, n - 1);
      if n > 1 {
        assert rows[n - 2] == rows[..n - 1][n - 2] == others[..n - 1][n - 2] == others[n - 2];
      }
      assert rows[..n] == rows[..n - 1] + [rows[n - 1]];
    }
  }

  /** The ancestor query over the parent column: it answers with the whole chain up to the root,
      and fails to end exactly when there is no such chain. */
  lemma {:induction false} AncestorRowsIff(t: BudgetTable, id: Id, rows: seq<Budget>)
    requires Keyed(t) && NoDangling(t) && id in t
    ensures AncestorRows(t, id) == Some(rows) <==> IsChain(t, id, rows)
    ensures AncestorRows(t, id).Some? ==> IsChain(t, id, AncestorRows(t, id).value)
  {
    var p := ParentsOf(t);
    WalkIsAncestorPath(p, id);
    if AncestorRows(t, id).Some? {
      PathIsChain(t, id, Walk(p, id, {}).value);
    }
    if IsChain(t, id, rows) {
      ChainIsUp(t, id, rows, |rows|);
      assert !Endless(p, id);
      var found := AncestorRows(t, id).value;
      OneChain(t, id, rows, found, |rows|);
      OneChain(t, id, found, rows, |found|);
      assert rows == rows[..|rows|] && found == found[..|found|];
    }
  }

  /** What a check reports about the candidates it visited. */
  ghost predicate Reports(bs: seq<Budget>, estimate: Money, at: Option<Id>, fallback: Option<Id>, remaining: Money) {
    exists n :: Admission.Visits(bs, estimate, n) && Admission.Pointers(bs, estimate, n, at, fallback)
                && RunningMinimum.Tracks(Admission.Remainders(bs), n, remaining)
  }

  ghost predicate ReportsDenial(bs: seq<Budget>, estimate: Money, result: CheckResult)
    requires result.RateLimited?
  {
    exists fallback :: Reports(bs, estimate, Some(result.at), fallback, result.remaining)
  }

  /** The lines of the charge and the running minimum of what each budget has left. */
  ghost predicate ChargeReport(chain: Rows, cost: Money, limitedAt: Option<Id>, result: DecrementResult) {
    var sorted := HierarchySort.Sorted(chain);
    && result.Charged? && result.lines == BucketFill.Lines(sorted, cost, limitedAt)
    && RunningMinimum.Tracks(BucketFill.Remainders(sorted, cost, limitedAt), |sorted|, result.remaining)
  }

  ghost predicate IsOldest(rs: seq<Reservation>, r: RequestId, i: nat) {
    i < |rs| && rs[i].requestId == r && forall j :: 0 <= j < i ==> rs[j].requestId != r
  }

  /** Nothing of the cost is lost on the way up to a non-isolated root of known type. */
  ghost predicate LosesNothing(before: Db, after: Db, chain: seq<Budget>, cost: Money) {
    chain != [] && !chain[|chain| - 1].isolated && chain[|chain| - 1].kind != Unknown ==>
      ChargeLaws.Rise(before.budgets, after.budgets, chain) == cost
  }

  /** The call over the columns of the tables: the request's oldest reservation leads to the chain
      of its budget, and that is what is charged. */
  ghost predicate DecrementMeans(before: Db, after: Db, r: RequestId, cost: Money, limitedAt: Option<Id>, result: DecrementResult) {
    match result
    case NoReservation => after == before && forall i :: 0 <= i < |before.reservations| ==> before.reservations[i].requestId != r
    case QueryNeverEnds =>
      after == before && exists i: nat :: IsOldest(before.reservations, r, i) && IsRootless(before, i)
    case RolledBack => false
    case Charged(_, _) =>
      exists i: nat, chain: seq<Budget> :: IsOldest(before.reservations, r, i) && FollowsChain(before, after, i, chain, cost, limitedAt)
  }

  ghost predicate IsRootless(db: Db, i: nat)
    requires i < |db.reservations|
  {
    forall chain :: !IsChain(db.budgets, db.reservations[i].budgetId, chain)
  }

  ghost predicate FollowsChain(before: Db, after: Db, i: nat, chain: seq<Budget>, cost: Money, limitedAt: Option<Id>)
    requires i < |before.reservations|
  {
    && IsChain(before.budgets, before.reservations[i].budgetId, chain) && DistinctIds(chain)
    && after == CommitCompletion(before, before.reservations[i], cost, chain, limitedAt)
    && (limitedAt.None? && cost >= 0.0 ==> LosesNothing(before, after, chain, cost))
  }

  lemma {:induction false} FirstIsOldest(db: Db, r: RequestId) returns (i: nat)
    requires Consistent(db) && First(db.reservations, r).Some?
    ensures IsOldest(db.reservations, r, i) && First(db.reservations, r) == Some(db.reservations[i])
    ensures db.reservations[i].budgetId in db.budgets
  {
    ChargeLaws.FirstIs(db.reservations, r);
    i := 0;
    while db.reservations[i].requestId != r
      invariant i < |db.reservations| && forall j :: 0 <= j < i ==> db.reservations[j].requestId != r
      invariant exists j :: i <= j < |db.reservations| && db.reservations[j].requestId == r
      decreases |db.reservations| - i
    {
      i := i + 1;
    }
  }

  lemma {:induction false} ChainIsFollowed(db: Db, i: nat, cost: Money, chain: seq<Budget>, limitedAt: Option<Id>)
    requires Consistent(db) && i < |db.reservations| && IsChain(db.budgets, db.reservations[i].budgetId, chain)
    requires AncestorRows(db.budgets, db.reservations[i].budgetId) == Some(chain)
    ensures DistinctIds(chain)
    ensures FollowsChain(db, CommitCompletion(db, db.reservations[i], cost, chain, limitedAt), i, chain, cost, limitedAt)
  {
    AncestorRowsAreRows(db.budgets, db.reservations[i].budgetId);
    var root := chain[|chain| - 1];
    assert root in chain;
    if limitedAt.None? && cost >= 0.0 && !root.isolated && root.kind != Unknown {
      ChargeLaws.WholeCostIsCharged(db, db.reservations[i], cost, chain);
    }
    hide CommitCompletion;
  }

  lemma SortedChainInTable(chain: seq<Budget>, t: BudgetTable)
    requires forall b :: b in chain ==> b.id in t
    ensures IdsOf(HierarchySort.Sorted(chain)) <= t.Keys
  {
    HierarchySort.SortedIsStable(chain);
    SortedInTable(HierarchySort.Sorted(chain), t);
  }

  ghost predicate ResultOf(db: Db, s: Step, result: CheckResult)
    requires s.Reserve?
  {
    var matched := Matching(Enforced(db.budgets, s.rows), s.matches);
    var bs := HierarchySort.Sorted(matched);
    match result
    case NoBudgets => matched == []
    case RateLimited(at, remaining) =>
      matched != [] && !Admission.Admits(bs, s.estimate) && ReportsDenial(bs, s.estimate, result)
    case CommitFailed =>
      matched != [] && Admission.Admits(bs, s.estimate) && Conflicts(db.reservations, bs, s.requestId)
    case Reserved(fallback, remaining) =>
      && matched != [] && Admission.Admits(bs, s.estimate) && !Conflicts(db.reservations, bs, s.requestId)
      && Reports(bs, s.estimate, None, fallback, remaining)
  }

  /** The answer over the columns of the tables. */
  ghost predicate AnswerMeans(db: Db, s: Step, result: CheckResult)
    requires s.Reserve?
  {
    var t := db.budgets;
    match result
    case NoBudgets => !CheckLaws.SomethingMatches(t, s.rows, s.matches)
    case RateLimited(at, _) =>
      !CheckLaws.AllFit(t, s.rows, s.matches, s.estimate) && CheckLaws.Names(t, s, at)
    case CommitFailed =>
      && CheckLaws.AllFit(t, s.rows, s.matches, s.estimate)
      && CheckLaws.AlreadyHolds(db, s.rows, s.matches, s.requestId)
    case Reserved(fallback, _) =>
      && CheckLaws.SomethingMatches(t, s.rows, s.matches)
      && CheckLaws.AllFit(t, s.rows, s.matches, s.estimate)
      && !CheckLaws.AlreadyHolds(db, s.rows, s.matches, s.requestId)
      && CheckLaws.ReportsFallback(t, s, fallback)
  }

  lemma {:induction false} ResultMeans(db: Db, s: Step, result: CheckResult)
    requires Keyed(db.budgets) && s.Reserve? && ResultOf(db, s, result)
    ensures AnswerMeans(db, s, result)
  {
    var t, bs := db.budgets, Candidates(db.budgets, s.rows, s.matches);
    CheckLaws.MatchedIff(t, s.rows, s.matches);
    CheckLaws.AdmitsIfAllFit(t, s.rows, s.matches, s.estimate);
    CheckLaws.ConflictsIfHolds(db, s);
    hide CheckLaws.Names, CheckLaws.ReportsFallback, CheckLaws.AllFit, CheckLaws.SomethingMatches, CheckLaws.AlreadyHolds;
    hide Admission.Pointers, RunningMinimum.Tracks, Conflicts, Admission.Passes;
    match result
    case RateLimited(at, remaining) =>
      var fallback :| Reports(bs, s.estimate, Some(at), fallback, remaining);
      var n :| Admission.Visits(bs, s.estimate, n) && Admission.Pointers(bs, s.estimate, n, Some(at), fallback)
               && RunningMinimum.Tracks(Admission.Remainders(bs), n, remaining);
      CheckLaws.DenialNames(t, s, n, at, fallback);
    case Reserved(fallback, remaining) =>
      var n :| Admission.Visits(bs, s.estimate, n) && Admission.Pointers(bs, s.estimate, n, None, fallback)
               && RunningMinimum.Tracks(Admission.Remainders(bs), n, remaining);
      assert n == |bs|;
      CheckLaws.AdmissionReports(t, s, fallback);
    case _ =>
  }

  /** A budget and everything below it. */
  ghost function Subtree(t: BudgetTable, id: Id): set<Id> {
    set x | x in t && (x == id || IsAncestor(ParentsOf(t), id, x))
  }

  /** Each budget of the path is the parent of the one before it. */
  ghost predicate IsClimb(t: BudgetTable, path: seq<Id>) {
    path != [] && forall k :: 0 <= k < |path| - 1 ==> path[k] in t && t[path[k]].parent == Some(path[k + 1])
  }

  /** Following the parent column from `x`, one comes to `id` after `n` links. */
  ghost predicate Climbs(t: BudgetTable, x: Id, id: Id, n: nat) {
    exists path :: |path| == n + 1 && IsClimb(t, path) && path[0] == x && path[n] == id
  }

  lemma {:induction false} ClimbIsUp(t: BudgetTable, path: seq<Id>)
    requires NoDangling(t) && IsClimb(t, path)
    ensures Up(ParentsOf(t), path[0], |path| - 1) == Some(path[|path| - 1])
    decreases path
  {
    if |path| > 1 {
      assert ParentExists(t, t[path[0]].parent);
      ClimbIsUp(t, path[1..]);
    }
  }

  lemma {:induction false} UpIsClimb(t: BudgetTable, x: Id, n: nat) returns (path: seq<Id>)
    requires Up(ParentsOf(t), x, n).Some?
    ensures |path| == n + 1 && IsClimb(t, path) && path[0] == x && Some(path[n]) == Up(ParentsOf(t), x, n)
    decreases n
  {
    if n == 0 {
      path := [x];
    } else {
      var rest := UpIsClimb(t, ParentsOf(t)[x], n - 1);
      path := [x] + rest;
    }
  }

  lemma {:induction false} ClimbsIffUp(t: BudgetTable, x: Id, id: Id, n: nat)
    requires NoDangling(t)
    ensures Climbs(t, x, id, n) <==> Up(ParentsOf(t), x, n) == Some(id)
  {
    if path :| |path| == n + 1 && IsClimb(t, path) && path[0] == x && path[n] == id {
      ClimbIsUp(t, path);
    }
    if Up(ParentsOf(t), x, n) == Some(id) {
      var path := UpIsClimb(t, x, n);
    }
  }

  /** The subtree over the parent column, and what it is to be one's own ancestor. */
  lemma {:induction false} SubtreeClimbs(t: BudgetTable, id: Id)
    requires NoDangling(t)
    ensures forall x :: x in Subtree(t, id) <==> x in t && exists n :: Climbs(t, x, id, n)
    ensures OnCycle(ParentsOf(t), id) <==> exists n :: n > 0 && Climbs(t, id, id, n)
  {
    forall x, n: nat
      ensures Climbs(t, x, id, n) <==> Up(ParentsOf(t), x, n) == Some(id)
    {
      ClimbsIffUp(t, x, id, n);
    }
    hide Climbs, ParentsOf;
    forall x | x in t
      ensures x in Subtree(t, id) <==> exists n :: Climbs(t, x, id, n)
    {
      assert Up(ParentsOf(t), x, 0) == Some(x);
      if n :| n > 0 && Up(ParentsOf(t), x, n) == Some(id) {
        assert Climbs(t, x, id, n);
      }
      if x == id {
        assert Climbs(t, x, id, 0);
      }
      if n :| Climbs(t, x, id, n) {
        assert Up(ParentsOf(t), x, n) == Some(id);
      }
    }
    if n :| n > 0 && Up(ParentsOf(t), id, n) == Some(id) {
      assert Climbs(t, id, id, n);
    }
    if n :| n > 0 && Climbs(t, id, id, n) {
      assert Up(ParentsOf(t), id, n) == Some(id);
    }
  }

  lemma CycleIsInTable(t: BudgetTable, id: Id)
    requires OnCycle(ParentsOf(t), id)
    ensures id in t
  {
    assert id in ParentsOf(t);
  }

  /** The row about to be deleted has no child left, so its foreign key is not violated. */
  lemma {:induction false} DeleteNext(t: BudgetTable, id: Id, ids: seq<Id>, k: nat)
    requires NoDangling(t) && k < |ids| && ChildrenFirst(ParentsOf(t), ids)
    requires forall x :: x in ids <==> IsAncestor(ParentsOf(t), id, x)
    requires NoDangling(t - SetOf(ids[..k]))
    ensures t - SetOf(ids[..k + 1]) == t - SetOf(ids[..k]) - {ids[k]}
    ensures NoDangling(t - SetOf(ids[..k + 1]))
  {
    var p, tx := ParentsOf(t), t - SetOf(ids[..k]);
    assert ids[..k + 1] == ids[..k] + [ids[k]];
    assert ids[k] in ids;
    forall i | i in t && t[i].parent == Some(ids[k])
      ensures i in SetOf(ids[..k])
    {
      assert ParentExists(t, t[i].parent);
      ParentIsAncestor(p, i);
      AncestorsChain(p, id, ids[k], i);
      var m :| 0 <= m < |ids| && ids[m] == i;
      assert m < k;
      assert ids[..k][m] == i;
    }
  }

  /** No prefix of the deletions leaves a dangling parent: they can be made one by one. */
  lemma {:induction false} PrefixesDangleNowhere(t: BudgetTable, id: Id, ids: seq<Id>, k: nat)
    requires NoDangling(t) && k <= |ids| && ChildrenFirst(ParentsOf(t), ids)
    requires forall x :: x in ids <==> IsAncestor(ParentsOf(t), id, x)
    ensures NoDangling(t - SetOf(ids[..k]))
  {
    if k == 0 {
      assert t - SetOf(ids[..0]) == t;
    } else {
      PrefixesDangleNowhere(t, id, ids, k - 1);
      DeleteNext(t, id, ids, k - 1);
    }
  }

  lemma {:induction false} SubtreeIs(t: BudgetTable, id: Id, ids: seq<Id>)
    requires id in t && !OnCycle(ParentsOf(t), id) && Distinct(ids)
    requires forall x :: x in ids <==> IsAncestor(ParentsOf(t), id, x)
    ensures Subtree(t, id) == SetOf(ids) + {id}
    ensures |Subtree(t, id)| == |ids| + 1
  {
    forall x | x in ids
      ensures x in t
    {
      assert x in ParentsOf(t);
    }
    DistinctSize(ids);
    assert id !in ids;
    assert |SetOf(ids) + {id}| == |SetOf(ids)| + 1;
  }

  lemma {:induction false} DistinctSize(xs: seq<Id>)
    requires Distinct(xs)
    ensures |SetOf(xs)| == |xs|
  {
    if xs != [] {
      DistinctSize(xs[1..]);
      assert xs == [xs[0]] + xs[1..];
      assert SetOf(xs) == {xs[0]} + SetOf(xs[1..]);
      assert xs[0] !in SetOf(xs[1..]);
    }
  }

  lemma {:induction false} DeleteWhole(t: BudgetTable, id: Id)
    requires NoDangling(t)
    ensures NoDangling(t - Subtree(t, id))
  {
    var p := ParentsOf(t);
    forall i | i in t && i !in Subtree(t, id)
      ensures ParentExists(t - Subtree(t, id), t[i].parent)
    {
      if t[i].parent.Some? && t[i].parent.value in Subtree(t, id) {
        ParentIsAncestor(p, i);
        if t[i].parent.value != id {
          AncestorsChain(p, id, t[i].parent.value, i);
        }
      }
    }
  }

  /** Without the descendants and the budget itself the table has lost the subtree. */
  lemma {:induction false} CascadeLeaves(db: Db, id: Id, ids: seq<Id>)
    requires Consistent(db) && id in db.budgets && !OnCycle(ParentsOf(db.budgets), id) && Distinct(ids)
    requires forall x :: x in ids <==> IsAncestor(ParentsOf(db.budgets), id, x)
    ensures var kept := db.budgets - SetOf(ids) - {id};
      && kept == db.budgets - Subtree(db.budgets, id)
      && Apply(db, Delete(Subtree(db.budgets, id)))
           == Db(kept, ReservationsOf(db.reservations, kept.Keys), RecordsOf(db.usage, kept.Keys))
      && Consistent(Db(kept, ReservationsOf(db.reservations, kept.Keys), RecordsOf(db.usage, kept.Keys)))
    ensures |Subtree(db.budgets, id)| == |ids| + 1
  {
    SubtreeIs(db.budgets, id, ids);
    DeleteWhole(db.budgets, id);
    StepKeepsConsistent(db, Delete(Subtree(db.budgets, id)));
    hide Subtree, IsAncestor, OnCycle, NoDangling, Consistent;
    assert db.budgets - SetOf(ids) - {id} == db.budgets - Subtree(db.budgets, id);
  }

  // ---------- loops over the tables, step by step ----------

  function Prefix(bs: seq<Budget>, k: nat): set<Id>
    requires k <= |bs|
  {
    IdsOf(bs[..k])
  }

  lemma AddPendingStep(t: BudgetTable, bs: Rows, k: nat, estimate: Money)
    requires k < |bs|
    ensures AddPending(t, Prefix(bs, k + 1), estimate) ==
      var u := AddPending(t, Prefix(bs, k), estimate);
      if bs[k].id in u then u[bs[k].id := u[bs[k].id].(pending := u[bs[k].id].pending + estimate)] else u
  {
    PrefixStep(bs, k);
    assert bs[k].id !in Prefix(bs, k);
  }

  lemma PrefixStep(bs: seq<Budget>, k: nat)
    requires k < |bs|
    ensures Prefix(bs, k + 1) == Prefix(bs, k) + {bs[k].id}
  {
    assert bs[..k + 1] == bs[..k] + [bs[k]];
    forall i | i in Prefix(bs, k)
      ensures i in Prefix(bs, k + 1)
    {
      var j :| 0 <= j < k && bs[..k][j].id == i;
      assert bs[..k + 1][j].id == i;
    }
    assert bs[..k + 1][k].id == bs[k].id;
    forall i | i in Prefix(bs, k + 1)
      ensures i in Prefix(bs, k) + {bs[k].id}
    {
      var j :| 0 <= j < k + 1 && bs[..k + 1][j].id == i;
      if j < k {
        assert bs[..k][j].id == i;
      }
    }
  }

  lemma {:induction false} ChargedToAppend(ls: seq<BucketFill.Line>, l: BucketFill.Line, id: Id)
    ensures ChargedTo(ls + [l], id) == ChargedTo(ls, id) + if l.budgetId == id then l.charged else 0.0
  {
    if ls == [] {
      assert ls + [l] == [l];
    } else {
      assert (ls + [l])[1..] == ls[1..] + [l];
      ChargedToAppend(ls[1..], l, id);
    }
  }

  lemma ChargeStep(t: BudgetTable, ls: seq<BucketFill.Line>, k: nat)
    requires k < |ls|
    ensures ChargeAll(t, ls[..k + 1]) ==
      var u, l := ChargeAll(t, ls[..k]), ls[k];
      if l.charged != 0.0 && l.budgetId in u
      then u[l.budgetId := u[l.budgetId].(usage := u[l.budgetId].usage + l.charged)] else u
  {
    assert ls[..k + 1] == ls[..k] + [ls[k]];
    forall i | i in t
      ensures ChargedTo(ls[..k + 1], i) == ChargedTo(ls[..k], i) + if ls[k].budgetId == i then ls[k].charged else 0.0
    {
      ChargedToAppend(ls[..k], ls[k], i);
    }
  }

  lemma RecordStep(ls: seq<BucketFill.Line>, r: RequestId, k: nat)
    requires k < |ls|
    ensures NewRecords(ls, r)[..k + 1] ==
      NewRecords(ls, r)[..k] + [UsageRecord(ls[k].budgetId, r, ls[k].recorded, ls[k].parentCharged)]
  {}

  lemma {:induction false} ExpiredIds(rs: seq<Reservation>, now: Instant, id: Id)
    ensures id in ExpiredBudgets(rs, now) <==> HasExpired(rs, id, now)
  {
    if rs != [] {
      ExpiredIds(rs[1..], now, id);
      if HasExpired(rs[1..], id, now) {
        var i :| 0 <= i < |rs[1..]| && rs[1..][i].budgetId == id && rs[1..][i].expiresAt <= now;
        assert rs[i + 1].budgetId == id && rs[i + 1].expiresAt <= now;
      }
      if HasExpired(rs, id, now) {
        var i :| 0 <= i < |rs| && rs[i].budgetId == id && rs[i].expiresAt <= now;
        assert i > 0 ==> rs[1..][i - 1].budgetId == id && rs[1..][i - 1].expiresAt <= now;
      }
    }
  }

  lemma {:induction false} UnexpiredCounts(rs: seq<Reservation>, now: Instant, x: Reservation)
    ensures multiset(Unexpired(rs, now))[x] == if x.expiresAt <= now then 0 else multiset(rs)[x]
  {
    if rs != [] {
      UnexpiredCounts(rs[1..], now, x);
      assert rs == [rs[0]] + rs[1..];
    }
  }

  lemma NextGroup(groups: seq<Id>, rs: seq<Reservation>, now: Instant, k: nat)
    requires AreGroups(rs, groups, now) && k < |groups|
    ensures SetOf(groups[..k + 1]) == SetOf(groups[..k]) + {groups[k]} && groups[k] !in SetOf(groups[..k])
  {
    assert groups[..k + 1] == groups[..k] + [groups[k]];
  }

  lemma CleanupKeepsConsistent(db: Db, summed: Instant, deleted: Instant)
    requires Consistent(db)
    ensures Consistent(CleanupAcross(db, summed, deleted))
  {
    UnexpiredMembers(db.reservations, deleted);
    RowsInByMembers(Unexpired(db.reservations, deleted), db.budgets.Keys);
  }

  /** The groups of SELECT .. WHERE expires_at <= NOW() GROUP BY budget_id. */
  function ExpiredBudgets(rs: seq<Reservation>, now: Instant): set<Id> {
    if rs == [] then {}
    else (if rs[0].expiresAt <= now then {rs[0].budgetId} else {}) + ExpiredBudgets(rs[1..], now)
  }

  class Service {
    var budgets: BudgetTable
    var reservations: seq<Reservation>
    var usage: seq<UsageRecord>

    ghost function Tables(): Db
      reads this
    {
      Db(budgets, reservations, usage)
    }

    ghost predicate Valid()
      reads this
    {
      Consistent(Tables())
    }

    constructor ()
      ensures Tables() == EMPTY && Valid()
    {
      budgets, reservations, usage := map[], [], [];
    }

    /** SELECT .. FOR UPDATE answered `rows`; `matches` are the budgets whose expression accepts
        the request. */
    method CheckAndReserveBudget(rows: IdList, matches: set<Id>, requestId: RequestId, estimate: Money, expiresAt: Instant)
      returns (result: CheckResult)
      requires Valid() && estimate >= 0.0
      modifies this
      ensures Valid()
      ensures Tables() == Apply(old(Tables()), Reserve(requestId, rows, matches, estimate, expiresAt))
      ensures ResultOf(old(Tables()), Reserve(requestId, rows, matches, estimate, expiresAt), result)
      ensures AnswerMeans(old(Tables()), Reserve(requestId, rows, matches, estimate, expiresAt), result)
    {
      ghost var before, step := Tables(), Reserve(requestId, rows, matches, estimate, expiresAt);
      StepKeepsConsistent(before, step);
      forall r | ResultOf(before, step, r) ensures AnswerMeans(before, step, r) {
        ResultMeans(before, step, r);
      }
      hide AnswerMeans;
      var matched := Matching(Enforced(budgets, rows), matches);
      if matched == [] {
        return NoBudgets;
      }
      var sorted := HierarchySort.SortBudgetsByHierarchy(matched);
      CandidatesMembers(budgets, rows, matches);
      hide Consistent, Conflicts, AddPending, NewReservations, Admission.Admits, Reports, ReportsDenial;
      result := CheckCandidates(sorted, requestId, estimate, expiresAt);
    }

    /** The loop over the sorted candidates and the writes that follow if it lets them all pass. */
    method CheckCandidates(sorted: Rows, requestId: RequestId, estimate: Money, expiresAt: Instant)
      returns (result: CheckResult)
      modifies this`budgets, this`reservations
      ensures usage == old(usage)
      ensures
        if !Admission.Admits(sorted, estimate) then
          result.RateLimited? && ReportsDenial(sorted, estimate, result) && Tables() == old(Tables())
        else if Conflicts(old(reservations), sorted, requestId) then
          result == CommitFailed && Tables() == old(Tables())
        else
          && result.Reserved? && Reports(sorted, estimate, None, result.fallback, result.remaining)
          && budgets == AddPending(old(budgets), IdsOf(sorted), estimate)
          && reservations == old(reservations) + NewReservations(sorted, requestId, estimate, expiresAt)
    {
      hide Conflicts, AddPending, NewReservations, IdsOf, Admission.Admits, Admission.Pointers, RunningMinimum.Tracks;
      var rateLimitedAt, fallback, minRemaining, visited := Admission.Decide(sorted, estimate);
      if rateLimitedAt.Some? {
        result := RateLimited(rateLimitedAt.value, minRemaining);
        assert Reports(sorted, estimate, Some(result.at), fallback, result.remaining);
        return;
      }
      var txBudgets, txReservations, aborted := WriteReservations(sorted, requestId, estimate, expiresAt);
      if aborted {
        return CommitFailed;
      }
      budgets, reservations := txBudgets, txReservations;
      result := Reserved(fallback, minRemaining);
    }

    /** INSERT and UPDATE for each candidate. A duplicate (budget, request) pair aborts the
        transaction; the statements after it have no effect. */
    method WriteReservations(sorted: Rows, requestId: RequestId, estimate: Money, expiresAt: Instant)
      returns (txBudgets: BudgetTable, txReservations: seq<Reservation>, aborted: bool)
      ensures aborted <==> Conflicts(reservations, sorted, requestId)
      ensures !aborted ==> txBudgets == AddPending(budgets, IdsOf(sorted), estimate)
      ensures !aborted ==> txReservations == reservations + NewReservations(sorted, requestId, estimate, expiresAt)
    {
      txBudgets, txReservations, aborted := budgets, reservations, false;
      assert AddPending(budgets, Prefix(sorted, 0), estimate) == budgets;
      for k := 0 to |sorted|
        invariant aborted <==> Conflicts(reservations, sorted[..k], requestId)
        invariant !aborted ==> txBudgets == AddPending(budgets, Prefix(sorted, k), estimate)
        invariant !aborted ==>
          txReservations == reservations + NewReservations(sorted, requestId, estimate, expiresAt)[..k]
      {
        var budget := sorted[k];
        var duplicate := HasRow(txReservations, budget.id, requestId);
        ConflictStep(reservations, sorted, k, requestId);
        AddPendingStep(budgets, sorted, k, estimate);
        if !aborted {
          DuplicateIsOld(reservations, sorted, k, requestId, estimate, expiresAt);
        }
        if !aborted && !duplicate {
          txReservations := txReservations + [Reservation(budget.id, requestId, estimate, expiresAt)];
          if budget.id in txBudgets {
            txBudgets := txBudgets[budget.id := txBudgets[budget.id].(pending := txBudgets[budget.id].pending + estimate)];
          }
        } else {
          aborted := true;
        }
      }
      assert sorted[..|sorted|] == sorted;
    }

    /** GetBudgetsWithParent as a loop over the parent links. */
    method GetBudgetsWithParent(id: Id) returns (chain: Option<seq<Budget>>)
      ensures chain == AncestorRows(budgets, id)
      ensures id !in budgets ==> chain == Some([])
      ensures Keyed(budgets) && NoDangling(budgets) && id in budgets ==>
        if chain.Some? then IsChain(budgets, id, chain.value) else forall rows :: !IsChain(budgets, id, rows)
    {
      if Keyed(budgets) && NoDangling(budgets) && id in budgets {
        forall rows ensures AncestorRows(budgets, id) == Some(rows) <==> IsChain(budgets, id, rows) {
          AncestorRowsIff(budgets, id, rows);
        }
      }
      hide IsChain, NoDangling;
      if id !in budgets {
        return Some([]);
      }
      var p := ParentsOf(budgets);
      var path, x, seen := [], id, {};
      PrependNothing(Walk(p, id, {}));
      while x in p && x !in seen
        invariant x in budgets
        invariant Walk(p, id, {}) == Prepend(path, Walk(p, x, seen))
        decreases p.Keys - seen
      {
        PrependOne(path, x, Walk(p, p[x], seen + {x}));
        path, x, seen := path + [x], p[x], seen + {x};
      }
      if x in seen {
        return None;
      }
      chain := Some(RowsAt(budgets, path + [x]));
    }

    /** DecrementBudgets with nothing in between: read the request's first reservation, read the
        ancestors of its budget, and charge them. */
    method DecrementBudgets(requestId: RequestId, actualCost: Money, limitedAt: Option<Id>)
      returns (result: DecrementResult)
      requires Valid()
      modifies this
      ensures Valid()
      ensures match First(old(reservations), requestId)
        case None => result == NoReservation && Tables() == old(Tables())
        case Some(res) =>
          match AncestorRows(old(budgets), res.budgetId)
          case None => result == QueryNeverEnds && Tables() == old(Tables())
          case Some(chain) =>
            && DistinctIds(chain)
            && Tables() == Apply(old(Tables()), Complete(requestId, actualCost, chain, limitedAt))
            && ChargeReport(chain, actualCost, limitedAt, result)
      ensures DecrementMeans(old(Tables()), Tables(), requestId, actualCost, limitedAt, result)
    {
      ghost var before := Tables();
      ChargeLaws.FirstIs(reservations, requestId);
      var first := First(reservations, requestId);
      if first.None? {
        return NoReservation;
      }
      ghost var i := FirstIsOldest(before, requestId);
      hide FollowsChain, IsOldest, IsChain;
      var found := GetBudgetsWithParent(first.value.budgetId);
      if found.None? {
        return QueryNeverEnds;
      }
      AncestorRowsAreRows(budgets, first.value.budgetId);
      SortedChainInTable(found.value, budgets);
      ChainIsFollowed(before, i, actualCost, found.value, limitedAt);
      result := CommitDecrement(first.value, actualCost, found.value, limitedAt);
    }

    /** The transaction of DecrementBudgets, with a reservation and a chain that were read before
        it began: they need not be in the tables any more. A budget of the chain that is gone
        violates the foreign key of the usage records and rolls everything back. */
    method CommitDecrement(res: Reservation, actualCost: Money, chain: Rows, limitedAt: Option<Id>)
      returns (result: DecrementResult)
      requires Valid()
      modifies this
      ensures Valid()
      ensures Tables() == CommitCompletion(old(Tables()), res, actualCost, chain, limitedAt)
      ensures result.RolledBack? <==> !(IdsOf(HierarchySort.Sorted(chain)) <= old(budgets).Keys)
      ensures result.RolledBack? || ChargeReport(chain, actualCost, limitedAt, result)
    {
      ghost var before := World(Tables(), []);
      DoKeepsSound(before, Completion(res, actualCost, chain, limitedAt));
      var sorted := HierarchySort.SortBudgetsByHierarchy(chain);
      if !(IdsOf(sorted) <= budgets.Keys) {
        return RolledBack;
      }
      var lines, minRemaining := BucketFill.ChargeChain(sorted, actualCost, limitedAt);
      WriteCharges(res.requestId, lines);
      reservations := Without(reservations, res.requestId);
      budgets := ReleaseOn(budgets, res.budgetId, res.estimate);
      result := Charged(lines, minRemaining);
    }

    /** IncrementUsageInTx and CreateUsageRecordInTx for each budget of the chain. */
    method WriteCharges(requestId: RequestId, lines: seq<BucketFill.Line>)
      requires forall k :: 0 <= k < |lines| ==> lines[k].charged >= 0.0
      modifies this`budgets, this`usage
      ensures budgets == ChargeAll(old(budgets), lines)
      ensures usage == old(usage) + NewRecords(lines, requestId)
    {
      ghost var budgets0, usage0 := budgets, usage;
      assert ChargeAll(budgets0, []) == budgets0;
      for k := 0 to |lines|
        invariant budgets == ChargeAll(budgets0, lines[..k])
        invariant usage == usage0 + NewRecords(lines, requestId)[..k]
      {
        hide ChargeAll, NewRecords;
        var line := lines[k];
        ChargeStep(budgets0, lines, k);
        RecordStep(lines, requestId, k);
        if line.charged > 0.0 {
          if line.budgetId in budgets {
            budgets := budgets[line.budgetId := budgets[line.budgetId].(usage := budgets[line.budgetId].usage + line.charged)];
          }
        }
        usage := usage + [UsageRecord(line.budgetId, requestId, line.recorded, line.parentCharged)];
      }
      assert lines[..|lines|] == lines;
    }

    /** The SELECT of a cleanup: one sum per budget with expired reservations, in some order. */
    method SumExpired(now: Instant) returns (sums: seq<Due>, ghost groups: seq<Id>)
      ensures AreGroups(reservations, groups, now) && sums == SumsOf(reservations, groups, now)
    {
      var todo := ExpiredBudgets(reservations, now);
      sums, groups := [], [];
      forall i ensures i in todo <==> HasExpired(reservations, i, now) {
        ExpiredIds(reservations, now, i);
      }
      while todo != {}
        invariant Distinct(groups) && forall i :: i in groups ==> i !in todo
        invariant forall i :: i in todo || i in groups <==> HasExpired(reservations, i, now)
        invariant sums == SumsOf(reservations, groups, now)
        decreases todo
      {
        hide HasExpired, ExpiredOn;
        var id :| id in todo;
        sums, todo := sums + [Due(id, ExpiredOn(reservations, id, now))], todo - {id};
        ghost var more := groups + [id];
        assert forall i :: i in more <==> i in groups || i == id;
        groups := more;
      }
    }

    /** Its DELETE: every expired row goes and is counted, every other row stays, and each
        budget's live reservations fall by what had expired on it. */
    method DeleteExpired(now: Instant) returns (count: nat)
      modifies this`reservations
      ensures forall x :: multiset(reservations)[x] == if x.expiresAt <= now then 0 else multiset(old(reservations))[x]
      ensures count + |reservations| == |old(reservations)|
      ensures forall b :: Held(reservations, b) == Held(old(reservations), b) - ExpiredOn(old(reservations), b, now)
      ensures reservations == Unexpired(old(reservations), now)
    {
      UnexpiredShrinks(reservations, now);
      forall x ensures multiset(Unexpired(reservations, now))[x] == if x.expiresAt <= now then 0 else multiset(reservations)[x] {
        UnexpiredCounts(reservations, now, x);
      }
      forall b ensures Held(Unexpired(reservations, now), b) == Held(reservations, b) - ExpiredOn(reservations, b, now) {
        HeldUnexpired(reservations, b, now);
      }
      count := |reservations| - |Unexpired(reservations, now)|;
      reservations := Unexpired(reservations, now);
    }

    /** One of its UPDATEs: only the pending amount of one budget changes; it falls by the sum,
        but not below zero. */
    method ReleasePending(due: Due)
      modifies this`budgets
      ensures budgets.Keys == old(budgets).Keys
      ensures forall i :: i in budgets ==> budgets[i] == old(budgets)[i].(pending := budgets[i].pending)
      ensures forall i :: i in budgets && i != due.id ==> budgets[i].pending == old(budgets)[i].pending
      ensures due.id in budgets ==>
        var before, after := old(budgets)[due.id].pending, budgets[due.id].pending;
        && 0.0 <= after && before - due.amount <= after
        && (after == 0.0 || after + due.amount == before)
      ensures budgets == ReleaseOn(old(budgets), due.id, due.amount)
    {
      budgets := ReleaseOn(budgets, due.id, due.amount);
    }

    /** Its UPDATEs together release what had expired, in whatever order the groups come. */
    method ReleaseSums(sums: seq<Due>, ghost rs: seq<Reservation>, ghost groups: seq<Id>, ghost now: Instant)
      requires AreGroups(rs, groups, now) && sums == SumsOf(rs, groups, now)
      modifies this`budgets
      ensures budgets == ReleaseExpired(old(budgets), rs, now)
    {
      ghost var budgets0 := budgets;
      ReleaseNone(budgets0, rs, now);
      assert SetOf(groups[..0]) == {};
      for k := 0 to |sums|
        invariant budgets == ReleaseDone(budgets0, rs, now, SetOf(groups[..k]))
      {
        hide ReleaseDone, ReleaseOn, ExpiredOn, AreGroups;
        NextGroup(groups, rs, now, k);
        ReleaseNext(budgets0, rs, now, SetOf(groups[..k]), groups[k]);
        ReleasePending(sums[k]);
      }
      assert groups[..|groups|] == groups;
      ReleaseEvery(budgets0, rs, groups, now);
    }

    /** CleanupExpiredReservations with nothing in between its statements; the SELECT and the
        DELETE each read the clock. With one reading it is a Cleanup step. */
    method CleanupExpiredReservations(summed: Instant, deleted: Instant) returns (count: nat)
      requires Valid()
      modifies this
      ensures Valid()
      ensures Tables() == CleanupAcross(old(Tables()), summed, deleted)
      ensures summed == deleted ==> Tables() == Apply(old(Tables()), Cleanup(summed))
      ensures count == |old(reservations)| - |reservations|
    {
      hide ReleaseExpired, AreGroups, SumsOf, Consistent, Held, ExpiredOn, Unexpired;
      ghost var rs := reservations;
      var sums, groups := SumExpired(summed);
      count := DeleteExpired(deleted);
      ReleaseSums(sums, rs, groups, summed);
      CleanupKeepsConsistent(old(Tables()), summed, deleted);
    }

    /** ResetExpiredBudgets for the budgets whose period is over. */
    method ResetExpiredBudgets(over: IdList) returns (count: nat)
      requires Valid() && (forall i :: i in over ==> i in budgets)
      modifies this`budgets
      ensures Valid() && count == |over|
      ensures budgets.Keys == old(budgets).Keys
      ensures forall i :: i in budgets ==>
        budgets[i] == if i in over then old(budgets)[i].(usage := 0.0, pending := 0.0) else old(budgets)[i]
    {
      ghost var budgets0 := budgets;
      for k := 0 to |over|
        invariant Valid() && budgets.Keys == budgets0.Keys
        invariant forall i :: i in budgets ==>
          budgets[i] == if i in over[..k] then budgets0[i].(usage := 0.0, pending := 0.0) else budgets0[i]
      {
        assert over[k] in over;
        assert over[..k + 1] == over[..k] + [over[k]];
        var found := ResetBudgetUsage(over[k]);
      }
      assert over[..|over|] == over;
      count := |over|;
    }

    /** DeleteBudgetCascade: the descendants deepest first, then the budget itself. `scan` is
        the table's scan order. */
    method DeleteBudgetCascade(scan: IdList, id: Id) returns (result: DeleteResult)
      requires Valid() && SetOf(scan) == budgets.Keys
      modifies this
      ensures Valid()
      ensures result.DescendantsNeverEnd? <==> OnCycle(ParentsOf(old(budgets)), id)
      ensures result.NotFound? <==> id !in old(budgets)
      ensures !result.Deleted? ==> Tables() == old(Tables())
      ensures result.Deleted? ==>
        && Tables() == Apply(old(Tables()), Delete(Subtree(old(budgets), id)))
        && budgets == old(budgets) - Subtree(old(budgets), id)
        && result.count == |Subtree(old(budgets), id)|
      ensures result.DescendantsNeverEnd? <==> exists n :: n > 0 && Climbs(old(budgets), id, id, n)
      ensures result.Deleted? ==>
        && (forall x :: x in budgets <==> x in old(budgets) && !exists n :: Climbs(old(budgets), x, id, n))
        && (forall x :: x in budgets ==> budgets[x] == old(budgets)[x])
    {
      SubtreeClimbs(budgets, id);
      hide Climbs;
      var p := ParentsOf(budgets);
      var found := GetAllDescendants(p, scan, id);
      if found.None? {
        CycleIsInTable(budgets, id);
        return DescendantsNeverEnd;
      }
      var descendants := found.value;
      var tx := budgets;
      for k := 0 to |descendants|
        invariant Tables() == old(Tables())
        invariant tx == budgets - SetOf(descendants[..k])
        invariant NoDangling(tx)
      {
        hide ParentsOf, ChildrenFirst, NoDangling;
        DeleteNext(budgets, id, descendants, k);
        tx := tx - {descendants[k]};
      }
      assert descendants[..|descendants|] == descendants;
      if id !in tx {
        return NotFound;
      }
      CascadeLeaves(Tables(), id, descendants);
      hide Subtree, NoDangling, ParentsOf, ChildrenFirst, OnCycle, Consistent;
      budgets := tx - {id};
      reservations := ReservationsOf(reservations, budgets.Keys);
      usage := RecordsOf(usage, budgets.Keys);
      result := Deleted(|descendants| + 1);
    }

    /** False when there is no such budget. */
    method ResetBudgetUsage(id: Id) returns (found: bool)
      requires Valid()
      modifies this`budgets
      ensures Valid()
      ensures found == (id in old(budgets))
      ensures Tables() == Apply(old(Tables()), Reset(id))
    {
      StepKeepsConsistent(Tables(), Reset(id));
      found := id in budgets;
      if found {
        budgets := budgets[id := budgets[id].(usage := 0.0, pending := 0.0)];
      }
    }
  }

  predicate HasRow(rs: seq<Reservation>, id: Id, r: RequestId) {
    exists i :: 0 <= i < |rs| && rs[i].requestId == r && rs[i].budgetId == id
  }

  function Prepend(path: seq<Id>, rest: Option<seq<Id>>): Option<seq<Id>> {
    if rest.None? then None else Some(path + rest.value)
  }

  lemma PrependNothing(rest: Option<seq<Id>>)
    ensures Prepend([], rest) == rest
  {
    assert rest.Some? ==> [] + rest.value == rest.value;
  }

  lemma PrependOne(path: seq<Id>, x: Id, rest: Option<seq<Id>>)
    ensures Prepend(path, Prepend([x], rest)) == Prepend(path + [x], rest)
  {
    assert rest.Some? ==> path + ([x] + rest.value) == path + [x] + rest.value;
  }

  lemma ConflictStep(rs: seq<Reservation>, bs: seq<Budget>, k: nat, r: RequestId)
    requires k < |bs|
    ensures Conflicts(rs, bs[..k + 1], r) <==> Conflicts(rs, bs[..k], r) || HasRow(rs, bs[k].id, r)
  {
    if Conflicts(rs, bs[..k], r) {
      var i, j :| 0 <= i < |rs| && 0 <= j < k && rs[i].requestId == r && rs[i].budgetId == bs[..k][j].id;
      assert rs[i].budgetId == bs[..k + 1][j].id;
    }
    if i :| 0 <= i < |rs| && rs[i].requestId == r && rs[i].budgetId == bs[k].id {
      assert rs[i].budgetId == bs[..k + 1][k].id;
    }
    if Conflicts(rs, bs[..k + 1], r) {
      var i, j :| 0 <= i < |rs| && 0 <= j < k + 1 && rs[i].requestId == r && rs[i].budgetId == bs[..k + 1][j].id;
      assert j < k ==> rs[i].budgetId == bs[..k][j].id;
    }
  }

  /** The rows a transaction inserts never collide with each other. */
  lemma DuplicateIsOld(rs: seq<Reservation>, bs: Rows, k: nat, r: RequestId, estimate: Money, expiresAt: Instant)
    requires k < |bs|
    ensures HasRow(rs + NewReservations(bs, r, estimate, expiresAt)[..k], bs[k].id, r) <==> HasRow(rs, bs[k].id, r)
  {
    var all := rs + NewReservations(bs, r, estimate, expiresAt)[..k];
    forall i | |rs| <= i < |all|
      ensures all[i].budgetId != bs[k].id
    {
      assert all[i].budgetId == bs[i - |rs|].id;
    }
    if i :| 0 <= i < |rs| && rs[i].requestId == r && rs[i].budgetId == bs[k].id {
      assert all[i] == rs[i];
    }
  }

  lemma SortedInTable(sorted: seq<Budget>, t: BudgetTable)
    requires forall b :: b in sorted ==> b.id in t
    ensures IdsOf(sorted) <= t.Keys
  {
    forall i | i in IdsOf(sorted)
      ensures i in t
    {
      var j :| 0 <= j < |sorted| && sorted[j].id == i;
      assert sorted[j] in sorted;
    }
  }

  lemma {:induction false} UnexpiredShrinks(rs: seq<Reservation>, now: Instant)
    ensures |Unexpired(rs, now)| <= |rs|
  {
    if rs != [] {
      UnexpiredShrinks(rs[1..], now);
    }
  }
}
