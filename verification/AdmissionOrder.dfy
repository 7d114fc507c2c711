/** What an admission misses. Its query selects rows as they are when it begins, so a budget that
is enabled afterwards is not locked. In commit order the admission may then differ from the one
that the same query would make at its commit. */
module AdmissionOrder {
  import opened Model
  import opened Ledger
  import opened Effects
  import opened Concurrency
  import Admission
  import HierarchySort

  // ---------- when leaving rows out makes no difference ----------

  function Keep(rows: seq<Id>, ids: set<Id>): seq<Id> {
    if rows == [] then []
    else if rows[0] in ids then [rows[0]] + Keep(rows[1..], ids)
    else Keep(rows[1..], ids)
  }

  lemma {:induction false} KeepMembers(rows: seq<Id>, ids: set<Id>)
    ensures forall x :: x in Keep(rows, ids) <==> x in rows && x in ids
    ensures Distinct(rows) ==> Distinct(Keep(rows, ids))
  {
    if rows != [] {
      KeepMembers(rows[1..], ids);
      assert rows == [rows[0]] + rows[1..];
    }
  }

  /** The row would be a candidate now. */
  predicate Eligible(t: BudgetTable, x: Id, matches: set<Id>) {
    x in t && t[x].Enforced() && x in matches && t[x].kind != Unknown
  }

  ghost predicate NothingMissed(t: BudgetTable, rows: seq<Id>, matches: set<Id>, ids: set<Id>) {
    forall x :: x in rows && Eligible(t, x, matches) ==> x in ids
  }

  lemma {:induction false} SameOfKind(t: BudgetTable, rows: seq<Id>, matches: set<Id>, ids: set<Id>, k: EntityType)
    requires Keyed(t) && NothingMissed(t, rows, matches, ids) && k != Unknown
    ensures HierarchySort.OfKind(Matching(Enforced(t, Keep(rows, ids)), matches), k)
      == HierarchySort.OfKind(Matching(Enforced(t, rows), matches), k)
  {
    if rows != [] {
      SameOfKind(t, rows[1..], matches, ids, k);
    }
  }

  lemma {:induction false} SameCandidatesIff(t: BudgetTable, rows: IdList, matches: set<Id>, ids: set<Id>)
    requires Keyed(t)
    ensures Candidates(t, Keep(rows, ids), matches) == Candidates(t, rows, matches)
      <==> NothingMissed(t, rows, matches, ids)
  {
    KeepMembers(rows, ids);
    if NothingMissed(t, rows, matches, ids) {
      SameOfKind(t, rows, matches, ids, Team);
      SameOfKind(t, rows, matches, ids, Org);
      SameOfKind(t, rows, matches, ids, Provider);
    } else {
      var x :| x in rows && Eligible(t, x, matches) && x !in ids;
      CandidatesMembers(t, rows, matches);
      CandidatesMembers(t, Keep(rows, ids), matches);
      assert t[x] in Candidates(t, rows, matches);
    }
  }

  /** The admission reserves nothing: no candidate, denied, or a duplicate reservation. */
  predicate Idle(db: Db, s: Step)
    requires s.Reserve?
  {
    var bs := Candidates(db.budgets, s.rows, s.matches);
    bs == [] || !Admission.Admits(bs, s.estimate) || Conflicts(db.reservations, bs, s.requestId)
  }

  lemma IdleDoesNothing(db: Db, s: Step)
    requires s.Reserve? && Idle(db, s)
    ensures Apply(db, s) == db
  {
    var bs := Candidates(db.budgets, s.rows, s.matches);
    if bs == [] {
      assert AddPending(db.budgets, IdsOf(bs), s.estimate) == db.budgets;
      assert db.reservations + NewReservations(bs, s.requestId, s.estimate, s.expiresAt) == db.reservations;
    }
  }

  /** Leaving rows out changes nothing iff no candidate is left out, or neither admission
      reserves anything. */
  lemma {:induction false} SameAdmissionIff(db: Db, rows: IdList, ids: set<Id>, s: Step, kept: Step)
    requires Keyed(db.budgets) && s.Reserve? && s.rows == rows
    requires Distinct(Keep(rows, ids)) && kept == s.(rows := Keep(rows, ids))
    ensures Apply(db, kept) == Apply(db, s) <==>
      NothingMissed(db.budgets, rows, s.matches, ids) || (Idle(db, kept) && Idle(db, s))
  {
    var all, some := Candidates(db.budgets, rows, s.matches), Candidates(db.budgets, kept.rows, s.matches);
    SameCandidatesIff(db.budgets, rows, s.matches, ids);
    if Idle(db, s) {
      IdleDoesNothing(db, s);
    }
    if Idle(db, kept) {
      IdleDoesNothing(db, kept);
    }
    if Apply(db, kept) == Apply(db, s) && !(Idle(db, kept) && Idle(db, s)) {
      assert Apply(db, s).reservations == db.reservations + NewReservations(all, s.requestId, s.estimate, s.expiresAt);
      assert Apply(db, kept).reservations == db.reservations + NewReservations(some, s.requestId, s.estimate, s.expiresAt);
      SameIds(db, all, some, s);
      KeepMembers(rows, ids);
      CandidatesMembers(db.budgets, rows, s.matches);
      CandidatesMembers(db.budgets, kept.rows, s.matches);
      forall x | x in rows && Eligible(db.budgets, x, s.matches)
        ensures x in ids
      {
        assert db.budgets[x] in all;
        var j :| 0 <= j < |all| && all[j] == db.budgets[x];
        assert some[j] in some;
      }
    }
  }

  lemma {:induction false} SameIds(db: Db, all: seq<Budget>, some: seq<Budget>, s: Step)
    requires s.Reserve?
    requires db.reservations + NewReservations(all, s.requestId, s.estimate, s.expiresAt)
      == db.reservations + NewReservations(some, s.requestId, s.estimate, s.expiresAt)
    ensures |all| == |some| && forall j :: 0 <= j < |all| ==> all[j].id == some[j].id
  {
    var n := |db.reservations|;
    var xs := db.reservations + NewReservations(all, s.requestId, s.estimate, s.expiresAt);
    assert |xs| == n + |all| == n + |some|;
    forall j | 0 <= j < |all|
      ensures all[j].id == some[j].id
    {
      assert xs[n + j].budgetId == all[j].id;
    }
  }

  // ---------- a pod's own query ----------

  /** The locked rows and those still to be locked are rows of the query in its order. */
  ghost predicate InQueryOrder(tx: Tx)
    requires tx.Admitting?
  {
    var ids := IdSeq(tx.held) + tx.todo;
    Distinct(ids) && ids == Keep(tx.rows, SetOf(ids))
  }

  lemma {:induction false} KeepSelected(t: BudgetTable, rows: seq<Id>, ids: set<Id>)
    requires forall x :: x in rows ==> (x in ids <==> x in t && t[x].Enforced())
    ensures Keep(rows, ids) == Selected(t, rows)
  {
    if rows != [] {
      KeepSelected(t, rows[1..], ids);
    }
  }

  lemma {:induction false} KeepWithout(rows: seq<Id>, ids: set<Id>, xs: seq<Id>, y: Id, ys: seq<Id>)
    requires Distinct(rows) && Keep(rows, ids) == xs + [y] + ys
    ensures Keep(rows, ids - {y}) == xs + ys
  {
    var all := xs + [y] + ys;
    assert all[|xs|] == y;
    if rows[0] !in ids {
      KeepWithout(rows[1..], ids, xs, y, ys);
    } else if xs == [] {
      assert all[0] == y && all[1..] == ys;
      KeepUnrelated(rows[1..], ids, y);
    } else {
      assert all[0] == xs[0] && all[1..] == xs[1..] + [y] + ys;
      KeepWithout(rows[1..], ids, xs[1..], y, ys);
      KeepMembers(rows[1..], ids);
      assert all[1..][|xs| - 1] == y;
      assert xs + ys == [xs[0]] + (xs[1..] + ys);
    }
  }

  lemma {:induction false} KeepUnrelated(rows: seq<Id>, ids: set<Id>, y: Id)
    requires y !in rows
    ensures Keep(rows, ids - {y}) == Keep(rows, ids)
  {
    if rows != [] {
      KeepUnrelated(rows[1..], ids, y);
    }
  }

  ghost predicate OrderInvariant(sys: System) {
    forall pod :: pod in sys.txs && sys.txs[pod].Admitting? ==> InQueryOrder(sys.txs[pod])
  }

  lemma {:induction false} SkipKeepsOrder(rows: IdList, held: seq<Id>, todo: seq<Id>)
    requires todo != [] && Distinct(held + todo) && held + todo == Keep(rows, SetOf(held + todo))
    ensures Distinct(held + todo[1..]) && held + todo[1..] == Keep(rows, SetOf(held + todo[1..]))
  {
    var ids, y := held + todo, todo[0];
    var rest := held + todo[1..];
    assert ids == held + [y] + todo[1..];
    KeepWithout(rows, SetOf(ids), held, y, todo[1..]);
    assert forall k :: 0 <= k < |rest| ==> rest[k] == ids[if k < |held| then k else k + 1];
    assert ids[|held|] == y;
    assert SetOf(rest) == SetOf(ids) - {y} by {
      forall x | x in SetOf(ids) && x != y
        ensures x in rest
      {
        assert x in held || x in todo[1..];
      }
    }
  }

  lemma {:induction false} ActKeepsOrder(sys: System, a: Action)
    requires OrderInvariant(sys) && Keyed(sys.world.db.budgets)
    ensures OrderInvariant(Act(sys, a))
  {
    var after := Act(sys, a);
    forall pod | pod in after.txs && after.txs[pod].Admitting?
      ensures InQueryOrder(after.txs[pod])
    {
      if pod in sys.txs && sys.txs[pod].Admitting? {
        var tx, tx' := sys.txs[pod], after.txs[pod];
        assert InQueryOrder(tx);
        if tx' != tx {
          if |tx'.held| == |tx.held| {
            SkipKeepsOrder(tx.rows, IdSeq(tx.held), tx.todo);
          } else {
            assert IdSeq(tx'.held) + tx'.todo == IdSeq(tx.held) + tx.todo;
          }
        }
      } else {
        assert a.BeginAdmission?;
        BeginsInOrder(sys.world.db.budgets, a.rows);
        assert IdSeq([]) + Selected(sys.world.db.budgets, a.rows) == Selected(sys.world.db.budgets, a.rows);
      }
    }
  }

  lemma {:induction false} BeginsInOrder(t: BudgetTable, rows: IdList)
    ensures Distinct(Selected(t, rows)) && Selected(t, rows) == Keep(rows, SetOf(Selected(t, rows)))
  {
    SelectedIsDistinct(t, rows);
    KeepSelected(t, rows, SetOf(Selected(t, rows)));
  }

  lemma {:induction false} RunKeepsOrder(actions: seq<Action>)
    ensures OrderInvariant(Interleave(actions))
  {
    if actions != [] {
      RunKeepsOrder(actions[..|actions| - 1]);
      CommitsAreOrdered(actions[..|actions| - 1]);
      ActKeepsOrder(Interleave(actions[..|actions| - 1]), actions[|actions| - 1]);
    }
  }

  /** The admission that a pod's own query would make now. */
  function OwnStep(tx: Tx): Step
    requires tx.Admitting?
  {
    Reserve(tx.request.id, tx.rows, tx.request.matches, tx.request.estimate, tx.request.expiresAt)
  }

  /** Exactly when committing an admission is making it anew with the pod's own query: every
      candidate of that query is locked, or neither reserves anything. */
  lemma {:induction false} AdmissionIsItsQueryIff(sys: System, pod: Pod)
    requires LockInvariant(sys) && OrderInvariant(sys) && Committed(sys, CommitAdmission(pod)).Some?
    ensures var tx, db := sys.txs[pod], sys.world.db;
      Act(sys, CommitAdmission(pod)).world.db == Apply(db, OwnStep(tx)) <==>
        || NothingMissed(db.budgets, tx.rows, tx.request.matches, SetOf(IdSeq(tx.held)))
        || (Idle(db, AdmissionStep(tx.request, tx.held)) && Idle(db, OwnStep(tx)))
  {
    var tx := sys.txs[pod];
    AdmissionKeepsInvariant(sys, pod);
    assert InQueryOrder(tx);
    assert IdSeq(tx.held) + tx.todo == IdSeq(tx.held);
    SameAdmissionIff(sys.world.db, tx.rows, SetOf(IdSeq(tx.held)), OwnStep(tx), AdmissionStep(tx.request, tx.held));
  }

  // ---------- why a candidate can be missing ----------

  predicate IsEnforced(db: Db, x: Id) {
    x in db.budgets && db.budgets[x].Enforced()
  }

  /** The steps that can make a budget enforced. */
  predicate Enables(s: Step, x: Id) {
    || (s.Create? && s.budget.id == x)
    || (s.Configure? && s.id == x)
    || (s.SetStatus? && s.id == x)
  }

  lemma {:induction false} OnlyEnabling(w: World, e: Effect, x: Id)
    requires !IsEnforced(w.db, x) && IsEnforced(Do(w, e).db, x)
    ensures e.Whole? && Enables(e.step, x)
  {}

  /** When the pod's transaction began, as the length of the prefix that begins it. */
  ghost function Began(actions: seq<Action>, pod: Pod): (n: nat)
    ensures n <= |actions|
  {
    if actions == [] then 0
    else if pod !in Interleave(actions[..|actions| - 1]).txs then |actions|
    else Began(actions[..|actions| - 1], pod)
  }

  /** At some moment since the pod began, the row was not enforced. */
  ghost predicate WasOff(actions: seq<Action>, pod: Pod, x: Id) {
    exists i :: Began(actions, pod) <= i <= |actions| && !IsEnforced(Interleave(actions[..i]).world.db, x)
  }

  ghost predicate PassedOver(tx: Tx, x: Id)
    requires tx.Admitting?
  {
    x in tx.rows && x !in IdSeq(tx.held) && x !in tx.todo
  }

  lemma BeganBefore(actions: seq<Action>, pod: Pod)
    requires actions != [] && pod in Interleave(actions[..|actions| - 1]).txs
    ensures Began(actions, pod) == Began(actions[..|actions| - 1], pod)
  {}

  lemma LastAction(actions: seq<Action>)
    requires actions != []
    ensures Interleave(actions) == Act(Interleave(actions[..|actions| - 1]), actions[|actions| - 1])
  {}

  lemma OffAt(actions: seq<Action>, pod: Pod, x: Id, i: nat)
    requires Began(actions, pod) <= i <= |actions| && !IsEnforced(Interleave(actions[..i]).world.db, x)
    ensures WasOff(actions, pod, x)
  {}

  lemma OffBefore(actions: seq<Action>, pod: Pod, x: Id)
    requires actions != [] && pod in Interleave(actions[..|actions| - 1]).txs
    requires WasOff(actions[..|actions| - 1], pod, x)
    ensures WasOff(actions, pod, x)
  {
    var pre := actions[..|actions| - 1];
    BeganBefore(actions, pod);
    hide Interleave, Began, IsEnforced;
    var i :| Began(pre, pod) <= i <= |pre| && !IsEnforced(Interleave(pre[..i]).world.db, x);
    assert pre[..i] == actions[..i];
  }

  lemma {:induction false} PassedRowsWereOff(actions: seq<Action>, pod: Pod, x: Id)
    requires var sys := Interleave(actions);
      pod in sys.txs && sys.txs[pod].Admitting? && PassedOver(sys.txs[pod], x)
    ensures WasOff(actions, pod, x)
  {
    assert actions != [];
    var pre, a := actions[..|actions| - 1], actions[|actions| - 1];
    hide Interleave, Act, IsEnforced, PassedOver, WasOff;
    LastAction(actions);
    assert actions[..|actions|] == actions && pre == actions[..|pre|];
    if pod !in Interleave(pre).txs {
      PassedAtOnce(Interleave(pre), a, pod, x);
      OffAt(actions, pod, x, |actions|);
    } else if PassedOver(Interleave(pre).txs[pod], x) {
      PassedRowsWereOff(pre, pod, x);
      OffBefore(actions, pod, x);
    } else {
      CommitsAreOrdered(pre);
      JustPassed(Interleave(pre), a, pod, x);
      BeganBefore(actions, pod);
      OffAt(actions, pod, x, |pre|);
    }
  }

  lemma {:induction false} PassedAtOnce(sys: System, a: Action, pod: Pod, x: Id)
    requires pod !in sys.txs
    requires var after := Act(sys, a);
      pod in after.txs && after.txs[pod].Admitting? && PassedOver(after.txs[pod], x)
    ensures Act(sys, a).world == sys.world && !IsEnforced(sys.world.db, x)
  {
    SelectedIsDistinct(sys.world.db.budgets, a.rows);
  }

  /** A row is passed over only while it is not enforced. */
  lemma {:induction false} JustPassed(sys: System, a: Action, pod: Pod, x: Id)
    requires Keyed(sys.world.db.budgets)
    requires pod in sys.txs && sys.txs[pod].Admitting? && !PassedOver(sys.txs[pod], x)
    requires var after := Act(sys, a);
      pod in after.txs && after.txs[pod].Admitting? && PassedOver(after.txs[pod], x)
    ensures !IsEnforced(sys.world.db, x)
  {
    LockingPassesNothing(sys, pod, x);
  }

  lemma {:induction false} LockingPassesNothing(sys: System, pod: Pod, x: Id)
    requires Keyed(sys.world.db.budgets)
    requires pod in sys.txs && sys.txs[pod].Admitting?
    ensures var after := Act(sys, LockNext(pod));
      && pod in after.txs && after.txs[pod].Admitting?
      && (PassedOver(after.txs[pod], x) ==> PassedOver(sys.txs[pod], x) || !IsEnforced(sys.world.db, x))
  {
    var tx, tx' := sys.txs[pod], Act(sys, LockNext(pod)).txs[pod];
    if tx.todo != [] {
      var todo := tx.todo;
      assert todo == [todo[0]] + todo[1..];
      var ids := IdSeq(tx.held) + [todo[0]];
      assert todo[0] in ids && forall y :: y in IdSeq(tx.held) ==> y in ids by {
        assert ids[|tx.held|] == todo[0];
        assert forall k :: 0 <= k < |tx.held| ==> ids[k] == IdSeq(tx.held)[k];
      }
      assert |tx'.held| > |tx.held| ==> IdSeq(tx'.held) == ids;
    }
  }

  /** If an admission misses a candidate, somebody enabled it after the admission began: an
      enabling step was committed at that position of the interleaving. */
  lemma {:induction false} MissedRowWasEnabled(actions: seq<Action>, pod: Pod, x: Id) returns (j: nat)
    requires var sys := Interleave(actions);
      && pod in sys.txs && sys.txs[pod].Admitting? && PassedOver(sys.txs[pod], x)
      && IsEnforced(sys.world.db, x)
    ensures Began(actions, pod) <= j < |actions|
    ensures var e := Committed(Interleave(actions[..j]), actions[j]);
      e.Some? && e.value.Whole? && Enables(e.value.step, x)
  {
    PassedRowsWereOff(actions, pod, x);
    hide Interleave, Act, Began, Committed, IsEnforced, PassedOver;
    var i :| Began(actions, pod) <= i <= |actions| && !IsEnforced(Interleave(actions[..i]).world.db, x);
    assert actions[..|actions|] == actions;
    j := Crossing((k: nat) => k <= |actions| && IsEnforced(Interleave(actions[..k]).world.db, x), i, |actions|);
    TurnedOn(actions, j, x);
  }

  /** Between a moment where something does not hold and one where it does, it turns true. */
  lemma {:induction false} Crossing(holds: nat -> bool, i: nat, n: nat) returns (j: nat)
    requires i <= n && !holds(i) && holds(n)
    ensures i <= j < n && !holds(j) && holds(j + 1)
  {
    j := i;
    while !holds(j + 1)
      invariant i <= j < n && !holds(j)
      decreases n - j
    {
      j := j + 1;
    }
  }

  lemma {:induction false} TurnedOn(actions: seq<Action>, j: nat, x: Id)
    requires j < |actions|
    requires !IsEnforced(Interleave(actions[..j]).world.db, x) && IsEnforced(Interleave(actions[..j + 1]).world.db, x)
    ensures var e := Committed(Interleave(actions[..j]), actions[j]);
      e.Some? && e.value.Whole? && Enables(e.value.step, x)
  {
    assert actions[..j + 1][..j] == actions[..j];
    var sys := Interleave(actions[..j]);
    assert Interleave(actions[..j + 1]) == Act(sys, actions[j]);
    CommitsAreOrdered(actions[..j]);
    ActKeepsInvariant(sys, actions[j]);
    hide Interleave, Act, Committed;
    OnlyEnabling(sys.world, Committed(sys, actions[j]).value, x);
  }
}
