/** Deadlock between admissions and completions: when a lock order excludes it. */
module Deadlock {
  import opened Model
  import opened Ledger
  import opened Effects
  import opened Concurrency

  /** `p` wants a row that `q` has locked. */
  ghost predicate Waits(sys: System, p: Pod, q: Pod) {
    Wanted(sys, p).Some? && Wanted(sys, p).value in sys.locks && sys.locks[Wanted(sys, p).value] == q
  }

  /** Each pod of the list waits for the next, and the last for the first. */
  ghost predicate WaitCycle(sys: System, pods: seq<Pod>) {
    pods != [] && forall i :: 0 <= i < |pods| ==> Waits(sys, pods[i], pods[if i + 1 < |pods| then i + 1 else 0])
  }

  /** Nothing that a pod of a cycle can lock is free: its next lock changes nothing. */
  lemma CycleIsStuck(sys: System, pods: seq<Pod>, i: nat)
    requires WaitCycle(sys, pods) && i < |pods|
    ensures Act(sys, LockNext(pods[i])) == sys && Act(sys, LockCharge(pods[i])) == sys
  {
    assert Waits(sys, pods[i], pods[if i + 1 < |pods| then i + 1 else 0]);
  }

  /** Every pod locks upwards: what it wants ranks above all it has. */
  ghost predicate LocksUpwards(sys: System, rank: Id -> int) {
    forall p, i :: Wanted(sys, p).Some? && i in sys.locks && sys.locks[i] == p ==> rank(i) < rank(Wanted(sys, p).value)
  }

  lemma {:induction false} RankGrows(sys: System, rank: Id -> int, pods: seq<Pod>, n: nat)
    requires LocksUpwards(sys, rank) && WaitCycle(sys, pods) && n < |pods|
    ensures Wanted(sys, pods[0]).Some? && Wanted(sys, pods[n]).Some?
    ensures rank(Wanted(sys, pods[0]).value) + n <= rank(Wanted(sys, pods[n]).value)
  {
    assert Waits(sys, pods[n], pods[if n + 1 < |pods| then n + 1 else 0]);
    if n > 0 {
      RankGrows(sys, rank, pods, n - 1);
      assert Waits(sys, pods[n - 1], pods[n]);
    }
  }

  /** Pods that lock upwards never wait in a cycle, however long. */
  lemma {:induction false} UpwardsHasNoCycle(sys: System, rank: Id -> int, pods: seq<Pod>)
    requires LocksUpwards(sys, rank)
    ensures !WaitCycle(sys, pods)
  {
    if WaitCycle(sys, pods) {
      assert Waits(sys, pods[|pods| - 1], pods[0]);
      RankGrows(sys, rank, pods, |pods| - 1);
    }
  }

  // ---------- an order that the transactions keep ----------

  ghost predicate Ranked(ids: seq<Id>, rank: Id -> int) {
    forall i, j :: 0 <= i < j < |ids| ==> rank(ids[i]) < rank(ids[j])
  }

  /** The rows of queries and chains come in the order of `rank`, and a new budget's id was
      never used. */
  ghost predicate KeepsOrder(sys: System, a: Action, rank: Id -> int) {
    && (a.BeginAdmission? ==> Ranked(a.rows, rank))
    && (a.ReadChain? && a.pod in Act(sys, a).txs && IsCharging(Act(sys, a).txs[a.pod])
        ==> Ranked(ChargeOrder(Act(sys, a).txs[a.pod]), rank))
    && (a.CommitWriter? && Committed(sys, a).Some? && Committed(sys, a).value.step.Create? ==>
          forall p :: p in sys.txs && IsCharging(sys.txs[p]) ==>
            Committed(sys, a).value.step.budget.id !in ChargeOrder(sys.txs[p]))
  }

  predicate IsCharging(tx: Tx) {
    tx.Completing? && tx.chain.Some?
  }

  ghost predicate HasLocked(sys: System, p: Pod, i: Id) {
    i in sys.locks && sys.locks[i] == p
  }

  /** A pod's locks are the part of its rows that it has come through. */
  ghost predicate InOrder(sys: System, p: Pod, tx: Tx, rank: Id -> int) {
    match tx
    case Admitting(_, _, todo, held) =>
      && Ranked(IdSeq(held) + todo, rank)
      && forall i :: HasLocked(sys, p, i) ==> i in IdSeq(held)
    case Completing(_, _, _, chain) =>
      if chain.None? then forall i :: !HasLocked(sys, p, i)
      else
        var ids := ChargeOrder(tx);
        && Ranked(ids, rank)
        && (forall i :: HasLocked(sys, p, i) ==> i in ids)
        && (forall j, k :: 0 <= j < k < |ids| && HasLocked(sys, p, ids[k]) ==>
              HasLocked(sys, p, ids[j]) || ids[j] !in sys.world.db.budgets)
    case _ => true
  }

  ghost predicate OrderInvariant(sys: System, rank: Id -> int) {
    && Keyed(sys.world.db.budgets)
    && (forall i :: i in sys.locks ==> sys.locks[i] in sys.txs)
    && (forall p :: p in sys.txs ==> InOrder(sys, p, sys.txs[p], rank))
  }

  lemma {:induction false} FirstUnheldIs(sys: System, p: Pod, ids: seq<Id>) returns (k: nat)
    requires FirstUnheld(sys, p, ids).Some?
    ensures k < |ids| && ids[k] == FirstUnheld(sys, p, ids).value
    ensures ids[k] in sys.world.db.budgets && !HasLocked(sys, p, ids[k])
    ensures forall j :: 0 <= j < k ==> HasLocked(sys, p, ids[j]) || ids[j] !in sys.world.db.budgets
  {
    if ids[0] in sys.world.db.budgets && !HasLocked(sys, p, ids[0]) {
      k := 0;
    } else {
      var m := FirstUnheldIs(sys, p, ids[1..]);
      k := m + 1;
      assert forall j :: 0 < j < k ==> ids[j] == ids[1..][j - 1];
    }
  }

  lemma {:induction false} InvariantLocksUpwards(sys: System, rank: Id -> int)
    requires OrderInvariant(sys, rank)
    ensures LocksUpwards(sys, rank)
  {
    forall p, i | Wanted(sys, p).Some? && HasLocked(sys, p, i)
      ensures rank(i) < rank(Wanted(sys, p).value)
    {
      var tx := sys.txs[p];
      assert InOrder(sys, p, tx, rank);
      if tx.Admitting? {
        var ids := IdSeq(tx.held) + tx.todo;
        var k :| 0 <= k < |IdSeq(tx.held)| && IdSeq(tx.held)[k] == i;
        assert ids[k] == i && ids[|tx.held|] == tx.todo[0];
      } else {
        var ids := ChargeOrder(tx);
        var k := FirstUnheldIs(sys, p, ids);
        var j :| 0 <= j < |ids| && ids[j] == i;
        assert j < k;
      }
    }
  }

  lemma {:induction false} SelectedIsRanked(t: BudgetTable, rows: seq<Id>, rank: Id -> int)
    requires Ranked(rows, rank)
    ensures Ranked(Selected(t, rows), rank)
    ensures forall x :: x in Selected(t, rows) ==> x in rows
  {
    if rows != [] {
      SelectedIsRanked(t, rows[1..], rank);
      assert rows == [rows[0]] + rows[1..];
      assert forall x :: x in rows[1..] ==> rank(rows[0]) < rank(x);
    }
  }

  // ---------- the invariant, action by action ----------

  lemma {:induction false} SameInOrder(sys: System, after: System, p: Pod, tx: Tx, rank: Id -> int)
    requires InOrder(sys, p, tx, rank)
    requires forall i :: HasLocked(after, p, i) <==> HasLocked(sys, p, i)
    requires IsCharging(tx) ==> forall i :: i in ChargeOrder(tx) && i in after.world.db.budgets ==> i in sys.world.db.budgets
    ensures InOrder(after, p, tx, rank)
  {
    if IsCharging(tx) {
      var ids := ChargeOrder(tx);
      assert forall j :: 0 <= j < |ids| ==> ids[j] in ids;
    }
  }

  lemma {:induction false} LockNextInOrder(sys: System, pod: Pod, rank: Id -> int)
    requires OrderInvariant(sys, rank)
    ensures OrderInvariant(Act(sys, LockNext(pod)), rank)
  {
    var after := Act(sys, LockNext(pod));
    if after != sys {
      NextInOrder(sys, after, pod, rank);
      forall p | p in after.txs
        ensures InOrder(after, p, after.txs[p], rank)
      {
        if p != pod {
          SameInOrder(sys, after, p, sys.txs[p], rank);
        }
      }
    }
  }

  lemma {:induction false} NextInOrder(sys: System, after: System, pod: Pod, rank: Id -> int)
    requires OrderInvariant(sys, rank) && after == Act(sys, LockNext(pod)) && after != sys
    ensures pod in after.txs && InOrder(after, pod, after.txs[pod], rank)
    ensures after.world == sys.world && after.txs.Keys == sys.txs.Keys
    ensures forall p :: p in sys.txs && p != pod ==>
      after.txs[p] == sys.txs[p] && forall i :: HasLocked(after, p, i) <==> HasLocked(sys, p, i)
    ensures forall i :: i in after.locks ==> after.locks[i] in after.txs
  {
    var tx, tx' := sys.txs[pod], after.txs[pod];
    assert InOrder(sys, pod, tx, rank);
    if tx'.held == tx.held {
      RankedWithout(IdSeq(tx.held), tx.todo, rank);
    } else {
      var held' := IdSeq(tx.held) + [tx.todo[0]];
      assert IdSeq(tx'.held) == held';
      assert held' + tx'.todo == IdSeq(tx.held) + tx.todo;
      MembersAppended(IdSeq(tx.held), tx.todo[0]);
    }
  }

  lemma RankedWithout(held: seq<Id>, todo: seq<Id>, rank: Id -> int)
    requires todo != [] && Ranked(held + todo, rank)
    ensures Ranked(held + todo[1..], rank)
  {
    var ids, ids' := held + todo, held + todo[1..];
    assert forall k :: 0 <= k < |ids'| ==> ids'[k] == ids[if k < |held| then k else k + 1];
  }

  lemma MembersAppended(ids: seq<Id>, x: Id)
    ensures forall i :: i in ids + [x] <==> i in ids || i == x
  {}

  lemma {:induction false} LockChargeInOrder(sys: System, pod: Pod, rank: Id -> int)
    requires OrderInvariant(sys, rank)
    ensures OrderInvariant(Act(sys, LockCharge(pod)), rank)
  {
    var after := Act(sys, LockCharge(pod));
    if after != sys {
      assert IsCharging(sys.txs[pod]);
      assert InOrder(sys, pod, sys.txs[pod], rank);
      ChargeLocked(sys, pod, rank);
      forall p | p in after.txs && p != pod
        ensures InOrder(after, p, after.txs[p], rank)
      {
        SameInOrder(sys, after, p, sys.txs[p], rank);
      }
    }
  }

  lemma {:induction false} ChargeLocked(sys: System, pod: Pod, rank: Id -> int)
    requires pod in sys.txs && IsCharging(sys.txs[pod]) && InOrder(sys, pod, sys.txs[pod], rank)
    requires Wanted(sys, pod).Some? && Wanted(sys, pod).value !in sys.locks
    ensures InOrder(Locked(sys, pod, Wanted(sys, pod).value), pod, sys.txs[pod], rank)
  {
    var ids := ChargeOrder(sys.txs[pod]);
    var n := FirstUnheldIs(sys, pod, ids);
    var after := Locked(sys, pod, ids[n]);
    assert forall i :: HasLocked(after, pod, i) <==> i == ids[n] || HasLocked(sys, pod, i);
    forall j, k | 0 <= j < k < |ids| && HasLocked(after, pod, ids[k])
      ensures HasLocked(after, pod, ids[j]) || ids[j] !in sys.world.db.budgets
    {
      if ids[k] == ids[n] {
        assert k == n;
      }
    }
  }

  /** The pod that begins or reads. */
  lemma {:induction false} OwnInOrder(sys: System, a: Action, rank: Id -> int)
    requires OrderInvariant(sys, rank) && KeepsOrder(sys, a, rank) && Act(sys, a) != sys
    requires a.BeginAdmission? || a.BeginWriter? || a.LockRow? || a.ReadReservation? || a.ReadChain? || a.SumExpired?
    ensures a.pod in Act(sys, a).txs && InOrder(Act(sys, a), a.pod, Act(sys, a).txs[a.pod], rank)
  {
    if a.BeginAdmission? {
      SelectedIsRanked(sys.world.db.budgets, a.rows, rank);
      assert IdSeq([]) + Selected(sys.world.db.budgets, a.rows) == Selected(sys.world.db.budgets, a.rows);
    } else if a.ReadChain? {
      assert InOrder(sys, a.pod, sys.txs[a.pod], rank);
      forall i
        ensures !HasLocked(Act(sys, a), a.pod, i)
      {
        assert !HasLocked(sys, a.pod, i);
      }
    }
  }

  /** Beginning, reading and locking a written row. */
  lemma {:induction false} OthersInOrder(sys: System, a: Action, rank: Id -> int)
    requires OrderInvariant(sys, rank) && KeepsOrder(sys, a, rank)
    requires a.BeginAdmission? || a.BeginWriter? || a.LockRow? || a.ReadReservation? || a.ReadChain? || a.SumExpired?
    ensures OrderInvariant(Act(sys, a), rank)
  {
    var after := Act(sys, a);
    if after != sys {
      OwnInOrder(sys, a, rank);
      forall p | p in after.txs && p != a.pod
        ensures InOrder(after, p, after.txs[p], rank)
      {
        SameInOrder(sys, after, p, sys.txs[p], rank);
      }
    }
  }

  /** Ending a transaction gives up its locks; a commit creates no row that others charge. */
  lemma {:induction false} EndInOrder(sys: System, after: System, pod: Pod, rank: Id -> int)
    requires OrderInvariant(sys, rank)
    requires after.locks == Ended(sys, pod).locks && after.txs == Ended(sys, pod).txs
    requires Keyed(after.world.db.budgets)
    requires forall p, i :: p in sys.txs && IsCharging(sys.txs[p]) && i in ChargeOrder(sys.txs[p]) ==>
      (i in after.world.db.budgets ==> i in sys.world.db.budgets)
    ensures OrderInvariant(after, rank)
  {
    forall p | p in after.txs
      ensures InOrder(after, p, after.txs[p], rank)
    {
      SameInOrder(sys, after, p, sys.txs[p], rank);
    }
  }

  lemma {:induction false} OnlyCreateAdds(w: World, e: Effect, i: Id)
    requires i !in w.db.budgets && i in Do(w, e).db.budgets
    ensures e.Whole? && e.step.Create? && e.step.budget.id == i
  {}

  lemma {:induction false} CommitInOrder(sys: System, a: Action, rank: Id -> int)
    requires LockInvariant(sys) && OrderInvariant(sys, rank) && KeepsOrder(sys, a, rank) && Committed(sys, a).Some?
    ensures OrderInvariant(Act(sys, a), rank)
  {
    var after, e := Act(sys, a), Committed(sys, a).value;
    ActKeepsInvariant(sys, a);
    forall p, i | p in sys.txs && IsCharging(sys.txs[p]) && i in ChargeOrder(sys.txs[p]) && i in after.world.db.budgets
      ensures i in sys.world.db.budgets
    {
      if i !in sys.world.db.budgets {
        OnlyCreateAdds(sys.world, e, i);
      }
    }
    if a.ReleaseDue? {
      forall p | p in after.txs
        ensures InOrder(after, p, after.txs[p], rank)
      {
        SameInOrder(sys, after, p, sys.txs[p], rank);
      }
    } else {
      EndInOrder(sys, after, a.pod, rank);
    }
  }

  lemma {:induction false} ActInOrder(sys: System, a: Action, rank: Id -> int)
    requires LockInvariant(sys) && OrderInvariant(sys, rank) && KeepsOrder(sys, a, rank)
    ensures OrderInvariant(Act(sys, a), rank)
  {
    if Committed(sys, a).Some? {
      CommitInOrder(sys, a, rank);
    } else if a.LockNext? {
      LockNextInOrder(sys, a.pod, rank);
    } else if a.LockCharge? {
      LockChargeInOrder(sys, a.pod, rank);
    } else if a.Abort? {
      EndInOrder(sys, Act(sys, a), a.pod, rank);
    } else if !(a.CommitAdmission? || a.CommitWriter? || a.CommitCharge? || a.DeleteExpired? || a.ReleaseDue?) {
      OthersInOrder(sys, a, rank);
    }
  }

  /** Admissions and completions never wait for each other in a cycle if some order of the
      budgets is kept by every query and every chain. */
  lemma {:induction false} OrderedIsDeadlockFree(actions: seq<Action>, rank: Id -> int, pods: seq<Pod>)
    requires forall i :: 0 <= i < |actions| ==> KeepsOrder(Interleave(actions[..i]), actions[i], rank)
    ensures !WaitCycle(Interleave(actions), pods)
  {
    RunInOrder(actions, |actions|, rank);
    assert actions[..|actions|] == actions;
    InvariantLocksUpwards(Interleave(actions), rank);
    UpwardsHasNoCycle(Interleave(actions), rank, pods);
  }

  lemma {:induction false} RunInOrder(actions: seq<Action>, n: nat, rank: Id -> int)
    requires n <= |actions|
    requires forall i :: 0 <= i < |actions| ==> KeepsOrder(Interleave(actions[..i]), actions[i], rank)
    ensures OrderInvariant(Interleave(actions[..n]), rank)
  {
    if n > 0 {
      RunInOrder(actions, n - 1, rank);
      assert actions[..n][..n - 1] == actions[..n - 1];
      CommitsAreOrdered(actions[..n - 1]);
      ActInOrder(Interleave(actions[..n - 1]), actions[n - 1], rank);
    }
  }
}
