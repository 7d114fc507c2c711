/** Interleavings of pods, from empty tables, on which a plausible claim about the whole system
fails: a completion that overspends, an admission that misses a budget, a deadlock. */
module Interleavings {
  import opened Model
  import opened Ledger
  import opened Effects
  import opened Concurrency
  import Admission
  import AdmissionOrder
  import BucketFill
  import Deadlock
  import Forest
  import Hierarchy
  import HierarchySort
  import HoldLaws
  import LedgerService
  import Limits
  import Witnesses

  lemma Then(actions: seq<Action>, a: Action)
    ensures Interleave(actions + [a]) == Act(Interleave(actions), a)
    ensures CommitLog(actions + [a]) == CommitLog(actions)
      + match Committed(Interleave(actions), a) { case None => [] case Some(e) => [e] }
  {
    assert (actions + [a])[..|actions|] == actions;
  }

  /** Nobody is in a transaction. */
  predicate Quiet(sys: System) {
    sys.locks == map[] && sys.txs == map[]
  }

  lemma CreateAlone(actions: seq<Action>, b: Budget) returns (more: seq<Action>)
    requires Quiet(Interleave(actions))
    ensures Interleave(more) == Interleave(actions).(world := Do(Interleave(actions).world, Whole(Create(b))))
    ensures CommitLog(more) == CommitLog(actions) + [Whole(Create(b))]
    ensures SaneRequests(actions) ==> SaneRequests(more)
  {
    hide Interleave, CommitLog, Apply;
    var begun := actions + [BeginWriter(0, Create(b))];
    Then(actions, BeginWriter(0, Create(b)));
    Then(begun, CommitWriter(0));
    more := begun + [CommitWriter(0)];
    assert HoldsAll(Interleave(begun), 0, StepTouches(Interleave(begun).world.db, Create(b)));
    assert Interleave(more).txs == map[] && Interleave(more).locks == map[];
  }

  lemma LoneRow(t: BudgetTable, b: Id)
    requires b in t && t[b].id == b && t[b].Enforced()
    ensures Selected(t, [b]) == [b] && Enforced(t, [b]) == [t[b]]
  {
    assert [b][1..] == [];
  }

  /** An admission over one budget that nobody else has locked. */
  lemma AdmitAlone(actions: seq<Action>, pod: Pod, request: Request, b: Id) returns (more: seq<Action>)
    requires var sys := Interleave(actions);
      && pod !in sys.txs && sys.locks == map[]
      && b in sys.world.db.budgets && sys.world.db.budgets[b].id == b && sys.world.db.budgets[b].Enforced()
    ensures var sys, s := Interleave(actions), Reserve(request.id, [b], request.matches, request.estimate, request.expiresAt);
      && Interleave(more) == sys.(world := Do(sys.world, Whole(s)))
      && CommitLog(more) == CommitLog(actions) + [Whole(s)]
    ensures SaneRequests(actions) && request.estimate >= 0.0 ==> SaneRequests(more)
  {
    hide Interleave, CommitLog, Apply;
    var sys := Interleave(actions);
    var row := sys.world.db.budgets[b];
    LoneRow(sys.world.db.budgets, b);
    CommitsAreOrdered(actions);
    var a1, a2 := actions + [BeginAdmission(pod, request, [b])], actions + [BeginAdmission(pod, request, [b])] + [LockNext(pod)];
    Then(actions, BeginAdmission(pod, request, [b]));
    Then(a1, LockNext(pod));
    assert [b][1..] == [] && [] + [row] == [row];
    assert Interleave(a2) == System(sys.world, map[b := pod], sys.txs[pod := Admitting(request, [b], [], [row])]);
    CommitsAreOrdered(a2);
    assert IdSeq([row]) == [b];
    assert Distinct(IdSeq([row]));
    AdmissionKeepsInvariant(Interleave(a2), pod);
    Then(a2, CommitAdmission(pod));
    more := a2 + [CommitAdmission(pod)];
    assert Interleave(more).txs == sys.txs && Interleave(more).locks == map[];
  }

  // ---------- a completion that overspends ----------

  function Root(usage: Money, pending: Money): Budget {
    Budget(0, Org, 10.0, usage, pending, None, false, false, true, Approved)
  }

  /** A request for 5 on the root. */
  function Five(r: RequestId, expiresAt: Instant): Request {
    Request(r, {0}, 5.0, expiresAt)
  }

  lemma ReserveFive(db: Db, usage: Money, pending: Money, r: RequestId, expiresAt: Instant)
    requires db.budgets == map[0 := Root(usage, pending)] && usage + pending <= 5.0
    requires forall i :: 0 <= i < |db.reservations| ==> db.reservations[i].requestId != r
    ensures Apply(db, Reserve(r, [0], {0}, 5.0, expiresAt))
      == Db(map[0 := Root(usage, pending + 5.0)], db.reservations + [Reservation(0, r, 5.0, expiresAt)], db.usage)
  {
    var bs := [db.budgets[0]];
    Limits.LoneCandidate(db.budgets, 0);
    assert IdsOf(bs) == {0} by {
      assert bs[0].id == 0;
    }
    assert Admission.Admits(bs, 5.0);
  }

  const R1 := Reservation(0, "r1", 5.0, 1)
  const R2 := Reservation(0, "r2", 5.0, 9)
  const R3 := Reservation(0, "r3", 5.0, 9)

  lemma RootReserves()
    ensures var d0 := Apply(EMPTY, Create(Root(0.0, 0.0)));
      var d1 := Apply(d0, Reserve("r1", [0], {0}, 5.0, 1));
      && d0 == Db(map[0 := Root(0.0, 0.0)], [], [])
      && d1 == Db(map[0 := Root(0.0, 5.0)], [R1], [])
      && Apply(d1, Reserve("r2", [0], {0}, 5.0, 9)) == Db(map[0 := Root(0.0, 10.0)], [R1, R2], [])
  {
    var d0 := Apply(EMPTY, Create(Root(0.0, 0.0)));
    assert d0.budgets == map[0 := Root(0.0, 0.0)];
    ReserveFive(d0, 0.0, 0.0, "r1", 1);
    ReserveFive(Apply(d0, Reserve("r1", [0], {0}, 5.0, 1)), 0.0, 5.0, "r2", 9);
  }

  lemma TwoAdmitted() returns (actions: seq<Action>)
    ensures Interleave(actions)
      == System(World(Db(map[0 := Root(0.0, 10.0)], [R1, R2], []), []), map[], map[])
    ensures CommitLog(actions)
      == [Whole(Create(Root(0.0, 0.0))), Whole(Reserve("r1", [0], {0}, 5.0, 1)), Whole(Reserve("r2", [0], {0}, 5.0, 9))]
    ensures SaneRequests(actions)
  {
    assert Interleave([]) == START && CommitLog([]) == [] && SaneRequests([]);
    RootReserves();
    hide Interleave, CommitLog, Act, Apply, Committed, SaneRequests;
    var a1 := CreateAlone([], Root(0.0, 0.0));
    var a2 := AdmitAlone(a1, 1, Five("r1", 1), 0);
    actions := AdmitAlone(a2, 2, Five("r2", 9), 0);
  }

  /** Pod 3 reads the reservation of r1 and its chain. */
  lemma CompletionReads(actions: seq<Action>) returns (more: seq<Action>)
    requires Interleave(actions) == System(World(Db(map[0 := Root(0.0, 10.0)], [R1, R2], []), []), map[], map[])
    ensures Interleave(more)
      == Interleave(actions).(txs := map[3 := Completing(R1, 5.0, None, Some([Root(0.0, 10.0)]))])
    ensures CommitLog(more) == CommitLog(actions)
    ensures SaneRequests(actions) ==> SaneRequests(more)
  {
    hide Interleave, CommitLog;
    var a1 := actions + [ReadReservation(3, "r1", 5.0, None)];
    Then(actions, ReadReservation(3, "r1", 5.0, None));
    ExpiredFacts();
    Then(a1, ReadChain(3));
    more := a1 + [ReadChain(3)];
    LoneAncestor(Interleave(actions).world.db.budgets);
  }

  lemma LoneAncestor(t: BudgetTable)
    requires t.Keys == {0} && t[0].parent.None?
    ensures LedgerService.AncestorRows(t, 0) == Some([t[0]])
  {
    var p := LedgerService.ParentsOf(t);
    assert p == map[];
    assert Forest.Walk(p, 0, {}) == Some([0]);
    assert [0][1..] == [];
    assert LedgerService.RowsAt(t, [0]) == [t[0]];
  }

  lemma ExpiredFacts()
    ensures First([R1, R2], "r1") == Some(R1)
    ensures AreGroups([R1, R2], [0], 1)
    ensures SumsOf([R1, R2], [0], 1) == [Due(0, 5.0)]
    ensures Unexpired([R1, R2], 1) == [R2]
    ensures Without([R2], "r1") == [R2]
  {
    var rs := [R1, R2];
    assert rs[1..] == [R2] && [R2][1..] == [];
    assert rs[0].budgetId == 0 && rs[0].expiresAt <= 1;
    assert AreGroups(rs, [0], 1) by {
      assert forall i :: i in [0] <==> i == 0;
    }
    assert ExpiredOn([R2], 0, 1) == 0.0;
    assert ExpiredOn(rs, 0, 1) == 5.0;
    assert Unexpired([R2], 1) == [R2];
  }

  /** Meanwhile pod 4 cleans up: r1 has expired. */
  lemma CleanupRuns(actions: seq<Action>) returns (more: seq<Action>)
    requires var sys := Interleave(actions);
      sys.world == World(Db(map[0 := Root(0.0, 10.0)], [R1, R2], []), []) && sys.locks == map[] && 4 !in sys.txs
    ensures Interleave(more) == Interleave(actions).(world := World(Db(map[0 := Root(0.0, 5.0)], [R2], []), []))
    ensures CommitLog(more) == CommitLog(actions) + [Purge(1, [Due(0, 5.0)]), Settle(0)]
    ensures SaneRequests(actions) ==> SaneRequests(more)
  {
    hide Interleave, CommitLog;
    var sys := Interleave(actions);
    var sum, delete := SumExpired(4, [0], 1), DeleteExpired(4, 1);
    var a1, a2 := actions + [sum], actions + [sum] + [delete];
    Then(actions, sum);
    Then(a1, delete);
    Then(a2, ReleaseDue(0));
    more := a2 + [ReleaseDue(0)];
    hide Act, Committed;
    CleanupActs(sys);
  }

  lemma CleanupActs(sys: System)
    requires sys.world == World(Db(map[0 := Root(0.0, 10.0)], [R1, R2], []), []) && sys.locks == map[] && 4 !in sys.txs
    ensures var s1 := Act(sys, SumExpired(4, [0], 1));
      var s2 := Act(s1, DeleteExpired(4, 1));
      && Committed(sys, SumExpired(4, [0], 1)).None?
      && Committed(s1, DeleteExpired(4, 1)) == Some(Purge(1, [Due(0, 5.0)]))
      && Committed(s2, ReleaseDue(0)) == Some(Settle(0))
      && Act(s2, ReleaseDue(0)) == sys.(world := World(Db(map[0 := Root(0.0, 5.0)], [R2], []), []))
  {
    ExpiredFacts();
    hide AreGroups, SumsOf, Unexpired;
    var s1 := Act(sys, SumExpired(4, [0], 1));
    assert s1 == sys.(txs := sys.txs[4 := Cleaning([Due(0, 5.0)])]);
    var s2 := Act(s1, DeleteExpired(4, 1));
    assert s2 == sys.(world := World(Db(map[0 := Root(0.0, 10.0)], [R2], []), [Due(0, 5.0)])) by {
      assert Ended(s1, 4).txs == sys.txs && Ended(s1, 4).locks == map[];
    }
    assert [Due(0, 5.0)][..0] + [Due(0, 5.0)][1..] == [];
  }

  /** Pod 3 commits with the reservation it read, which is gone. */
  lemma CompletionCommits(actions: seq<Action>) returns (more: seq<Action>)
    requires Interleave(actions) == System(World(Db(map[0 := Root(0.0, 5.0)], [R2], []), []), map[],
                                           map[3 := Completing(R1, 5.0, None, Some([Root(0.0, 10.0)]))])
    ensures var sys := Interleave(more);
      && Quiet(sys) && sys.world.due == []
      && sys.world.db.budgets == map[0 := Root(5.0, 0.0)] && sys.world.db.reservations == [R2]
    ensures CommitLog(more) == CommitLog(actions) + [Completion(R1, 5.0, [Root(0.0, 10.0)], None)]
    ensures SaneRequests(actions) ==> SaneRequests(more)
  {
    hide Interleave, CommitLog;
    var a1 := actions + [LockCharge(3)];
    hide Act, Committed;
    Then(actions, LockCharge(3));
    RootIsLocked(Interleave(actions));
    Then(a1, CommitCharge(3));
    more := a1 + [CommitCharge(3)];
    RootIsCharged(Interleave(a1));
  }

  lemma RootIsCharged(sys: System)
    requires sys == System(World(Db(map[0 := Root(0.0, 5.0)], [R2], []), []), map[0 := 3],
                           map[3 := Completing(R1, 5.0, None, Some([Root(0.0, 10.0)]))])
    ensures var chain := [Root(0.0, 10.0)];
      && Committed(sys, CommitCharge(3)) == Some(Completion(R1, 5.0, chain, None))
      && Act(sys, CommitCharge(3))
           == System(World(Db(map[0 := Root(5.0, 0.0)], [R2], [UsageRecord(0, "r1", 5.0, true)]), []), map[], map[])
  {
    ChargeFacts();
    hide HierarchySort.Sorted, CommitCompletion;
    var chain := [Root(0.0, 10.0)];
    assert IdsOf(chain) == {0} by {
      assert chain[0].id == 0;
    }
    var after := Act(sys, CommitCharge(3));
    assert after.locks == map[] && after.txs == map[];
  }

  lemma RootIsLocked(sys: System)
    requires sys == System(World(Db(map[0 := Root(0.0, 5.0)], [R2], []), []), map[],
                           map[3 := Completing(R1, 5.0, None, Some([Root(0.0, 10.0)]))])
    ensures Act(sys, LockCharge(3)) == sys.(locks := map[0 := 3])
  {
    ChargeFacts();
    hide ChargeOrder, CommitCompletion;
    assert FirstUnheld(sys, 3, [0]) == Some(0);
  }

  lemma ChargeFacts()
    ensures var chain := [Root(0.0, 10.0)];
      && HierarchySort.Sorted(chain) == chain
      && ChargeOrder(Completing(R1, 5.0, None, Some(chain))) == [0]
      && CommitCompletion(Db(map[0 := Root(0.0, 5.0)], [R2], []), R1, 5.0, chain, None)
           == Db(map[0 := Root(5.0, 0.0)], [R2], [UsageRecord(0, "r1", 5.0, true)])
  {
    var chain := [Root(0.0, 10.0)];
    HierarchySort.OfKindUniform(chain, Org, Team);
    HierarchySort.OfKindUniform(chain, Org, Org);
    HierarchySort.OfKindUniform(chain, Org, Provider);
    assert IdSeq(chain) == [0];
    assert IdsOf(chain) == {0} by {
      assert chain[0].id == 0;
    }
    var lines := BucketFill.Lines(chain, 5.0, None);
    assert BucketFill.Rest(chain, 5.0, None, 0) == 5.0;
    assert lines == [BucketFill.Line(0, 5.0, 5.0, true)] && lines[1..] == [];
    assert ChargedTo(lines, 0) == 5.0;
    ExpiredFacts();
  }

  /** The reads of DecrementBudgets and of the cleanup are not locked: in this interleaving a
      budget of 10 ends up with 5 spent and 10 reserved, without any reset, although no request
      costs more than it estimated. The excess is the estimate that was released twice. */
  lemma StaleCompletionOverspends() returns (actions: seq<Action>)
    ensures SaneRequests(actions)
    ensures forall i :: 0 <= i < |CommitLog(actions)| ==>
      CostsAtMostEstimate(CommitLog(actions)[i]) && CommitLog(actions)[i] != Whole(Reset(0))
    ensures var db := Interleave(actions).world.db;
      && 0 in db.budgets && db.budgets[0].amount == 10.0
      && db.budgets[0].usage + HoldLaws.Held(db.reservations, 0) == 15.0
  {
    hide Interleave, CommitLog;
    var a1 := TwoAdmitted();
    var a2 := CompletionReads(a1);
    var a3 := CleanupRuns(a2);
    var a4 := CompletionCommits(a3);
    var db4 := Interleave(a4).world.db;
    actions := AdmitAlone(a4, 5, Five("r3", 9), 0);
    ReserveFive(db4, 5.0, 0.0, "r3", 9);
    var rs := Interleave(actions).world.db.reservations;
    assert rs == [R2, R3];
    assert rs[1..] == [R3] && [R3][1..] == [];
    assert HoldLaws.Held([R3], 0) == 5.0;
    assert HoldLaws.Held(rs, 0) == 10.0;
  }

  // ---------- a request that is charged twice ----------

  const RA := Reservation(0, "r1", 5.0, 9)

  /** A completion that has read the reservation and the root with 5 pending. */
  const HASREAD: Tx := Completing(RA, 5.0, None, Some([Root(0.0, 5.0)]))

  function Reserving(pending: Money, txs: map<Pod, Tx>): System {
    System(World(Db(map[0 := Root(0.0, pending)], [RA], []), []), map[], txs)
  }

  lemma ReadsRoot(sys: System, pod: Pod)
    requires sys == Reserving(5.0, sys.txs) && pod !in sys.txs
    ensures Act(Act(sys, ReadReservation(pod, "r1", 5.0, None)), ReadChain(pod))
      == Reserving(5.0, sys.txs[pod := HASREAD])
    ensures Committed(sys, ReadReservation(pod, "r1", 5.0, None)).None?
  {
    LoneAncestor(sys.world.db.budgets);
    assert First([RA], "r1") == Some(RA);
    hide First, LedgerService.AncestorRows;
    var read := Act(sys, ReadReservation(pod, "r1", 5.0, None));
    assert read == Reserving(5.0, sys.txs[pod := HASREAD.(chain := None)]);
  }

  lemma RootAlone()
    ensures DistinctIds([Root(0.0, 5.0)])
    ensures var chain := [Root(0.0, 5.0)];
      HierarchySort.Sorted(chain) == chain && ChargeOrder(HASREAD) == [0] && IdsOf(chain) == {0}
  {
    var chain := [Root(0.0, 5.0)];
    HierarchySort.OfKindUniform(chain, Org, Team);
    HierarchySort.OfKindUniform(chain, Org, Org);
    HierarchySort.OfKindUniform(chain, Org, Provider);
    assert IdSeq(chain) == [0];
    assert chain[0].id == 0;
  }

  /** The root is charged again, whatever is left of the reservation. */
  lemma ChargesRoot(db: Db, usage: Money, pending: Money)
    requires db.budgets == map[0 := Root(usage, pending)] && (db.reservations == [RA] || db.reservations == [])
    ensures DistinctIds([Root(0.0, 5.0)])
    ensures var chain := [Root(0.0, 5.0)];
      && HierarchySort.Sorted(chain) == chain && ChargeOrder(HASREAD) == [0] && IdsOf(chain) == {0}
      && CommitCompletion(db, RA, 5.0, chain, None)
           == Db(map[0 := Root(usage + 5.0, Max(0.0, pending - 5.0))], [], db.usage + [UsageRecord(0, "r1", 5.0, true)])
  {
    var chain := [Root(0.0, 5.0)];
    RootAlone();
    hide HierarchySort.Sorted, ChargeOrder, IdsOf;
    var lines := BucketFill.Lines(chain, 5.0, None);
    assert BucketFill.Rest(chain, 5.0, None, 0) == 5.0;
    assert lines == [BucketFill.Line(0, 5.0, 5.0, true)] && lines[1..] == [];
    assert ChargedTo(lines, 0) == 5.0;
    assert NewRecords(lines, "r1") == [UsageRecord(0, "r1", 5.0, true)];
    assert Without([RA], "r1") == [];
  }

  lemma CommitsRoot(sys: System, pod: Pod, usage: Money, pending: Money)
    requires sys.world.db.budgets == map[0 := Root(usage, pending)] && sys.locks == map[]
    requires sys.world.db.reservations == [RA] || sys.world.db.reservations == []
    requires pod in sys.txs && sys.txs[pod] == HASREAD
    ensures var locked := Act(sys, LockCharge(pod));
      var after := Act(locked, CommitCharge(pod));
      && Committed(sys, LockCharge(pod)).None?
      && Committed(locked, CommitCharge(pod)) == Some(Completion(RA, 5.0, [Root(0.0, 5.0)], None))
      && after.locks == map[] && after.txs == sys.txs - {pod} && after.world.due == sys.world.due
      && after.world.db.budgets == map[0 := Root(usage + 5.0, Max(0.0, pending - 5.0))]
      && after.world.db.reservations == []
  {
    ChargesRoot(sys.world.db, usage, pending);
    hide CommitCompletion, ChargeOrder, HierarchySort.Sorted;
    var locked := Act(sys, LockCharge(pod));
    assert FirstUnheld(sys, pod, [0]) == Some(0);
    assert locked == sys.(locks := map[0 := pod]);
    assert Committed(locked, CommitCharge(pod)) == Some(Completion(RA, 5.0, [Root(0.0, 5.0)], None));
  }

  /** Another stream with the same request id matches no budget: it is admitted and reserves
      nothing. */
  lemma MatchesNothing(db: Db)
    requires 0 in db.budgets
    ensures Apply(db, Reserve("r1", [0], {}, 5.0, 9)) == db
  {
    MatchesNone(Enforced(db.budgets, [0]));
    HierarchySort.OfKindUniform([], Org, Team);
    AdmissionOrder.IdleDoesNothing(db, Reserve("r1", [0], {}, 5.0, 9));
  }

  lemma {:induction false} MatchesNone(bs: seq<Budget>)
    ensures Matching(bs, {}) == []
  {
    if bs != [] {
      MatchesNone(bs[1..]);
    }
  }

  lemma StreamSteps()
    ensures Apply(EMPTY, Create(Root(0.0, 0.0))) == Db(map[0 := Root(0.0, 0.0)], [], [])
    ensures Apply(Db(map[0 := Root(0.0, 0.0)], [], []), Reserve("r1", [0], {0}, 5.0, 9))
      == Db(map[0 := Root(0.0, 5.0)], [RA], [])
    ensures var db := Db(map[0 := Root(0.0, 5.0)], [RA], []);
      Apply(db, Reserve("r1", [0], {}, 5.0, 9)) == db
  {
    ReserveFive(Db(map[0 := Root(0.0, 0.0)], [], []), 0.0, 0.0, "r1", 9);
    MatchesNothing(Db(map[0 := Root(0.0, 5.0)], [RA], []));
  }

  lemma TwoStreams() returns (actions: seq<Action>)
    ensures Interleave(actions) == Reserving(5.0, map[])
    ensures CommitLog(actions)
      == [Whole(Create(Root(0.0, 0.0))), Whole(Reserve("r1", [0], {0}, 5.0, 9)), Whole(Reserve("r1", [0], {}, 5.0, 9))]
  {
    assert Interleave([]) == START && CommitLog([]) == [];
    StreamSteps();
    hide Interleave, CommitLog, Act, Apply, Committed, SaneRequests;
    var a1 := CreateAlone([], Root(0.0, 0.0));
    var a2 := AdmitAlone(a1, 3, Five("r1", 9), 0);
    actions := AdmitAlone(a2, 6, Request("r1", {}, 5.0, 9), 0);
  }

  /** The completions of two streams with one request id overlap: the request was admitted with
      one reservation of 5 and its budget is charged 10. */
  lemma RequestChargedTwice() returns (actions: seq<Action>)
    ensures CommitLog(actions)
      == [Whole(Create(Root(0.0, 0.0))), Whole(Reserve("r1", [0], {0}, 5.0, 9)), Whole(Reserve("r1", [0], {}, 5.0, 9)),
          Completion(RA, 5.0, [Root(0.0, 5.0)], None), Completion(RA, 5.0, [Root(0.0, 5.0)], None)]
    ensures var db := Interleave(actions).world.db;
      db.budgets == map[0 := Root(10.0, 0.0)] && db.reservations == []
  {
    hide Interleave, CommitLog, Act, Committed;
    var a0 := TwoStreams();
    var r3, r6 := ReadReservation(3, "r1", 5.0, None), ReadReservation(6, "r1", 5.0, None);
    var a2, a4 := a0 + [r3] + [ReadChain(3)], a0 + [r3] + [ReadChain(3)] + [r6] + [ReadChain(6)];
    ReadingCommitsNothing(a0, r3, 3);
    ReadsRoot(Interleave(a0), 3);
    ReadingCommitsNothing(a2, r6, 6);
    ReadsRoot(Interleave(a2), 6);
    assert Interleave(a4) == Reserving(5.0, map[3 := HASREAD, 6 := HASREAD]);
    var a6 := a4 + [LockCharge(3)] + [CommitCharge(3)];
    Then(a4, LockCharge(3));
    Then(a4 + [LockCharge(3)], CommitCharge(3));
    CommitsRoot(Interleave(a4), 3, 0.0, 5.0);
    assert 6 in Interleave(a6).txs && Interleave(a6).txs[6] == HASREAD;
    Then(a6, LockCharge(6));
    Then(a6 + [LockCharge(6)], CommitCharge(6));
    CommitsRoot(Interleave(a6), 6, 5.0, 0.0);
    actions := a6 + [LockCharge(6)] + [CommitCharge(6)];
  }

  lemma ReadingCommitsNothing(actions: seq<Action>, read: Action, pod: Pod)
    requires read.ReadReservation?
    ensures Interleave(actions + [read] + [ReadChain(pod)]) == Act(Act(Interleave(actions), read), ReadChain(pod))
    ensures CommitLog(actions + [read] + [ReadChain(pod)]) == CommitLog(actions)
  {
    ReadsCommitNothing(Interleave(actions), read);
    ReadsCommitNothing(Act(Interleave(actions), read), ReadChain(pod));
    hide Interleave, CommitLog, Act, Committed;
    Then(actions, read);
    Then(actions + [read], ReadChain(pod));
  }

  lemma ReadsCommitNothing(sys: System, read: Action)
    requires read.ReadReservation? || read.ReadChain?
    ensures Committed(sys, read).None?
  {}

  // ---------- an admission that misses a budget ----------

  const OFF: Budget := Budget(1, Team, 1.0, 0.0, 0.0, Some(0), false, false, true, Pending)
  const ON: Budget := OFF.(status := Approved)

  lemma MissedFacts()
    ensures Selected(map[0 := Witnesses.ORG, 1 := OFF], [0, 1]) == [0]
    ensures var db := Db(map[0 := Witnesses.ORG, 1 := ON], [], []);
      && Apply(db, Reserve("r", [0, 1], {0, 1}, 5.0, 9)) == db
      && Apply(db, Reserve("r", [0], {0, 1}, 5.0, 9)).reservations == [Reservation(0, "r", 5.0, 9)]
  {
    assert [0, 1][1..] == [1] && [1][1..] == [];
    assert Selected(map[0 := Witnesses.ORG, 1 := OFF], [1]) == [];
    var t := map[0 := Witnesses.ORG, 1 := ON];
    Witnesses.PairIsCandidates(t);
    var bs := [t[1], t[0]];
    assert bs[0].Remaining() == 1.0 && !Admission.Passes(bs, bs[0], 5.0);
    LoneRow(t, 0);
    assert Matching([t[0]], {0, 1}) == [t[0]] by {
      assert [t[0]][1..] == [];
    }
    HierarchySort.OfKindUniform([t[0]], Org, Team);
    HierarchySort.OfKindUniform([t[0]], Org, Org);
    HierarchySort.OfKindUniform([t[0]], Org, Provider);
    assert Candidates(t, [0], {0, 1}) == [t[0]];
    assert Admission.Admits([t[0]], 5.0);
  }

  function MissingTx(todo: seq<Id>, held: seq<Budget>): Tx {
    Admitting(Request("r", {0, 1}, 5.0, 9), [0, 1], todo, held)
  }

  /** An org and a team below it, created one after the other. */
  lemma TwoCreated(org: Budget, team: Budget) returns (actions: seq<Action>)
    requires org.id == 0 && org.parent.None? && org.usage == org.pending == 0.0
    requires team.id == 1 && team.parent == Some(0) && team.usage == team.pending == 0.0
    ensures Interleave(actions) == System(World(Db(map[0 := org, 1 := team], [], []), []), map[], map[])
    ensures CommitLog(actions) == [Whole(Create(org)), Whole(Create(team))]
  {
    assert Interleave([]) == START && CommitLog([]) == [];
    hide Interleave, CommitLog;
    var a1 := CreateAlone([], org);
    assert Interleave(a1).world.db.budgets == map[0 := org];
    actions := CreateAlone(a1, team);
    assert Interleave(actions).world.db.budgets == map[0 := org, 1 := team];
  }

  lemma MissedBegins() returns (actions: seq<Action>)
    ensures Interleave(actions)
      == System(World(Db(map[0 := Witnesses.ORG, 1 := OFF], [], []), []), map[], map[1 := MissingTx([0], [])])
    ensures CommitLog(actions) == [Whole(Create(Witnesses.ORG)), Whole(Create(OFF))]
  {
    var made := TwoCreated(Witnesses.ORG, OFF);
    var begin := BeginAdmission(1, Request("r", {0, 1}, 5.0, 9), [0, 1]);
    Then(made, begin);
    hide Interleave, CommitLog;
    MissedFacts();
    hide Selected;
    actions := made + [begin];
  }

  lemma ApproveAlone(actions: seq<Action>, pod: Pod, id: Id) returns (more: seq<Action>)
    requires pod !in Interleave(actions).txs && Interleave(actions).locks == map[]
    ensures Interleave(more) == Interleave(actions).(world := Do(Interleave(actions).world, Whole(SetStatus(id, Approved))))
    ensures CommitLog(more) == CommitLog(actions) + [Whole(SetStatus(id, Approved))]
  {
    hide Interleave, CommitLog, Apply;
    var sys, s := Interleave(actions), SetStatus(id, Approved);
    var a1, a2 := actions + [BeginWriter(pod, s)], actions + [BeginWriter(pod, s)] + [LockRow(pod, id)];
    Then(actions, BeginWriter(pod, s));
    Then(a1, LockRow(pod, id));
    assert Interleave(a2) == System(sys.world, map[id := pod], sys.txs[pod := Writing(s)]);
    Then(a2, CommitWriter(pod));
    more := a2 + [CommitWriter(pod)];
    assert HoldsAll(Interleave(a2), pod, StepTouches(sys.world.db, s));
    assert Interleave(more).txs == sys.txs && Interleave(more).locks == map[];
  }

  lemma MissedCreatable()
    ensures Hierarchy.Creatable(map[], Witnesses.ORG) && Hierarchy.Creatable(map[0 := Witnesses.ORG], OFF)
  {}

  /** Pod 1 begins while a team below the org is pending, the team is approved, and pod 1 commits:
      it reserves on the org alone, although the same query made at its commit would deny the
      request. The only commits before are two creations that the handler accepts and the
      approval. */
  lemma AdmissionMissesBudget() returns (actions: seq<Action>)
    ensures CommitLog(actions) == [Whole(Create(Witnesses.ORG)), Whole(Create(OFF)), Whole(SetStatus(1, Approved))]
    ensures Hierarchy.Creatable(map[], Witnesses.ORG) && Hierarchy.Creatable(map[0 := Witnesses.ORG], OFF)
    ensures var sys := Interleave(actions);
      && 1 in sys.txs && sys.txs[1].Admitting?
      && Committed(sys, CommitAdmission(1)).Some?
      && Apply(sys.world.db, AdmissionOrder.OwnStep(sys.txs[1])) == sys.world.db
      && Act(sys, CommitAdmission(1)).world.db.reservations == [Reservation(0, "r", 5.0, 9)]
      && AdmissionOrder.PassedOver(sys.txs[1], 1) && AdmissionOrder.IsEnforced(sys.world.db, 1)
  {
    hide Interleave, CommitLog;
    MissedCreatable();
    hide Hierarchy.Creatable;
    var begun := MissedBegins();
    var approved := ApproveAlone(begun, 2, 1);
    var db := Interleave(approved).world.db;
    assert db == Db(map[0 := Witnesses.ORG, 1 := ON], [], []);
    Then(approved, LockNext(1));
    actions := approved + [LockNext(1)];
    MissedLocks(Interleave(approved));
    MissedFacts();
    CommitsAreOrdered(actions);
    MissedIsOn(Interleave(actions));
    hide Apply, Selected, Committed, Act, LockInvariant, AdmissionOrder.PassedOver, AdmissionOrder.IsEnforced;
    MissedCommits(Interleave(actions));
  }

  lemma MissedIsOn(sys: System)
    requires sys.world.db == Db(map[0 := Witnesses.ORG, 1 := ON], [], [])
    requires sys.txs == map[1 := MissingTx([], [Witnesses.ORG])]
    ensures AdmissionOrder.PassedOver(sys.txs[1], 1) && AdmissionOrder.IsEnforced(sys.world.db, 1)
    ensures AdmissionOrder.OwnStep(sys.txs[1]) == Reserve("r", [0, 1], {0, 1}, 5.0, 9)
  {}

  lemma MissedCommits(sys: System)
    requires LockInvariant(sys)
    requires sys == System(World(Db(map[0 := Witnesses.ORG, 1 := ON], [], []), []),
                           map[0 := 1], map[1 := MissingTx([], [Witnesses.ORG])])
    ensures Committed(sys, CommitAdmission(1)).Some?
    ensures Act(sys, CommitAdmission(1)).world.db == Apply(sys.world.db, Reserve("r", [0], {0, 1}, 5.0, 9))
  {
    assert IdSeq([Witnesses.ORG]) == [0];
    hide Apply;
    AdmissionKeepsInvariant(sys, 1);
  }

  lemma MissedLocks(sys: System)
    requires sys == System(World(Db(map[0 := Witnesses.ORG, 1 := ON], [], []), []), map[], map[1 := MissingTx([0], [])])
    ensures Act(sys, LockNext(1)) == System(sys.world, map[0 := 1], map[1 := MissingTx([], [Witnesses.ORG])])
    ensures Committed(sys, LockNext(1)).None?
    ensures IdSeq([Witnesses.ORG]) == [0] && Distinct([0])
  {
    assert [0][1..] == [] && [] + [Witnesses.ORG] == [Witnesses.ORG];
  }

  // ---------- a deadlock ----------

  const HELD: Budget := Witnesses.TEAM.(pending := 5.0)
  const RES: Reservation := Reservation(1, "r", 5.0, 9)

  /** An admission whose query returns both rows, with nobody else about. */
  lemma AdmitTwo(actions: seq<Action>, pod: Pod, request: Request) returns (more: seq<Action>)
    requires var sys := Interleave(actions);
      pod !in sys.txs && sys.locks == map[] && Witnesses.HasPair(sys.world.db)
    ensures var sys, s := Interleave(actions), Reserve(request.id, [0, 1], request.matches, request.estimate, request.expiresAt);
      Interleave(more) == sys.(world := Do(sys.world, Whole(s)))
  {
    hide Interleave, CommitLog, Apply, Act, Committed;
    var sys := Interleave(actions);
    var begin := BeginAdmission(pod, request, [0, 1]);
    var a1, a2, a3 := actions + [begin], actions + [begin] + [LockNext(pod)], actions + [begin] + [LockNext(pod)] + [LockNext(pod)];
    Then(actions, begin);
    Then(a1, LockNext(pod));
    Then(a2, LockNext(pod));
    Then(a3, CommitAdmission(pod));
    CommitsAreOrdered(actions);
    CommitsAreOrdered(a3);
    LocksTwo(sys, pod, request);
    CommitsTwo(sys, Interleave(a3), pod, request);
    more := a3 + [CommitAdmission(pod)];
  }

  lemma LocksTwo(sys: System, pod: Pod, request: Request)
    requires pod !in sys.txs && sys.locks == map[] && Witnesses.HasPair(sys.world.db)
    ensures var begun := Act(sys, BeginAdmission(pod, request, [0, 1]));
      var t := sys.world.db.budgets;
      Act(Act(begun, LockNext(pod)), LockNext(pod))
        == System(sys.world, map[0 := pod, 1 := pod], sys.txs[pod := Admitting(request, [0, 1], [], [t[0], t[1]])])
  {
    var t := sys.world.db.budgets;
    assert [0, 1][1..] == [1] && [1][1..] == [];
    assert Selected(t, [1]) == [1] && Selected(t, [0, 1]) == [0, 1];
    hide Selected;
    var begun := Act(sys, BeginAdmission(pod, request, [0, 1]));
    assert begun == System(sys.world, map[], sys.txs[pod := Admitting(request, [0, 1], [0, 1], [])]);
    assert [] + [t[0]] == [t[0]] && [t[0]] + [t[1]] == [t[0], t[1]];
    var one := Act(begun, LockNext(pod));
    assert one == System(sys.world, map[0 := pod], sys.txs[pod := Admitting(request, [0, 1], [1], [t[0]])]);
  }

  lemma CommitsTwo(sys: System, locked: System, pod: Pod, request: Request)
    requires pod !in sys.txs && sys.locks == map[] && Witnesses.HasPair(sys.world.db) && LockInvariant(locked)
    requires locked == System(sys.world, map[0 := pod, 1 := pod],
      sys.txs[pod := Admitting(request, [0, 1], [], [sys.world.db.budgets[0], sys.world.db.budgets[1]])])
    ensures Act(locked, CommitAdmission(pod)) == sys.(world :=
      Do(sys.world, Whole(Reserve(request.id, [0, 1], request.matches, request.estimate, request.expiresAt))))
  {
    var t := sys.world.db.budgets;
    assert IdSeq([t[0], t[1]]) == [0, 1] && Distinct([0, 1]);
    hide Apply, Publish;
    AdmissionKeepsInvariant(locked, pod);
    var after := Act(locked, CommitAdmission(pod));
    assert after.locks == map[] && after.txs == sys.txs;
  }

  /** Only the team matches. */
  lemma ReserveOnTeam()
    ensures Apply(Db(map[0 := Witnesses.ORG, 1 := Witnesses.TEAM], [], []), Reserve("r", [0, 1], {1}, 5.0, 9))
      == Db(map[0 := Witnesses.ORG, 1 := HELD], [RES], [])
    ensures First([RES], "r") == Some(RES)
  {
    var t := map[0 := Witnesses.ORG, 1 := Witnesses.TEAM];
    var bs := [t[1]];
    assert [0, 1][1..] == [1] && [1][1..] == [];
    assert Enforced(t, []) == [];
    assert Enforced(t, [1]) == [t[1]];
    assert Enforced(t, [0, 1]) == [t[0]] + Enforced(t, [0, 1][1..]);
    assert [t[0], t[1]][1..] == bs && bs[1..] == [] && t[0].id == 0 && t[1].id == 1;
    assert Matching(bs, {1}) == [bs[0]] + Matching(bs[1..], {1});
    assert Matching([t[0], t[1]], {1}) == Matching(bs, {1});
    HierarchySort.OfKindUniform(bs, Team, Team);
    HierarchySort.OfKindUniform(bs, Team, Org);
    HierarchySort.OfKindUniform(bs, Team, Provider);
    assert Candidates(t, [0, 1], {1}) == bs;
    assert IdsOf(bs) == {1} by {
      assert bs[0].id == 1;
    }
    assert Admission.Admits(bs, 5.0);
  }

  lemma TeamAncestors()
    ensures LedgerService.AncestorRows(map[0 := Witnesses.ORG, 1 := HELD], 1) == Some([HELD, Witnesses.ORG])
  {
    var u := map[0 := Witnesses.ORG, 1 := HELD];
    var p := LedgerService.ParentsOf(u);
    assert p == map[1 := 0];
    assert Forest.Walk(p, 0, {1}) == Some([0]);
    assert Forest.Walk(p, 1, {}) == Some([1] + [0]);
    assert [1] + [0] == [1, 0] && [1, 0][1..] == [0] && [0][1..] == [];
    assert LedgerService.RowsAt(u, [0]) == [u[0]];
    assert LedgerService.RowsAt(u, [1, 0]) == [u[1], u[0]];
  }

  lemma TeamBeforeOrg()
    ensures ChargeOrder(Completing(RES, 5.0, None, Some([HELD, Witnesses.ORG]))) == [1, 0]
    ensures Selected(map[0 := Witnesses.ORG, 1 := HELD], [0, 1]) == [0, 1]
  {
    Witnesses.SortedPair(HELD, Witnesses.ORG);
    assert IdSeq([HELD, Witnesses.ORG]) == [1, 0];
    var u := map[0 := Witnesses.ORG, 1 := HELD];
    assert [0, 1][1..] == [1] && [1][1..] == [];
    assert Selected(u, [1]) == [1];
  }

  const OPEN: World := World(Db(map[0 := Witnesses.ORG, 1 := HELD], [RES], []), [])
  const CHARGING: Tx := Completing(RES, 5.0, None, Some([HELD, Witnesses.ORG]))

  function WaitingTx(todo: seq<Id>, held: seq<Budget>): Tx {
    Admitting(Request("s", {0, 1}, 1.0, 9), [0, 1], todo, held)
  }

  lemma DeadlockReads() returns (actions: seq<Action>)
    ensures Interleave(actions) == System(OPEN, map[], map[3 := CHARGING])
  {
    hide Interleave, CommitLog, Act, Apply;
    var made := TwoCreated(Witnesses.ORG, Witnesses.TEAM);
    ReserveOnTeam();
    var held := AdmitTwo(made, 1, Request("r", {1}, 5.0, 9));
    assert Interleave(held) == System(OPEN, map[], map[]);
    var read := ReadReservation(3, "r", 5.0, None);
    Then(held, read);
    Then(held + [read], ReadChain(3));
    actions := held + [read] + [ReadChain(3)];
    CompletionOpens(Interleave(held));
  }

  lemma CompletionOpens(sys: System)
    requires sys == System(OPEN, map[], map[])
    ensures Act(Act(sys, ReadReservation(3, "r", 5.0, None)), ReadChain(3)) == System(OPEN, map[], map[3 := CHARGING])
  {
    ReserveOnTeam();
    TeamAncestors();
    hide First, LedgerService.AncestorRows, Apply;
    assert Act(sys, ReadReservation(3, "r", 5.0, None)) == System(OPEN, map[], map[3 := CHARGING.(chain := None)]);
  }

  lemma AdmissionLocks(sys: System, request: Request)
    requires sys == System(OPEN, map[], map[3 := CHARGING]) && request == Request("s", {0, 1}, 1.0, 9)
    ensures Act(Act(sys, BeginAdmission(0, request, [0, 1])), LockNext(0))
      == System(OPEN, map[0 := 0], map[3 := CHARGING, 0 := WaitingTx([1], [Witnesses.ORG])])
  {
    TeamBeforeOrg();
    hide Selected, ChargeOrder;
    assert [0, 1][1..] == [1] && [] + [Witnesses.ORG] == [Witnesses.ORG];
    var begun := Act(sys, BeginAdmission(0, request, [0, 1]));
    assert begun == System(OPEN, map[], map[3 := CHARGING, 0 := WaitingTx([0, 1], [])]);
  }

  lemma CompletionLocks(sys: System)
    requires sys == System(OPEN, map[0 := 0], map[3 := CHARGING, 0 := WaitingTx([1], [Witnesses.ORG])])
    ensures Deadlock.WaitCycle(Act(sys, LockCharge(3)), [0, 3]) && Act(sys, LockCharge(3)).txs == sys.txs
  {
    TeamBeforeOrg();
    hide ChargeOrder, Selected;
    TeamThenOrg(sys);
    var after := Act(sys, LockCharge(3));
    assert after == Locked(sys, 3, 1);
    hide FirstUnheld, Act;
    assert Deadlock.Waits(after, 0, 3) && Deadlock.Waits(after, 3, 0);
  }

  lemma TeamThenOrg(sys: System)
    requires sys.world == OPEN && sys.locks == map[0 := 0]
    ensures FirstUnheld(sys, 3, [1, 0]) == Some(1)
    ensures FirstUnheld(Locked(sys, 3, 1), 3, [1, 0]) == Some(0)
  {
    assert [1, 0][1..] == [0];
    assert FirstUnheld(Locked(sys, 3, 1), 3, [0]) == Some(0);
  }

  /** The admission's query orders by entity type, and the type's values are declared provider,
      org, team; a completion charges team, org, provider. Pod 0 has locked the org and wants
      the team, pod 3 has locked the team and wants the org. */
  lemma AdmissionAndCompletionDeadlock() returns (actions: seq<Action>)
    ensures Deadlock.WaitCycle(Interleave(actions), [0, 3])
    ensures var txs := Interleave(actions).txs;
      0 in txs && txs[0].Admitting? && 3 in txs && txs[3].Completing?
  {
    hide Interleave, Act, Deadlock.WaitCycle;
    var a1 := DeadlockReads();
    var begin := BeginAdmission(0, Request("s", {0, 1}, 1.0, 9), [0, 1]);
    Then(a1, begin);
    Then(a1 + [begin], LockNext(0));
    AdmissionLocks(Interleave(a1), begin.request);
    Then(a1 + [begin] + [LockNext(0)], LockCharge(3));
    actions := a1 + [begin] + [LockNext(0)] + [LockCharge(3)];
    CompletionLocks(Interleave(a1 + [begin] + [LockNext(0)]));
  }
}
