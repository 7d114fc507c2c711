/** Several pods and writers on one database. An admission locks and reads its candidate rows one
at a time (SELECT .. FOR UPDATE), decides on what it read, and publishes its writes when it
commits. A completion reads its reservation and its chain before it locks anything. A cleanup
is a SELECT, a DELETE and UPDATEs, each a transaction of its own. Every writer locks the rows it
changes and publishes when it commits. */
module Concurrency {
  import opened Model
  import opened Ledger
  import opened Effects
  import Admission
  import HierarchySort
  import HoldLaws
  import LedgerService
  import SpendLaws

  type Pod = nat

  datatype Request = Request(id: RequestId, matches: set<Id>, estimate: Money, expiresAt: Instant)

  /** `rows` is the table in the order of the admission's query, `todo` the rows still to be
      locked and `held` the rows as they were read. */
  datatype Tx =
    | Admitting(request: Request, rows: IdList, todo: seq<Id>, held: seq<Budget>)
    | Writing(step: Step)
    | Completing(res: Reservation, cost: Money, limitedAt: Option<Id>, chain: Option<Rows>)
    | Cleaning(sums: seq<Due>)

  datatype System = System(world: World, locks: map<Id, Pod>, txs: map<Pod, Tx>)

  datatype Action =
    | BeginAdmission(pod: Pod, request: Request, rows: IdList)
    | LockNext(pod: Pod)
    | CommitAdmission(pod: Pod)
    | BeginWriter(pod: Pod, step: Step)
    | LockRow(pod: Pod, id: Id)
    | CommitWriter(pod: Pod)
    | ReadReservation(pod: Pod, requestId: RequestId, cost: Money, limitedAt: Option<Id>)
    | ReadChain(pod: Pod)
    | LockCharge(pod: Pod)
    | CommitCharge(pod: Pod)
    | SumExpired(pod: Pod, groups: seq<Id>, now: Instant)
    | DeleteExpired(pod: Pod, now: Instant)
    | ReleaseDue(k: nat)
    | Abort(pod: Pod)

  const START := System(BLANK, map[], map[])

  /** The rows the query's snapshot selects. */
  function Selected(t: BudgetTable, rows: seq<Id>): seq<Id> {
    if rows == [] then []
    else if rows[0] in t && t[rows[0]].Enforced() then [rows[0]] + Selected(t, rows[1..])
    else Selected(t, rows[1..])
  }

  /** Rows that an effect changes or removes. */
  ghost function Touched(w: World, e: Effect): set<Id> {
    match e
    case Whole(s) => StepTouches(w.db, s)
    case Completion(res, _, chain, _) => IdsOf(HierarchySort.Sorted(chain)) + {res.budgetId}
    case Purge(_, _) => {}
    case Settle(k) => if k < |w.due| then {w.due[k].id} else {}
  }

  ghost function StepTouches(db: Db, s: Step): set<Id> {
    match s
    case Reserve(_, rows, matches, _, _) => IdsOf(Candidates(db.budgets, rows, matches))
    case Complete(r, _, chain, _) =>
      if First(db.reservations, r).None? then {}
      else IdsOf(HierarchySort.Sorted(chain)) + {First(db.reservations, r).value.budgetId}
    case Cleanup(now) => set i | i in db.budgets && HasExpired(db.reservations, i, now)
    case Reset(id) => {id}
    case Create(_) => {}
    case Configure(id, _) => {id}
    case SetStatus(id, _) => {id}
    case Delete(ids) => ids
  }

  function IdSeq(bs: seq<Budget>): (ids: seq<Id>)
    ensures |ids| == |bs| && forall k :: 0 <= k < |bs| ==> ids[k] == bs[k].id
  {
    seq(|bs|, k requires 0 <= k < |bs| => bs[k].id)
  }

  /** What an admission publishes, decided on the rows it read. */
  function Publish(db: Db, request: Request, held: seq<Budget>): Db {
    var bs := HierarchySort.Sorted(Matching(held, request.matches));
    if !Admission.Admits(bs, request.estimate) || Conflicts(db.reservations, bs, request.id) then db
    else Db(AddPending(db.budgets, IdsOf(bs), request.estimate),
            db.reservations + NewReservations(bs, request.id, request.estimate, request.expiresAt),
            db.usage)
  }

  ghost predicate HoldsAll(sys: System, pod: Pod, ids: set<Id>) {
    forall i :: i in ids && i in sys.world.db.budgets ==> i in sys.locks && sys.locks[i] == pod
  }

  /** The order in which a completion updates its rows: the chain, then the release. */
  function ChargeOrder(tx: Tx): seq<Id>
    requires tx.Completing? && tx.chain.Some?
  {
    var ids := IdSeq(HierarchySort.Sorted(tx.chain.value));
    if tx.res.budgetId in ids then ids else ids + [tx.res.budgetId]
  }

  /** The chain in the order in which it is charged, and last the budget whose hold is released,
      unless it is one of them. */
  lemma ChargeOrderIs(tx: Tx)
    requires tx.Completing? && tx.chain.Some?
    ensures var ids, sorted := ChargeOrder(tx), HierarchySort.Sorted(tx.chain.value);
      && |sorted| <= |ids| <= |sorted| + 1 && tx.res.budgetId in ids
      && (forall k :: 0 <= k < |sorted| ==> ids[k] == sorted[k].id)
      && (|ids| > |sorted| ==> ids[|sorted|] == tx.res.budgetId && tx.res.budgetId !in ids[..|sorted|])
  {}

  function FirstUnheld(sys: System, pod: Pod, ids: seq<Id>): Option<Id> {
    if ids == [] then None
    else if ids[0] in sys.world.db.budgets && !(ids[0] in sys.locks && sys.locks[ids[0]] == pod) then Some(ids[0])
    else FirstUnheld(sys, pod, ids[1..])
  }

  /** The row a pod has to lock next. */
  function Wanted(sys: System, pod: Pod): Option<Id> {
    if pod !in sys.txs then None
    else
      match sys.txs[pod]
      case Admitting(_, _, todo, _) =>
        if todo != [] && todo[0] in sys.world.db.budgets && sys.world.db.budgets[todo[0]].Enforced()
        then Some(todo[0]) else None
      case Completing(_, _, _, chain) =>
        if chain.Some? then FirstUnheld(sys, pod, ChargeOrder(sys.txs[pod])) else None
      case _ => None
  }

  function Ended(sys: System, pod: Pod): System {
    sys.(locks := map i | i in sys.locks && sys.locks[i] != pod :: sys.locks[i], txs := sys.txs - {pod})
  }

  function Locked(sys: System, pod: Pod, id: Id): System {
    sys.(locks := sys.locks[id := pod])
  }

  /** One action; an action that has to wait leaves everything as it is. */
  ghost function Act(sys: System, a: Action): System {
    var db, txs := sys.world.db, sys.txs;
    match a
    case BeginAdmission(pod, request, rows) =>
      if pod in txs then sys
      else sys.(txs := txs[pod := Admitting(request, rows, Selected(db.budgets, rows), [])])
    case LockNext(pod) =>
      if pod !in txs || !txs[pod].Admitting? || txs[pod].todo == [] then sys
      else
        var tx := txs[pod];
        var rest := tx.(todo := tx.todo[1..]);
        if Wanted(sys, pod).None? then sys.(txs := txs[pod := rest])
        else if tx.todo[0] in sys.locks then sys
        else Locked(sys, pod, tx.todo[0]).(txs := txs[pod := rest.(held := tx.held + [db.budgets[tx.todo[0]]])])
    case BeginWriter(pod, step) =>
      if pod in txs || step.Reserve? || step.Complete? || step.Cleanup? then sys
      else sys.(txs := txs[pod := Writing(step)])
    case LockRow(pod, id) =>
      if pod !in txs || !txs[pod].Writing? || id in sys.locks then sys else Locked(sys, pod, id)
    case ReadReservation(pod, requestId, cost, limitedAt) =>
      if pod in txs || First(db.reservations, requestId).None? then sys
      else sys.(txs := txs[pod := Completing(First(db.reservations, requestId).value, cost, limitedAt, None)])
    case ReadChain(pod) =>
      if pod !in txs || !txs[pod].Completing? then sys
      else
        var rows := LedgerService.AncestorRows(db.budgets, txs[pod].res.budgetId);
        if rows.None? || !DistinctIds(rows.value) || txs[pod].chain.Some? then sys
        else sys.(txs := txs[pod := txs[pod].(chain := Some(rows.value))])
    case LockCharge(pod) =>
      if pod !in txs || !txs[pod].Completing? || Wanted(sys, pod).None? || Wanted(sys, pod).value in sys.locks then sys
      else Locked(sys, pod, Wanted(sys, pod).value)
    case SumExpired(pod, groups, now) =>
      if pod in txs || !AreGroups(db.reservations, groups, now) then sys
      else sys.(txs := txs[pod := Cleaning(SumsOf(db.reservations, groups, now))])
    case Abort(pod) => Ended(sys, pod)
    case _ =>
      match Committed(sys, a)
      case None => sys
      case Some(e) => Done(sys, a).(world := Published(sys, a))
  }

  /** The tables after a commit. */
  ghost function Published(sys: System, a: Action): World
    requires Committed(sys, a).Some?
  {
    if a.CommitAdmission?
    then sys.world.(db := Publish(sys.world.db, sys.txs[a.pod].request, sys.txs[a.pod].held))
    else Do(sys.world, Committed(sys, a).value)
  }

  function Done(sys: System, a: Action): System {
    match a
    case ReleaseDue(_) => sys
    case _ => Ended(sys, a.pod)
  }

  function AdmissionStep(request: Request, held: seq<Budget>): Step
    requires Distinct(IdSeq(held))
  {
    Reserve(request.id, IdSeq(held), request.matches, request.estimate, request.expiresAt)
  }

  /** The effect that an action commits. */
  ghost function Committed(sys: System, a: Action): Option<Effect> {
    match a
    case CommitAdmission(pod) =>
      if pod in sys.txs && sys.txs[pod].Admitting? && sys.txs[pod].todo == [] && Distinct(IdSeq(sys.txs[pod].held))
      then Some(Whole(AdmissionStep(sys.txs[pod].request, sys.txs[pod].held))) else None
    case CommitWriter(pod) =>
      if pod in sys.txs && sys.txs[pod].Writing?
         && HoldsAll(sys, pod, StepTouches(sys.world.db, sys.txs[pod].step))
      then Some(Whole(sys.txs[pod].step)) else None
    case CommitCharge(pod) =>
      if pod in sys.txs && sys.txs[pod].Completing? && sys.txs[pod].chain.Some?
         && HoldsAll(sys, pod, Touched(sys.world, ChargeOf(sys.txs[pod])))
      then Some(ChargeOf(sys.txs[pod])) else None
    case DeleteExpired(pod, now) =>
      if pod in sys.txs && sys.txs[pod].Cleaning? then Some(Purge(now, sys.txs[pod].sums)) else None
    case ReleaseDue(k) =>
      if k < |sys.world.due| && sys.world.due[k].id !in sys.locks then Some(Settle(k)) else None
    case _ => None
  }

  /** What a completion commits: with the reservation and the chain it read. */
  function ChargeOf(tx: Tx): Effect
    requires tx.Completing? && tx.chain.Some?
  {
    Completion(tx.res, tx.cost, tx.chain.value, tx.limitedAt)
  }

  ghost function Interleave(actions: seq<Action>): System {
    if actions == [] then START
    else Act(Interleave(actions[..|actions| - 1]), actions[|actions| - 1])
  }

  /** The committed effects in commit order. */
  ghost function CommitLog(actions: seq<Action>): seq<Effect> {
    if actions == [] then []
    else
      var pre, a := actions[..|actions| - 1], actions[|actions| - 1];
      CommitLog(pre) + match Committed(Interleave(pre), a) { case None => [] case Some(e) => [e] }
  }

  // ---------- footprints ----------

  lemma {:induction false} UnchargedOutside(db: Db, res: Reservation, cost: Money, chain: Rows, limitedAt: Option<Id>, i: Id)
    requires i in db.budgets && i !in IdsOf(HierarchySort.Sorted(chain)) + {res.budgetId}
    ensures var after := CommitCompletion(db, res, cost, chain, limitedAt);
      i in after.budgets && after.budgets[i] == db.budgets[i]
  {
    SpendLaws.CompletedRow(db, res, cost, chain, limitedAt, i);
    SpendLaws.ChargeOf(chain, cost, limitedAt, i);
    hide CommitCompletion, HierarchySort.Sorted;
  }

  lemma {:induction false} StepLeavesAlone(db: Db, s: Step, i: Id)
    requires Keyed(db.budgets) && i in db.budgets && i !in StepTouches(db, s)
    ensures i in Apply(db, s).budgets && Apply(db, s).budgets[i] == db.budgets[i]
  {
    if s.Complete? && First(db.reservations, s.requestId).Some? {
      UnchargedOutside(db, First(db.reservations, s.requestId).value, s.cost, s.chain, s.limitedAt, i);
    }
    hide CommitCompletion, HierarchySort.Sorted, First;
  }

  /** An effect leaves the rows outside its footprint alone. */
  lemma {:induction false} UntouchedRowsStay(w: World, e: Effect, i: Id)
    requires Keyed(w.db.budgets) && i in w.db.budgets && i !in Touched(w, e)
    ensures i in Do(w, e).db.budgets && Do(w, e).db.budgets[i] == w.db.budgets[i]
  {
    match e
    case Whole(s) =>
      StepLeavesAlone(w.db, s, i);
      hide Apply, StepTouches;
    case Completion(res, cost, chain, limitedAt) =>
      UnchargedOutside(w.db, res, cost, chain, limitedAt, i);
      hide CommitCompletion, HierarchySort.Sorted;
    case _ =>
  }

  lemma {:induction false} DoKeepsKeyed(w: World, e: Effect)
    requires Keyed(w.db.budgets)
    ensures Keyed(Do(w, e).db.budgets)
  {}

  // ---------- locks ----------

  /** The rows read so far are locked by the pod and are still what the table holds. */
  ghost predicate ReadsAreCurrent(sys: System, pod: Pod, tx: Tx)
    requires tx.Admitting?
  {
    && Distinct(IdSeq(tx.held) + tx.todo)
    && forall k :: 0 <= k < |tx.held| ==> IsCurrent(sys, pod, tx.held[k])
  }

  ghost predicate IsCurrent(sys: System, pod: Pod, b: Budget) {
    && b.id in sys.locks && sys.locks[b.id] == pod
    && b.id in sys.world.db.budgets && sys.world.db.budgets[b.id] == b
    && b.Enforced()
  }

  ghost predicate LockInvariant(sys: System) {
    && Keyed(sys.world.db.budgets)
    && forall pod :: pod in sys.txs && sys.txs[pod].Admitting? ==> ReadsAreCurrent(sys, pod, sys.txs[pod])
  }

  lemma {:induction false} ReadingBack(t: BudgetTable, held: seq<Budget>)
    requires forall k :: 0 <= k < |held| ==> held[k].id in t && t[held[k].id] == held[k] && held[k].Enforced()
    ensures Enforced(t, IdSeq(held)) == held
  {
    if held != [] {
      assert IdSeq(held)[1..] == IdSeq(held[1..]);
      ReadingBack(t, held[1..]);
    }
  }

  /** The snapshot a pod decides on equals the current rows, whatever the others have done:
      its commit is the admission run alone on the current tables. */
  lemma {:induction false} DecidesOnCurrentRows(sys: System, pod: Pod)
    requires LockInvariant(sys) && pod in sys.txs && sys.txs[pod].Admitting?
    ensures Distinct(IdSeq(sys.txs[pod].held))
    ensures Enforced(sys.world.db.budgets, IdSeq(sys.txs[pod].held)) == sys.txs[pod].held
    ensures var tx := sys.txs[pod];
      Publish(sys.world.db, tx.request, tx.held) == Apply(sys.world.db, AdmissionStep(tx.request, tx.held))
  {
    var tx := sys.txs[pod];
    assert ReadsAreCurrent(sys, pod, tx);
    var all := IdSeq(tx.held) + tx.todo;
    assert forall k :: 0 <= k < |tx.held| ==> IdSeq(tx.held)[k] == all[k];
    assert forall k :: 0 <= k < |tx.held| ==> IsCurrent(sys, pod, tx.held[k]);
    ReadingBack(sys.world.db.budgets, tx.held);
  }

  lemma {:induction false} SelectedIsDistinct(t: BudgetTable, rows: seq<Id>)
    requires Distinct(rows)
    ensures Distinct(Selected(t, rows))
    ensures forall x :: x in Selected(t, rows) <==> x in rows && x in t && t[x].Enforced()
  {
    if rows != [] {
      SelectedIsDistinct(t, rows[1..]);
      assert rows == [rows[0]] + rows[1..];
    }
  }

  /** An admission's own footprint is locked by it. */
  lemma {:induction false} FootprintIsHeld(sys: System, pod: Pod)
    requires LockInvariant(sys) && pod in sys.txs && sys.txs[pod].Admitting?
    requires Distinct(IdSeq(sys.txs[pod].held))
    ensures HoldsAll(sys, pod, StepTouches(sys.world.db, AdmissionStep(sys.txs[pod].request, sys.txs[pod].held)))
  {
    var tx := sys.txs[pod];
    assert ReadsAreCurrent(sys, pod, tx);
    var bs := Candidates(sys.world.db.budgets, IdSeq(tx.held), tx.request.matches);
    CandidatesMembers(sys.world.db.budgets, IdSeq(tx.held), tx.request.matches);
    forall i | i in IdsOf(bs)
      ensures i in sys.locks && sys.locks[i] == pod
    {
      var j :| 0 <= j < |bs| && bs[j].id == i;
      assert bs[j] in bs;
      var k :| 0 <= k < |IdSeq(tx.held)| && IdSeq(tx.held)[k] == i;
      assert IsCurrent(sys, pod, tx.held[k]);
    }
  }

  /** Rows that an effect touches are not read by another admission. */
  ghost predicate Undisturbing(sys: System, e: Effect, pod: Pod) {
    HoldsAll(sys, pod, Touched(sys.world, e))
    || forall i :: i in Touched(sys.world, e) ==> i !in sys.locks
  }

  /** Committing does not disturb what other pods have read. */
  lemma {:induction false} CommitKeepsReads(sys: System, after: System, e: Effect, pod: Pod, other: Pod)
    requires LockInvariant(sys) && Undisturbing(sys, e, pod)
    requires after.world == Do(sys.world, e)
    requires other in sys.txs && sys.txs[other].Admitting?
    requires other != pod || forall i :: i in Touched(sys.world, e) ==> i !in sys.locks
    requires forall i :: i in sys.locks && sys.locks[i] == other ==> i in after.locks && after.locks[i] == other
    ensures ReadsAreCurrent(after, other, sys.txs[other])
  {
    var tx := sys.txs[other];
    assert ReadsAreCurrent(sys, other, tx);
    forall k | 0 <= k < |tx.held|
      ensures IsCurrent(after, other, tx.held[k])
    {
      assert IsCurrent(sys, other, tx.held[k]);
      UntouchedRowsStay(sys.world, e, tx.held[k].id);
    }
  }

  lemma {:induction false} CommitKeepsInvariant(sys: System, a: Action, pod: Pod)
    requires LockInvariant(sys) && Committed(sys, a).Some? && !a.CommitAdmission?
    requires pod == if a.ReleaseDue? then 0 else a.pod
    requires Undisturbing(sys, Committed(sys, a).value, pod)
    requires a.ReleaseDue? ==> forall i :: i in Touched(sys.world, Committed(sys, a).value) ==> i !in sys.locks
    ensures LockInvariant(Act(sys, a))
  {
    var e, after := Committed(sys, a).value, Act(sys, a);
    DoKeepsKeyed(sys.world, e);
    forall other | other in after.txs && after.txs[other].Admitting?
      ensures ReadsAreCurrent(after, other, after.txs[other])
    {
      CommitKeepsReads(sys, after, e, pod, other);
    }
  }

  lemma {:induction false} AdmissionKeepsInvariant(sys: System, pod: Pod)
    requires LockInvariant(sys) && Committed(sys, CommitAdmission(pod)).Some?
    ensures LockInvariant(Act(sys, CommitAdmission(pod)))
    ensures Act(sys, CommitAdmission(pod)).world == Do(sys.world, Committed(sys, CommitAdmission(pod)).value)
  {
    var e, after := Committed(sys, CommitAdmission(pod)).value, Act(sys, CommitAdmission(pod));
    DecidesOnCurrentRows(sys, pod);
    FootprintIsHeld(sys, pod);
    DoKeepsKeyed(sys.world, e);
    forall other | other in after.txs && after.txs[other].Admitting?
      ensures ReadsAreCurrent(after, other, after.txs[other])
    {
      CommitKeepsReads(sys, after, e, pod, other);
    }
  }

  lemma {:induction false} LockNextKeepsInvariant(sys: System, pod: Pod)
    requires LockInvariant(sys)
    ensures LockInvariant(Act(sys, LockNext(pod)))
  {
    var after := Act(sys, LockNext(pod));
    forall other | other in after.txs && after.txs[other].Admitting?
      ensures ReadsAreCurrent(after, other, after.txs[other])
    {
      var tx := sys.txs[other];
      assert ReadsAreCurrent(sys, other, tx);
      if other == pod && after != sys {
        NextKeepsReads(sys, after, pod);
      } else {
        assert forall k :: 0 <= k < |tx.held| ==> IsCurrent(sys, other, tx.held[k]);
      }
    }
  }

  lemma {:induction false} NextKeepsReads(sys: System, after: System, pod: Pod)
    requires LockInvariant(sys) && after == Act(sys, LockNext(pod)) && after != sys
    requires pod in sys.txs && sys.txs[pod].Admitting?
    ensures pod in after.txs && after.txs[pod].Admitting? && ReadsAreCurrent(after, pod, after.txs[pod])
  {
    var tx, tx' := sys.txs[pod], after.txs[pod];
    assert ReadsAreCurrent(sys, pod, tx);
    var ids, ids' := IdSeq(tx.held) + tx.todo, IdSeq(tx'.held) + tx'.todo;
    assert forall k :: 0 <= k < |tx.held| ==> IsCurrent(sys, pod, tx.held[k]);
    if |tx'.held| == |tx.held| {
      assert forall k :: 0 <= k < |ids'| ==> ids'[k] == ids[if k < |tx.held| then k else k + 1];
    } else {
      assert ids' == ids;
    }
  }

  /** Actions that commit nothing and read no row for an admission. */
  lemma {:induction false} OthersKeepReads(sys: System, a: Action)
    requires LockInvariant(sys) && Committed(sys, a).None? && !a.LockNext?
    ensures LockInvariant(Act(sys, a)) && Act(sys, a).world == sys.world
  {
    var after := Act(sys, a);
    forall other | other in after.txs && after.txs[other].Admitting?
      ensures ReadsAreCurrent(after, other, after.txs[other])
    {
      if other in sys.txs {
        assert ReadsAreCurrent(sys, other, sys.txs[other]);
        assert forall k :: 0 <= k < |sys.txs[other].held| ==> IsCurrent(sys, other, sys.txs[other].held[k]);
      } else {
        var todo := Selected(sys.world.db.budgets, a.rows);
        SelectedIsDistinct(sys.world.db.budgets, a.rows);
        assert IdSeq([]) + todo == todo;
      }
    }
  }

  lemma {:induction false} ActKeepsInvariant(sys: System, a: Action)
    requires LockInvariant(sys)
    ensures LockInvariant(Act(sys, a))
    ensures Committed(sys, a).None? ==> Act(sys, a).world == sys.world
    ensures Committed(sys, a).Some? ==> Act(sys, a).world == Do(sys.world, Committed(sys, a).value)
  {
    if Committed(sys, a).None? {
      if a.LockNext? {
        LockNextKeepsInvariant(sys, a.pod);
      } else {
        OthersKeepReads(sys, a);
      }
    } else if a.CommitAdmission? {
      AdmissionKeepsInvariant(sys, a.pod);
    } else {
      CommitKeepsInvariant(sys, a, if a.ReleaseDue? then 0 else a.pod);
    }
  }

  /** Every interleaving leaves the tables as the committed effects applied one at a time, in
      commit order. */
  lemma {:induction false} CommitsAreOrdered(actions: seq<Action>)
    ensures LockInvariant(Interleave(actions))
    ensures Interleave(actions).world == Play(CommitLog(actions))
  {
    if actions != [] {
      var pre, a := actions[..|actions| - 1], actions[|actions| - 1];
      CommitsAreOrdered(pre);
      ActKeepsInvariant(Interleave(pre), a);
      match Committed(Interleave(pre), a)
      case None => assert CommitLog(pre) + [] == CommitLog(pre);
      case Some(e) =>
        var log := CommitLog(pre) + [e];
        assert log[..|log| - 1] == CommitLog(pre);
    }
  }

  /** Serializability: as long as every completion still finds the reservation it read, and
      every cleanup deletes what it summed and is settled without a break, every interleaving of
      pods and writers leaves the tables as the sequential ledger run on the committed
      transactions in commit order. */
  lemma {:induction false} Serializable(actions: seq<Action>)
    requires SerialPlay(CommitLog(actions))
    ensures Flush(Interleave(actions).world) == World(Run(StepsOf(CommitLog(actions))), [])
    ensures Interleave(actions).world.due == [] ==> Interleave(actions).world.db == Run(StepsOf(CommitLog(actions)))
  {
    CommitsAreOrdered(actions);
    SerialPlayIsRun(CommitLog(actions));
  }

  /** Exactly when the commit of a completion is the serial one: its request still has a
      reservation, and releasing the oldest is releasing the one that was read. */
  lemma {:induction false} ChargeIsSerialIff(sys: System, pod: Pod)
    requires LockInvariant(sys) && Committed(sys, CommitCharge(pod)).Some?
    requires var sorted := HierarchySort.Sorted(sys.txs[pod].chain.value);
      sorted != [] && IdsOf(sorted) <= sys.world.db.budgets.Keys
    ensures var tx, db := sys.txs[pod], sys.world.db;
      Act(sys, CommitCharge(pod)).world.db == Apply(db, Complete(tx.res.requestId, tx.cost, tx.chain.value, tx.limitedAt))
      <==> First(db.reservations, tx.res.requestId).Some?
           && SameRelease(db.budgets, First(db.reservations, tx.res.requestId).value, tx.res)
  {
    var tx := sys.txs[pod];
    CompletionIsSerialIff(sys.world.db, tx.res, tx.cost, tx.chain.value, tx.limitedAt);
  }

  // ---------- the overspend bound under every interleaving ----------

  predicate SaneRequests(actions: seq<Action>) {
    forall i :: 0 <= i < |actions| && actions[i].BeginAdmission? ==> actions[i].request.estimate >= 0.0
  }

  ghost predicate SaneTx(tx: Tx) {
    match tx
    case Admitting(request, _, _, _) => request.estimate >= 0.0
    case Writing(step) => !step.Reserve?
    case Cleaning(sums) => forall i :: 0 <= i < |sums| ==> sums[i].amount >= 0.0
    case _ => true
  }

  /** Sums of estimates are never negative, so all committed effects are sane. */
  lemma {:induction false} LogIsSane(actions: seq<Action>)
    requires SaneRequests(actions)
    ensures SanePlay(CommitLog(actions))
    ensures Sound(Interleave(actions).world)
    ensures forall pod :: pod in Interleave(actions).txs ==> SaneTx(Interleave(actions).txs[pod])
  {
    if actions != [] {
      var pre, a := actions[..|actions| - 1], actions[|actions| - 1];
      LogIsSane(pre);
      CommitsAreOrdered(pre);
      ActKeepsInvariant(Interleave(pre), a);
      ActKeepsSane(Interleave(pre), a);
      if Committed(Interleave(pre), a).Some? {
        DoKeepsSound(Interleave(pre).world, Committed(Interleave(pre), a).value);
      }
    }
  }

  lemma {:induction false} ActKeepsSane(sys: System, a: Action)
    requires Sound(sys.world) && (a.BeginAdmission? ==> a.request.estimate >= 0.0)
    requires forall pod :: pod in sys.txs ==> SaneTx(sys.txs[pod])
    ensures forall pod :: pod in Act(sys, a).txs ==> SaneTx(Act(sys, a).txs[pod])
    ensures Committed(sys, a).Some? ==> SaneEffect(Committed(sys, a).value)
  {
    if a.SumExpired? {
      var rs := sys.world.db.reservations;
      forall i | 0 <= i < |a.groups|
        ensures SumsOf(rs, a.groups, a.now)[i].amount >= 0.0
      {
        HoldLaws.HeldBounds(rs, sys.world.db.budgets.Keys, a.groups[i], "", a.now);
      }
    }
  }

  /** The bound under every interleaving of pods and writers, stale reads and split cleanups
      included: it degrades by the estimates that were no longer held when they were used. */
  lemma {:induction false} ConcurrentOverspendIsBounded(actions: seq<Action>, b: Id)
    requires SaneRequests(actions) && PlayOnTerms(CommitLog(actions), b)
    requires forall i :: 0 <= i < |CommitLog(actions)| ==> CostsAtMostEstimate(CommitLog(actions)[i])
    requires b in Interleave(actions).world.db.budgets
    ensures var db, log := Interleave(actions).world.db, CommitLog(actions);
      && db.budgets[b].usage + HoldLaws.Held(db.reservations, b)
           <= db.budgets[b].amount + OpenAtReset(log, b) + Unbacked(log, b)
      && (PromptPlay(log, b) ==> Unbacked(log, b) == 0.0)
  {
    CommitsAreOrdered(actions);
    LogIsSane(actions);
    StaleReadsCostTheirEstimates(CommitLog(actions), b);
    if PromptPlay(CommitLog(actions), b) {
      PromptIsBacked(CommitLog(actions), b);
    }
  }
}
