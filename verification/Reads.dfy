/** What transactions under way have read, and when: the chain of a completion and the sums of a
cleanup are those of one moment of the interleaving. */
module Reads {
  import opened Model
  import opened Ledger
  import opened Effects
  import opened Concurrency
  import opened Filters
  import AdmissionOrder
  import HoldLaws
  import LedgerService
  import Overlaps
  import TableLaws

  // ---------- the chain ----------

  /** The rows are the budget and its ancestors as they were before action `n`, or nothing if the
      budget was gone. */
  ghost predicate ChainReadAt(actions: seq<Action>, n: nat, pod: Pod, id: Id, rows: seq<Budget>) {
    && n < |actions| && actions[n] == ReadChain(pod)
    && var t := Interleave(actions[..n]).world.db.budgets;
       if id in t then LedgerService.IsChain(t, id, rows) else rows == []
  }

  lemma ChainJustRead(sys: System, a: Action, pod: Pod)
    requires pod in Act(sys, a).txs && Act(sys, a).txs[pod].Completing? && Act(sys, a).txs[pod].chain.Some?
    requires !(pod in sys.txs && sys.txs[pod].Completing? && sys.txs[pod].chain.Some?)
    ensures a == ReadChain(pod) && pod in sys.txs && sys.txs[pod].Completing?
    ensures Act(sys, a).txs[pod].res == sys.txs[pod].res
    ensures LedgerService.AncestorRows(sys.world.db.budgets, sys.txs[pod].res.budgetId) == Act(sys, a).txs[pod].chain
  {}

  lemma ChainStays(sys: System, a: Action, pod: Pod)
    requires pod in sys.txs && sys.txs[pod].Completing? && sys.txs[pod].chain.Some?
    requires pod in Act(sys, a).txs
    ensures Act(sys, a).txs[pod] == sys.txs[pod]
  {}

  lemma {:induction false} RowsAreChain(sys: System, id: Id, rows: seq<Budget>)
    requires Sound(sys.world) && LedgerService.AncestorRows(sys.world.db.budgets, id) == Some(rows)
    ensures var t := sys.world.db.budgets; if id in t then LedgerService.IsChain(t, id, rows) else rows == []
  {
    if id in sys.world.db.budgets {
      LedgerService.AncestorRowsIff(sys.world.db.budgets, id, rows);
    }
  }

  lemma SanePrefix(actions: seq<Action>, n: nat)
    requires SaneRequests(actions) && n <= |actions|
    ensures SaneRequests(actions[..n])
  {}

  /** A completion charges the ancestors that its budget had at one moment after it read its
      reservation, along the parent column of that moment. */
  lemma {:induction false} ChainWasRead(actions: seq<Action>, pod: Pod) returns (n: nat)
    requires SaneRequests(actions) && pod in Interleave(actions).txs
    requires Interleave(actions).txs[pod].Completing? && Interleave(actions).txs[pod].chain.Some?
    ensures AdmissionOrder.Began(actions, pod) <= n
    ensures ChainReadAt(actions, n, pod, Interleave(actions).txs[pod].res.budgetId, Interleave(actions).txs[pod].chain.value)
  {
    assert actions != [];
    var pre, a := actions[..|actions| - 1], actions[|actions| - 1];
    AdmissionOrder.LastAction(actions);
    SanePrefix(actions, |pre|);
    var sys := Interleave(pre);
    if pod in sys.txs && sys.txs[pod].Completing? && sys.txs[pod].chain.Some? {
      ChainStays(sys, a, pod);
      AdmissionOrder.BeganBefore(actions, pod);
      hide Interleave, Act, LedgerService.IsChain;
      n := ChainWasRead(pre, pod);
      assert pre[..n] == actions[..n];
    } else {
      n := |pre|;
      ChainJustRead(sys, a, pod);
      AdmissionOrder.BeganBefore(actions, pod);
      LogIsSane(pre);
      hide Interleave, Act, Sound;
      RowsAreChain(sys, sys.txs[pod].res.budgetId, Interleave(actions).txs[pod].chain.value);
      assert actions[..n] == pre;
    }
  }

  // ---------- the sums ----------

  /** One sum for each budget with expired reservations: what live reservations there would fall
      by if they were deleted. */
  ghost predicate SumsEach(rs: seq<Reservation>, now: Instant, sums: seq<Due>) {
    && (forall k, l :: 0 <= k < l < |sums| ==> sums[k].id != sums[l].id)
    && (forall k :: 0 <= k < |sums| ==> exists j :: 0 <= j < |rs| && rs[j].budgetId == sums[k].id && rs[j].expiresAt <= now)
    && (forall j :: 0 <= j < |rs| && rs[j].expiresAt <= now ==> exists k :: 0 <= k < |sums| && sums[k].id == rs[j].budgetId)
    && forall k :: 0 <= k < |sums| ==>
         sums[k].amount == HoldLaws.Held(rs, sums[k].id) - HoldLaws.Held(Filter(rs, (x: Reservation) => x.expiresAt > now), sums[k].id)
  }

  lemma {:induction false} GroupsAreSums(rs: seq<Reservation>, groups: seq<Id>, now: Instant)
    requires AreGroups(rs, groups, now)
    ensures SumsEach(rs, now, SumsOf(rs, groups, now))
  {
    var sums := SumsOf(rs, groups, now);
    TableLaws.UnexpiredIs(rs, now);
    forall k | 0 <= k < |sums|
      ensures sums[k].amount == HoldLaws.Held(rs, sums[k].id) - HoldLaws.Held(Unexpired(rs, now), sums[k].id)
    {
      HoldLaws.HeldUnexpired(rs, sums[k].id, now);
    }
    GroupsCoverExpired(rs, groups, now);
    hide HoldLaws.Held, Unexpired, ExpiredOn, AreGroups;
    assert forall k :: 0 <= k < |sums| ==> sums[k].id == groups[k];
    forall j | 0 <= j < |rs| && rs[j].expiresAt <= now
      ensures exists k :: 0 <= k < |sums| && sums[k].id == rs[j].budgetId
    {
      var k :| 0 <= k < |groups| && groups[k] == rs[j].budgetId;
      assert sums[k].id == rs[j].budgetId;
    }
  }

  lemma {:induction false} GroupsCoverExpired(rs: seq<Reservation>, groups: seq<Id>, now: Instant)
    requires AreGroups(rs, groups, now)
    ensures forall k :: 0 <= k < |groups| ==> HasExpired(rs, groups[k], now)
    ensures forall j :: 0 <= j < |rs| && rs[j].expiresAt <= now ==> exists k :: 0 <= k < |groups| && groups[k] == rs[j].budgetId
    ensures forall k, l :: 0 <= k < l < |groups| ==> groups[k] != groups[l]
  {
    forall k | 0 <= k < |groups|
      ensures HasExpired(rs, groups[k], now)
    {
      assert groups[k] in groups;
    }
    forall j | 0 <= j < |rs| && rs[j].expiresAt <= now
      ensures exists k :: 0 <= k < |groups| && groups[k] == rs[j].budgetId
    {
      assert HasExpired(rs, rs[j].budgetId, now);
      assert rs[j].budgetId in groups;
    }
  }

  lemma JustSummed(sys: System, a: Action, pod: Pod)
    requires pod in Act(sys, a).txs && Act(sys, a).txs[pod].Cleaning?
    ensures if pod in sys.txs then Act(sys, a).txs[pod] == sys.txs[pod]
      else a.SumExpired? && a.pod == pod && AreGroups(sys.world.db.reservations, a.groups, a.now)
           && Act(sys, a).txs[pod].sums == SumsOf(sys.world.db.reservations, a.groups, a.now)
  {}

  /** A cleanup deletes and releases with the sums of the moment it began. */
  lemma {:induction false} SumsWereRead(actions: seq<Action>, pod: Pod) returns (n: nat, now: Instant)
    requires pod in Interleave(actions).txs && Interleave(actions).txs[pod].Cleaning?
    ensures n == AdmissionOrder.Began(actions, pod) - 1 && n < |actions|
    ensures SumsEach(Interleave(actions[..n]).world.db.reservations, now, Interleave(actions).txs[pod].sums)
  {
    assert actions != [];
    var pre, a := actions[..|actions| - 1], actions[|actions| - 1];
    AdmissionOrder.LastAction(actions);
    JustSummed(Interleave(pre), a, pod);
    if pod in Interleave(pre).txs {
      AdmissionOrder.BeganBefore(actions, pod);
      hide Interleave, Act, SumsEach;
      n, now := SumsWereRead(pre, pod);
      assert pre[..n] == actions[..n];
    } else {
      n, now := |pre|, a.now;
      assert actions[..n] == pre;
      GroupsAreSums(Interleave(pre).world.db.reservations, a.groups, now);
    }
  }

  // ---------- what is committed ----------

  lemma CallIsKept(sys: System, a: Action, pod: Pod)
    requires pod in Act(sys, a).txs
    ensures var tx := Act(sys, a).txs[pod];
      if pod in sys.txs then
        match tx
        case Completing(res, cost, limitedAt, _) =>
          sys.txs[pod].Completing? && sys.txs[pod].res == res && sys.txs[pod].cost == cost && sys.txs[pod].limitedAt == limitedAt
        case Admitting(request, rows, _, _) =>
          sys.txs[pod].Admitting? && sys.txs[pod].request == request && sys.txs[pod].rows == rows
        case Writing(step) => sys.txs[pod] == tx
        case Cleaning(_) => sys.txs[pod] == tx
      else
        match tx
        case Completing(res, cost, limitedAt, _) => a == ReadReservation(pod, res.requestId, cost, limitedAt)
        case Admitting(request, rows, _, _) => a == BeginAdmission(pod, request, rows)
        case Writing(step) => a == BeginWriter(pod, step)
        case Cleaning(_) => a.SumExpired? && a.pod == pod
  {}

  /** What a transaction was asked to do when it began. */
  ghost predicate BeganWith(actions: seq<Action>, n: nat, pod: Pod, tx: Tx) {
    n < |actions| &&
    match tx
    case Completing(res, cost, limitedAt, _) => actions[n] == ReadReservation(pod, res.requestId, cost, limitedAt)
    case Admitting(request, rows, _, _) => actions[n] == BeginAdmission(pod, request, rows)
    case Writing(step) => actions[n] == BeginWriter(pod, step)
    case Cleaning(_) => actions[n].SumExpired? && actions[n].pod == pod
  }

  /** Every transaction under way still has the arguments it began with. */
  lemma {:induction false} ArgumentsAreKept(actions: seq<Action>, pod: Pod)
    requires pod in Interleave(actions).txs
    ensures AdmissionOrder.Began(actions, pod) > 0
    ensures BeganWith(actions, AdmissionOrder.Began(actions, pod) - 1, pod, Interleave(actions).txs[pod])
  {
    assert actions != [];
    var pre, a := actions[..|actions| - 1], actions[|actions| - 1];
    AdmissionOrder.LastAction(actions);
    CallIsKept(Interleave(pre), a, pod);
    if pod in Interleave(pre).txs {
      AdmissionOrder.BeganBefore(actions, pod);
      hide Interleave, Act;
      ArgumentsAreKept(pre, pod);
    }
  }

  /** What a completion commits: the call's own cost, the reservation that was the oldest of the
      request when the call was made, and the chain of one moment in between. */
  lemma {:induction false} CompletionUsesItsReads(actions: seq<Action>, i: nat) returns (n: nat, m: nat)
    requires SaneRequests(actions) && i < |actions| && actions[i].CommitCharge?
    requires Committed(Interleave(actions[..i]), actions[i]).Some?
    ensures var e, pod := Committed(Interleave(actions[..i]), actions[i]).value, actions[i].pod;
      && n < m < i && e.Completion?
      && actions[n] == ReadReservation(pod, e.res.requestId, e.cost, e.limitedAt)
      && (exists k: nat :: LedgerService.IsOldest(Interleave(actions[..n]).world.db.reservations, e.res.requestId, k)
                      && Interleave(actions[..n]).world.db.reservations[k] == e.res)
      && ChainReadAt(actions[..i], m, pod, e.res.budgetId, e.chain)
  {
    var pod, pre := actions[i].pod, actions[..i];
    var tx := Interleave(pre).txs[pod];
    SanePrefix(actions, i);
    ArgumentsAreKept(pre, pod);
    Overlaps.CompletionHasRead(pre, pod);
    m := ChainWasRead(pre, pod);
    n := AdmissionOrder.Began(pre, pod) - 1;
    assert pre[..n] == actions[..n];
    SanePrefix(actions, n);
    LogIsSane(actions[..n]);
    hide Interleave, ChainReadAt, Sound;
    var k := OldestAt(Interleave(actions[..n]).world, tx.res);
  }

  lemma {:induction false} OldestAt(w: World, res: Reservation) returns (k: nat)
    requires Sound(w) && First(w.db.reservations, res.requestId) == Some(res)
    ensures LedgerService.IsOldest(w.db.reservations, res.requestId, k) && w.db.reservations[k] == res
  {
    k := LedgerService.FirstIsOldest(w.db, res.requestId);
  }

  /** What an admission commits: the call's own request, over rows of its own query. */
  lemma {:induction false} AdmissionUsesItsQuery(actions: seq<Action>, i: nat) returns (n: nat)
    requires i < |actions| && actions[i].CommitAdmission?
    requires Committed(Interleave(actions[..i]), actions[i]).Some?
    ensures var e := Committed(Interleave(actions[..i]), actions[i]).value;
      && n < i && actions[n].BeginAdmission? && actions[n].pod == actions[i].pod
      && var r := actions[n].request;
         e.Whole? && e.step.Reserve? && e.step == Reserve(r.id, e.step.rows, r.matches, r.estimate, r.expiresAt)
         && forall k, l :: 0 <= k < l < |e.step.rows| ==> Precedes(actions[n].rows, e.step.rows[k], e.step.rows[l])
  {
    var pod, pre := actions[i].pod, actions[..i];
    var tx := Interleave(pre).txs[pod];
    ArgumentsAreKept(pre, pod);
    n := AdmissionOrder.Began(pre, pod) - 1;
    AdmissionOrder.RunKeepsOrder(pre);
    assert AdmissionOrder.InQueryOrder(tx);
    var ids := IdSeq(tx.held);
    assert ids + tx.todo == ids;
    KeepIs(tx.rows, SetOf(ids));
    forall k, l | 0 <= k < l < |ids|
      ensures Precedes(tx.rows, ids[k], ids[l])
    {
      FilterKeepsOrder(tx.rows, (x: Id) => x in SetOf(ids), k, l);
    }
  }

  lemma {:induction false} KeepIs(rows: seq<Id>, ids: set<Id>)
    ensures AdmissionOrder.Keep(rows, ids) == Filter(rows, (x: Id) => x in ids)
  {
    if rows != [] {
      KeepIs(rows[1..], ids);
    }
  }

  /** What a cleanup deletes by: its own reading of the clock, and the sums it began with. */
  lemma {:induction false} CleanupUsesItsSums(actions: seq<Action>, i: nat) returns (n: nat, summed: Instant)
    requires i < |actions| && actions[i].DeleteExpired?
    requires Committed(Interleave(actions[..i]), actions[i]).Some?
    ensures var e := Committed(Interleave(actions[..i]), actions[i]).value;
      && n < i && actions[n].SumExpired? && actions[n].pod == actions[i].pod
      && e.Purge? && e.now == actions[i].now
      && SumsEach(Interleave(actions[..n]).world.db.reservations, summed, e.sums)
  {
    var pod, pre := actions[i].pod, actions[..i];
    ArgumentsAreKept(pre, pod);
    n, summed := SumsWereRead(pre, pod);
    assert pre[..n] == actions[..n];
  }
}
