/** The overspend bound from facts that the callers of the service can see to: match expressions
that take in the ancestors, costs within their estimates, current chains, and a hierarchy that
is not rearranged. */
module Callers {
  import opened Model
  import opened Ledger
  import opened HoldLaws
  import opened SpendLaws
  import opened Forest
  import LedgerService

  /** Whoever is matched is matched together with its parent. */
  ghost predicate MatchesUpward(bs: seq<Budget>) {
    forall c :: c in bs && c.parent.Some? ==> c.parent.value in IdsOf(bs)
  }

  ghost predicate CallerKeeps(db: Db, s: Step) {
    match s
    case Reserve(_, rows, matches, _, _) => MatchesUpward(Candidates(db.budgets, rows, matches))
    case Complete(r, cost, chain, _) =>
      First(db.reservations, r).Some? ==>
        var res := First(db.reservations, r).value;
        LedgerService.AncestorRows(db.budgets, res.budgetId) == Some(chain) && cost <= res.estimate
    case Configure(id, c) => id in db.budgets ==> c.parent == db.budgets[id].parent
    case _ => true
  }

  /** Wherever a request holds something, it holds the same on the parent. */
  ghost predicate HeldUpward(db: Db) {
    forall x :: x in db.reservations && x.budgetId in db.budgets && db.budgets[x.budgetId].parent.Some? ==>
      x.(budgetId := db.budgets[x.budgetId].parent.value) in db.reservations
  }

  lemma {:induction false} ReserveHoldsUpward(db: Db, s: Step)
    requires Consistent(db) && HeldUpward(db) && s.Reserve? && CallerKeeps(db, s)
    ensures HeldUpward(Apply(db, s))
  {
    var bs := Candidates(db.budgets, s.rows, s.matches);
    CandidatesMembers(db.budgets, s.rows, s.matches);
    var added := NewReservations(bs, s.requestId, s.estimate, s.expiresAt);
    hide Candidates;
    if Apply(db, s) != db {
      forall x | x in added && x.budgetId in db.budgets && db.budgets[x.budgetId].parent.Some?
        ensures x.(budgetId := db.budgets[x.budgetId].parent.value) in added
      {
        var k :| 0 <= k < |added| && added[k] == x;
        assert bs[k] in bs;
        var j :| 0 <= j < |bs| && bs[j].id == bs[k].parent.value;
        assert added[j] == x.(budgetId := bs[j].id);
      }
      var all := db.reservations + added;
      assert forall x :: x in all <==> x in db.reservations || x in added;
    }
  }

  lemma {:induction false} StepHoldsUpward(db: Db, s: Step)
    requires Consistent(db) && HeldUpward(db) && CallerKeeps(db, s)
    ensures HeldUpward(Apply(db, s))
  {
    match s
    case Reserve(_, _, _, _, _) => ReserveHoldsUpward(db, s);
    case Complete(r, _, _, _) => WithoutMembers(db.reservations, r);
    case Cleanup(now) => UnexpiredMembers(db.reservations, now);
    case Delete(ids) => DeleteHoldsUpward(db, ids);
    case Create(b) =>
      forall x | x in db.reservations
        ensures x.budgetId in db.budgets
      {
        var i :| 0 <= i < |db.reservations| && db.reservations[i] == x;
      }
    case _ =>
  }

  lemma {:induction false} DeleteHoldsUpward(db: Db, ids: set<Id>)
    requires Consistent(db) && HeldUpward(db)
    ensures HeldUpward(Apply(db, Delete(ids)))
  {
    var kept := db.budgets - ids;
    ReservationsOfMembers(db.reservations, kept.Keys);
    if NoDangling(kept) {
      forall x | x in db.reservations && x.budgetId in kept && kept[x.budgetId].parent.Some?
        ensures kept[x.budgetId].parent.value in kept
      {
        assert ParentExists(kept, kept[x.budgetId].parent);
      }
    }
  }

  /** What is held on the oldest reservation's budget is held on all its ancestors. */
  lemma {:induction false} HeldOnAncestors(db: Db, res: Reservation, n: nat)
    requires HeldUpward(db) && res in db.reservations && Keyed(db.budgets)
    requires Up(LedgerService.ParentsOf(db.budgets), res.budgetId, n).Some?
    ensures res.(budgetId := Up(LedgerService.ParentsOf(db.budgets), res.budgetId, n).value) in db.reservations
    decreases n
  {
    var p := LedgerService.ParentsOf(db.budgets);
    if n > 0 {
      UpStops(p, res.budgetId, n - 1, n);
      HeldOnAncestors(db, res, n - 1);
      UpCompose(p, res.budgetId, n - 1, 1);
      var y := Up(p, res.budgetId, n - 1).value;
      assert Up(p, y, 1) == if y in p then Up(p, p[y], 0) else None;
      var x := res.(budgetId := y);
      assert x.(budgetId := p[y]) == res.(budgetId := p[y]);
    } else {
      assert res.(budgetId := res.budgetId) == res;
    }
  }

  lemma {:induction false} RowIsHeld(rs: seq<Reservation>, ids: set<Id>, x: Reservation)
    requires RowsIn(rs, ids) && x in rs
    ensures x.estimate <= HeldBy(rs, x.budgetId, x.requestId)
  {
    HeldBounds(rs[1..], ids, x.budgetId, x.requestId, 0);
    if rs[0] != x {
      RowIsHeld(rs[1..], ids, x);
    }
  }

  lemma {:induction false} ChainIsHeld(db: Db, s: Step, b: Id)
    requires Consistent(db) && HeldUpward(db) && s.Complete? && CallerKeeps(db, s)
    requires First(db.reservations, s.requestId).Some? && b in IdsOf(s.chain)
    ensures s.cost <= HeldBy(db.reservations, b, s.requestId)
  {
    var res := First(db.reservations, s.requestId).value;
    var p := LedgerService.ParentsOf(db.budgets);
    var k :| 0 <= k < |s.chain| && s.chain[k].id == b;
    if res.budgetId in db.budgets {
      WalkIsAncestorPath(p, res.budgetId);
      var path := Walk(p, res.budgetId, {}).value;
      LedgerService.RowsAtDistinct(db.budgets, path);
      assert s.chain[k] in s.chain;
      var n :| 0 <= n < |path| && path[n] == b;
      HeldOnAncestors(db, res, n);
      RowIsHeld(db.reservations, db.budgets.Keys, res.(budgetId := b));
    }
  }

  ghost predicate CallerRun(steps: seq<Step>, b: Id) {
    forall i :: 0 <= i < |steps| ==> CallerKeeps(Run(steps[..i]), steps[i]) && KeepsTerms(Run(steps[..i]), steps[i], b)
  }

  lemma {:induction false} RunHoldsUpward(steps: seq<Step>, n: nat, b: Id)
    requires SaneRun(steps) && CallerRun(steps, b) && n <= |steps|
    ensures Consistent(Run(steps[..n])) && HeldUpward(Run(steps[..n]))
  {
    ReachableIsConsistent(steps[..n]);
    if n > 0 {
      RunHoldsUpward(steps, n - 1, b);
      assert steps[..n][..n - 1] == steps[..n - 1];
      StepHoldsUpward(Run(steps[..n - 1]), steps[n - 1]);
    }
  }

  /** If the callers keep to this, no completion charges more than what is held. */
  lemma {:induction false} CallersAreGuarded(steps: seq<Step>, b: Id)
    requires SaneRun(steps) && CallerRun(steps, b)
    ensures GuardedRun(steps, b)
  {
    forall i | 0 <= i < |steps|
      ensures Guarded(Run(steps[..i]), steps[i], b)
    {
      var db, s := Run(steps[..i]), steps[i];
      RunHoldsUpward(steps, i, b);
      assert KeepsTerms(db, s, b) && CallerKeeps(db, s);
      if s.Complete? && b in IdsOf(s.chain) && First(db.reservations, s.requestId).Some? {
        ChainIsHeld(db, s, b);
      }
    }
  }

  /** The overspend bound for such callers. */
  lemma {:induction false} CallersStayWithinLimit(steps: seq<Step>, b: Id)
    requires SaneRun(steps) && CallerRun(steps, b) && b in Run(steps).budgets
    ensures var db := Run(steps);
      db.budgets[b].usage + Held(db.reservations, b) <= db.budgets[b].amount + LiveAtReset(steps, b)
  {
    CallersAreGuarded(steps, b);
    OverspendIsBounded(steps, b);
  }
}
