/** Laws of `pending_usage_usd`: how the holds on a budget relate to its live reservations over
whole runs. */
module HoldLaws {
  import opened Model
  import opened Ledger
  import HierarchySort

  /** Sum of the live reservations on a budget. */
  ghost function Held(rs: seq<Reservation>, b: Id): Money {
    if rs == [] then 0.0
    else (if rs[0].budgetId == b then rs[0].estimate else 0.0) + Held(rs[1..], b)
  }

  /** The part of it that belongs to one request. */
  ghost function HeldBy(rs: seq<Reservation>, b: Id, r: RequestId): Money {
    if rs == [] then 0.0
    else (if rs[0].budgetId == b && rs[0].requestId == r then rs[0].estimate else 0.0) + HeldBy(rs[1..], b, r)
  }

  lemma {:induction false} HeldAppend(rs: seq<Reservation>, ss: seq<Reservation>, b: Id)
    ensures Held(rs + ss, b) == Held(rs, b) + Held(ss, b)
  {
    if rs == [] {
      assert rs + ss == ss;
    } else {
      assert (rs + ss)[1..] == rs[1..] + ss;
      HeldAppend(rs[1..], ss, b);
    }
  }

  lemma {:induction false} HeldByNew(bs: seq<Budget>, r: RequestId, estimate: Money, expiresAt: Instant, b: Id)
    requires DistinctIds(bs)
    ensures Held(NewReservations(bs, r, estimate, expiresAt), b) == if b in IdsOf(bs) then estimate else 0.0
  {
    if bs != [] {
      HeldByNew(bs[1..], r, estimate, expiresAt, b);
      assert NewReservations(bs, r, estimate, expiresAt)[1..] == NewReservations(bs[1..], r, estimate, expiresAt);
      assert IdsOf(bs) == {bs[0].id} + IdsOf(bs[1..]) by {
        assert bs == [bs[0]] + bs[1..];
        forall i | i in IdsOf(bs) ensures i in {bs[0].id} + IdsOf(bs[1..]) {
          var j :| 0 <= j < |bs| && bs[j].id == i;
          if j > 0 { assert bs[1..][j - 1].id == i; }
        }
        forall i | i in IdsOf(bs[1..]) ensures i in IdsOf(bs) {
          var j :| 0 <= j < |bs[1..]| && bs[1..][j].id == i;
          assert bs[j + 1].id == i;
        }
      }
    }
  }

  lemma {:induction false} HeldWithout(rs: seq<Reservation>, b: Id, r: RequestId)
    ensures Held(Without(rs, r), b) == Held(rs, b) - HeldBy(rs, b, r)
  {
    if rs != [] {
      HeldWithout(rs[1..], b, r);
    }
  }

  lemma {:induction false} HeldUnexpired(rs: seq<Reservation>, b: Id, now: Instant)
    ensures Held(Unexpired(rs, now), b) == Held(rs, b) - ExpiredOn(rs, b, now)
    ensures !HasExpired(rs, b, now) ==> ExpiredOn(rs, b, now) == 0.0
  {
    if rs != [] {
      HeldUnexpired(rs[1..], b, now);
      if HasExpired(rs[1..], b, now) {
        var i :| 0 <= i < |rs[1..]| && rs[1..][i].budgetId == b && rs[1..][i].expiresAt <= now;
        assert rs[i + 1].budgetId == b && rs[i + 1].expiresAt <= now;
      }
    }
  }

  lemma {:induction false} HeldAfterDelete(rs: seq<Reservation>, b: Id, kept: set<Id>)
    requires b in kept
    ensures Held(ReservationsOf(rs, kept), b) == Held(rs, b)
  {
    if rs != [] {
      HeldAfterDelete(rs[1..], b, kept);
    }
  }

  lemma {:induction false} HeldBounds(rs: seq<Reservation>, ids: set<Id>, b: Id, r: RequestId, now: Instant)
    requires RowsIn(rs, ids)
    ensures 0.0 <= HeldBy(rs, b, r) <= Held(rs, b)
    ensures 0.0 <= ExpiredOn(rs, b, now) <= Held(rs, b)
    ensures b !in ids ==> Held(rs, b) == 0.0
  {
    if rs != [] {
      HeldBounds(rs[1..], ids, b, r, now);
    }
  }

  /** The oldest row of a request is its only row on that budget. */
  lemma {:induction false} FirstHolds(rs: seq<Reservation>, r: RequestId)
    requires UniqueRows(rs) && First(rs, r).Some?
    ensures HeldBy(rs, First(rs, r).value.budgetId, r) == First(rs, r).value.estimate
  {
    var f := First(rs, r).value;
    if rs[0].requestId == r {
      NoOtherRow(rs[1..], f.budgetId, r);
    } else {
      FirstHolds(rs[1..], r);
    }
  }

  lemma {:induction false} NoOtherRow(rs: seq<Reservation>, b: Id, r: RequestId)
    requires forall i :: 0 <= i < |rs| ==> rs[i].requestId != r || rs[i].budgetId != b
    ensures HeldBy(rs, b, r) == 0.0
  {
    if rs != [] {
      NoOtherRow(rs[1..], b, r);
    }
  }

  // ---------- history functions ----------

  /** What a completion takes off the live reservations of `b` without lowering its pending
      amount: DecrementBudgets deletes every row of the request but releases the hold of the
      oldest row's budget only. */
  ghost function LeakOf(db: Db, s: Step, b: Id): Money {
    if s.Complete? && First(db.reservations, s.requestId).Some?
       && First(db.reservations, s.requestId).value.budgetId != b
    then Held(db.reservations, b) - Held(Apply(db, s).reservations, b)
    else 0.0
  }

  /** Holds leaked on `b` since it was created or last reset. */
  ghost function Leaked(steps: seq<Step>, b: Id): Money {
    if steps == [] then 0.0
    else
      var db, s := Run(steps[..|steps| - 1]), steps[|steps| - 1];
      if b !in db.budgets || s == Reset(b) then 0.0
      else Leaked(steps[..|steps| - 1], b) + LeakOf(db, s, b)
  }

  /** Sum of the reservations that were live on `b` when it was last reset. */
  ghost function LiveAtReset(steps: seq<Step>, b: Id): Money {
    if steps == [] then 0.0
    else
      var db, s := Run(steps[..|steps| - 1]), steps[|steps| - 1];
      if b !in db.budgets then 0.0
      else if s == Reset(b) then Held(db.reservations, b)
      else LiveAtReset(steps[..|steps| - 1], b)
  }

  // ---------- one step ----------

  /** How one step changes the pending amount of `b` and its live reservations. */
  ghost predicate HoldStep(db: Db, s: Step, b: Id)
    requires b in db.budgets && b in Apply(db, s).budgets
  {
    var after := Apply(db, s);
    var pending, pending' := db.budgets[b].pending, after.budgets[b].pending;
    var held, held' := Held(db.reservations, b), Held(after.reservations, b);
    if s == Reset(b) then pending' == 0.0 && held' == held
    else
      || (held' >= held && pending' - pending == held' - held)
      || (held' <= held && LeakOf(db, s, b) == held - held' && pending' == pending)
      || (held' <= held && LeakOf(db, s, b) == 0.0 && pending' == Max(0.0, pending - (held - held')))
  }

  lemma {:induction false} ReserveHolds(db: Db, s: Step, b: Id)
    requires Consistent(db) && Sane(s) && s.Reserve? && b in db.budgets
    ensures b in Apply(db, s).budgets && HoldStep(db, s, b)
  {
    var bs := Candidates(db.budgets, s.rows, s.matches);
    CandidatesMembers(db.budgets, s.rows, s.matches);
    HeldByNew(bs, s.requestId, s.estimate, s.expiresAt, b);
    HeldAppend(db.reservations, NewReservations(bs, s.requestId, s.estimate, s.expiresAt), b);
  }

  lemma {:induction false} CompleteHolds(db: Db, s: Step, b: Id)
    requires Consistent(db) && s.Complete? && b in db.budgets
    ensures b in Apply(db, s).budgets && HoldStep(db, s, b)
  {
    HeldWithout(db.reservations, b, s.requestId);
    HeldBounds(db.reservations, db.budgets.Keys, b, s.requestId, 0);
    if First(db.reservations, s.requestId).Some? {
      FirstHolds(db.reservations, s.requestId);
    }
  }

  lemma {:induction false} StepHolds(db: Db, s: Step, b: Id)
    requires Consistent(db) && Sane(s)
    requires b in db.budgets && b in Apply(db, s).budgets
    ensures HoldStep(db, s, b)
  {
    match s
    case Reserve(_, _, _, _, _) => ReserveHolds(db, s, b);
    case Complete(_, _, _, _) => CompleteHolds(db, s, b);
    case Cleanup(now) =>
      HeldUnexpired(db.reservations, b, now);
      HeldBounds(db.reservations, db.budgets.Keys, b, "", now);
    case Reset(id) =>
    case Create(x) =>
    case Configure(id, c) =>
    case SetStatus(id, status) =>
    case Delete(ids) =>
      if Apply(db, s) != db {
        HeldAfterDelete(db.reservations, b, Apply(db, s).budgets.Keys);
      }
  }

  /** A budget that a step creates has no holds and no reservations. */
  lemma {:induction false} NewBudgetHoldsNothing(db: Db, s: Step, b: Id)
    requires Consistent(db) && Sane(s) && b !in db.budgets && b in Apply(db, s).budgets
    ensures s.Create? && s.budget.id == b
    ensures Apply(db, s).budgets[b] == s.budget.(usage := 0.0, pending := 0.0)
    ensures Held(Apply(db, s).reservations, b) == 0.0
  {
    HeldBounds(db.reservations, db.budgets.Keys, b, "", 0);
  }

  // ---------- whole runs ----------

  ghost predicate NoReset(steps: seq<Step>, b: Id) {
    forall i :: 0 <= i < |steps| ==> steps[i] != Reset(b)
  }

  /** Conservation of holds: without resets the pending amount is exactly the live
      reservations plus the leaked holds. */
  lemma {:induction false} HoldsAreConserved(steps: seq<Step>, b: Id)
    requires SaneRun(steps) && NoReset(steps, b) && b in Run(steps).budgets
    ensures Run(steps).budgets[b].pending == Held(Run(steps).reservations, b) + Leaked(steps, b)
    ensures Leaked(steps, b) >= 0.0
  {
    var pre, s := steps[..|steps| - 1], steps[|steps| - 1];
    ReachableIsConsistent(pre);
    if b in Run(pre).budgets {
      HoldsAreConserved(pre, b);
      StepHolds(Run(pre), s, b);
      ReachableIsConsistent(steps);
      HeldBounds(Run(steps).reservations, Run(steps).budgets.Keys, b, "", 0);
    } else {
      NewBudgetHoldsNothing(Run(pre), s, b);
    }
  }

  /** No completion of the run leaked a hold on `b` since it was created. */
  ghost predicate NothingLeaked(steps: seq<Step>, b: Id) {
    steps != [] && b in Run(steps[..|steps| - 1]).budgets ==>
      && NothingLeaked(steps[..|steps| - 1], b)
      && !LeaksOn(Run(steps[..|steps| - 1]), steps[|steps| - 1], b)
  }

  /** The completion releases another budget's hold while its request holds something on `b`. */
  ghost predicate LeaksOn(db: Db, s: Step, b: Id) {
    && s.Complete? && First(db.reservations, s.requestId).Some?
    && First(db.reservations, s.requestId).value.budgetId != b
    && IdsOf(HierarchySort.Sorted(s.chain)) <= db.budgets.Keys
    && HeldBy(db.reservations, b, s.requestId) != 0.0
  }

  lemma {:induction false} LeakOfIs(db: Db, s: Step, b: Id)
    requires Consistent(db)
    ensures LeakOf(db, s, b) >= 0.0
    ensures LeakOf(db, s, b) == 0.0 <==> !LeaksOn(db, s, b)
  {
    if s.Complete? {
      HeldWithout(db.reservations, b, s.requestId);
      HeldBounds(db.reservations, db.budgets.Keys, b, s.requestId, 0);
    }
  }

  lemma {:induction false} LeakedIsPositive(steps: seq<Step>, b: Id)
    requires SaneRun(steps)
    ensures Leaked(steps, b) >= 0.0
    ensures NoReset(steps, b) ==> (Leaked(steps, b) == 0.0 <==> NothingLeaked(steps, b))
  {
    if steps != [] {
      var pre := steps[..|steps| - 1];
      LeakedIsPositive(pre, b);
      ReachableIsConsistent(pre);
      LeakOfIs(Run(pre), steps[|steps| - 1], b);
    }
  }

  /** The design notes define pending as the sum of the active reservations. Without resets that
      holds iff no completion ever leaked a hold on the budget. */
  lemma PendingIsSumIff(steps: seq<Step>, b: Id)
    requires SaneRun(steps) && NoReset(steps, b) && b in Run(steps).budgets
    ensures Run(steps).budgets[b].pending == Held(Run(steps).reservations, b) <==> NothingLeaked(steps, b)
  {
    HoldsAreConserved(steps, b);
    LeakedIsPositive(steps, b);
  }

  /** Without resets GREATEST(0, ..) never has to cut anything off. */
  lemma {:induction false} ClampNeverFires(steps: seq<Step>, b: Id, r: RequestId, now: Instant)
    requires SaneRun(steps) && NoReset(steps, b) && b in Run(steps).budgets
    ensures var db := Run(steps);
      && ExpiredOn(db.reservations, b, now) <= db.budgets[b].pending
      && (First(db.reservations, r).Some? && First(db.reservations, r).value.budgetId == b
          ==> First(db.reservations, r).value.estimate <= db.budgets[b].pending)
  {
    var db := Run(steps);
    HoldsAreConserved(steps, b);
    ReachableIsConsistent(steps);
    HeldBounds(db.reservations, db.budgets.Keys, b, r, now);
    if First(db.reservations, r).Some? {
      FirstHolds(db.reservations, r);
    }
  }

  /** With resets the equality becomes two bounds: a stale reservation can release a hold that
      its budget's reset had already dropped. */
  lemma {:induction false} HoldsAreBounded(steps: seq<Step>, b: Id)
    requires SaneRun(steps) && b in Run(steps).budgets
    ensures var db := Run(steps);
      && 0.0 <= db.budgets[b].pending
      && Held(db.reservations, b) - LiveAtReset(steps, b) <= db.budgets[b].pending
      && db.budgets[b].pending <= Held(db.reservations, b) + Leaked(steps, b)
      && 0.0 <= Leaked(steps, b) && 0.0 <= LiveAtReset(steps, b)
  {
    var pre, s := steps[..|steps| - 1], steps[|steps| - 1];
    ReachableIsConsistent(pre);
    ReachableIsConsistent(steps);
    HeldBounds(Run(steps).reservations, Run(steps).budgets.Keys, b, "", 0);
    if b in Run(pre).budgets {
      HoldsAreBounded(pre, b);
      StepHolds(Run(pre), s, b);
    } else {
      NewBudgetHoldsNothing(Run(pre), s, b);
    }
  }

  /** Step by step: from a state where pending is the sum of the live reservations, exactly two
      kinds of step break it. A completion does when the request holds something on `b` and
      its oldest row is on another budget; a reset does when anything is live. */
  lemma {:induction false} SumSurvivesIff(db: Db, s: Step, b: Id)
    requires Consistent(db) && Sane(s)
    requires b in db.budgets && b in Apply(db, s).budgets
    requires db.budgets[b].pending == Held(db.reservations, b)
    ensures Apply(db, s).budgets[b].pending == Held(Apply(db, s).reservations, b) <==>
      && (s == Reset(b) ==> Held(db.reservations, b) == 0.0)
      && (s.Complete? && First(db.reservations, s.requestId).Some?
          && IdsOf(HierarchySort.Sorted(s.chain)) <= db.budgets.Keys
          && First(db.reservations, s.requestId).value.budgetId != b
          ==> HeldBy(db.reservations, b, s.requestId) == 0.0)
  {
    StepHolds(db, s, b);
    if s.Complete? {
      HeldWithout(db.reservations, b, s.requestId);
      HeldBounds(db.reservations, db.budgets.Keys, b, s.requestId, 0);
    }
    StepKeepsConsistent(db, s);
    HeldBounds(db.reservations, db.budgets.Keys, b, "", 0);
    HeldBounds(Apply(db, s).reservations, Apply(db, s).budgets.Keys, b, "", 0);
  }
}
