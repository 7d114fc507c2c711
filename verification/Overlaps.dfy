/** How often a request is charged when completions overlap. DecrementBudgets reads the request's
reservation before its transaction, so a second completion can read it before the first one has
deleted it. */
module Overlaps {
  import opened Model
  import opened Ledger
  import opened Effects
  import opened Concurrency
  import AdmissionOrder
  import HierarchySort
  import RequestLaws

  // ---------- every sequence of effects ----------

  /** The effect charges the request: a completion that is not rolled back. */
  ghost predicate ChargesRequest(w: World, e: Effect, r: RequestId) {
    match e
    case Whole(s) => RequestLaws.Charges(w.db, s, r)
    case Completion(res, _, chain, _) =>
      res.requestId == r && IdsOf(HierarchySort.Sorted(chain)) <= w.db.budgets.Keys
    case _ => false
  }

  ghost predicate HasRows(w: World, r: RequestId) {
    RequestLaws.RowsFor(w.db.reservations, r) != []
  }

  /** It does so although the request has no reservation left. */
  ghost predicate ChargesAgain(w: World, e: Effect, r: RequestId) {
    ChargesRequest(w, e, r) && !HasRows(w, r)
  }

  ghost predicate AdmitsRequest(w: World, e: Effect, r: RequestId) {
    e.Whole? && RequestLaws.Inserted(w.db, e.step, r) != []
  }

  ghost function Charges(effects: seq<Effect>, r: RequestId): nat {
    if effects == [] then 0
    else Charges(effects[..|effects| - 1], r)
         + if ChargesRequest(Play(effects[..|effects| - 1]), effects[|effects| - 1], r) then 1 else 0
  }

  ghost function Repeats(effects: seq<Effect>, r: RequestId): nat {
    if effects == [] then 0
    else Repeats(effects[..|effects| - 1], r)
         + if ChargesAgain(Play(effects[..|effects| - 1]), effects[|effects| - 1], r) then 1 else 0
  }

  ghost function Admissions(effects: seq<Effect>, r: RequestId): nat {
    if effects == [] then 0
    else Admissions(effects[..|effects| - 1], r)
         + if AdmitsRequest(Play(effects[..|effects| - 1]), effects[|effects| - 1], r) then 1 else 0
  }

  /** Only an admission gives a request rows, and a charge leaves it none. */
  lemma {:induction false} EffectRows(w: World, e: Effect, r: RequestId)
    ensures HasRows(Do(w, e), r) ==> HasRows(w, r) || AdmitsRequest(w, e, r)
    ensures ChargesRequest(w, e, r) ==> !HasRows(Do(w, e), r) && !AdmitsRequest(w, e, r)
  {
    match e
    case Whole(s) =>
      RequestLaws.StepRows(w.db, s, r);
      hide Apply;
    case Completion(res, _, _, _) => RequestLaws.RowsForWithout(w.db.reservations, res.requestId, r);
    case Purge(now, _) => RequestLaws.RowsForUnexpired(w.db.reservations, now, r);
    case Settle(_) =>
  }

  /** In every sequence of effects, however stale: the charges of a request exceed its admissions
      by at most the completions committed while it had no reservation left. */
  lemma {:induction false} ChargesUseUpAdmissions(effects: seq<Effect>, r: RequestId)
    ensures Charges(effects, r) + (if HasRows(Play(effects), r) then 1 else 0)
      <= Admissions(effects, r) + Repeats(effects, r)
  {
    if effects != [] {
      ChargesUseUpAdmissions(effects[..|effects| - 1], r);
      hide Do, HasRows, ChargesRequest, AdmitsRequest;
      EffectRows(Play(effects[..|effects| - 1]), effects[|effects| - 1], r);
    }
  }

  // ---------- every interleaving ----------

  ghost predicate ChargesAt(actions: seq<Action>, i: nat, r: RequestId) {
    && i < |actions| && actions[i].CommitCharge?
    && Committed(Interleave(actions[..i]), actions[i]).Some?
    && ChargesRequest(Interleave(actions[..i]).world, Committed(Interleave(actions[..i]), actions[i]).value, r)
  }

  ghost predicate AdmitsAt(actions: seq<Action>, i: nat, r: RequestId) {
    && i < |actions|
    && Committed(Interleave(actions[..i]), actions[i]).Some?
    && AdmitsRequest(Interleave(actions[..i]).world, Committed(Interleave(actions[..i]), actions[i]).value, r)
  }

  /** The action at which the completion that commits at `i` read its reservation. */
  ghost function ReadOf(actions: seq<Action>, i: nat): int
    requires i < |actions| && actions[i].CommitCharge?
  {
    AdmissionOrder.Began(actions[..i], actions[i].pod) - 1
  }

  ghost predicate ReadsAt(actions: seq<Action>, n: int, pod: Pod, res: Reservation) {
    && 0 <= n < |actions| && actions[n].ReadReservation? && actions[n].pod == pod
    && First(Interleave(actions[..n]).world.db.reservations, res.requestId) == Some(res)
  }

  lemma JustRead(sys: System, a: Action, pod: Pod)
    requires pod !in sys.txs && pod in Act(sys, a).txs && Act(sys, a).txs[pod].Completing?
    ensures a.ReadReservation? && a.pod == pod
    ensures var res := Act(sys, a).txs[pod].res;
      First(sys.world.db.reservations, res.requestId) == Some(res)
  {}

  lemma KeepsReading(sys: System, a: Action, pod: Pod)
    requires pod in sys.txs && pod in Act(sys, a).txs && Act(sys, a).txs[pod].Completing?
    ensures sys.txs[pod].Completing? && sys.txs[pod].res == Act(sys, a).txs[pod].res
  {}

  /** A completion under way read its reservation when it began. */
  lemma {:induction false} CompletionHasRead(actions: seq<Action>, pod: Pod)
    requires pod in Interleave(actions).txs && Interleave(actions).txs[pod].Completing?
    ensures ReadsAt(actions, AdmissionOrder.Began(actions, pod) - 1, pod, Interleave(actions).txs[pod].res)
  {
    assert actions != [];
    var pre, a := actions[..|actions| - 1], actions[|actions| - 1];
    AdmissionOrder.LastAction(actions);
    if pod !in Interleave(pre).txs {
      JustRead(Interleave(pre), a, pod);
      assert actions[..|pre|] == pre;
    } else {
      AdmissionOrder.BeganBefore(actions, pod);
      KeepsReading(Interleave(pre), a, pod);
      hide Interleave, Act;
      CompletionHasRead(pre, pod);
      var n := AdmissionOrder.Began(pre, pod) - 1;
      assert pre[..n] == actions[..n];
    }
  }

  lemma {:induction false} FirstMeansRows(rs: seq<Reservation>, r: RequestId)
    ensures First(rs, r).Some? <==> RequestLaws.RowsFor(rs, r) != []
  {
    RequestLaws.FirstIsFirst(rs, r);
  }

  /** The request had rows when a completion that charges it read its reservation. */
  lemma {:induction false} RowsWhenRead(actions: seq<Action>, i: nat, r: RequestId)
    requires ChargesAt(actions, i, r)
    ensures 0 <= ReadOf(actions, i) < i && actions[ReadOf(actions, i)].ReadReservation?
    ensures HasRows(Interleave(actions[..ReadOf(actions, i)]).world, r)
  {
    var pod := actions[i].pod;
    CompletionHasRead(actions[..i], pod);
    var n := ReadOf(actions, i);
    assert actions[..i][..n] == actions[..n];
    FirstMeansRows(Interleave(actions[..n]).world.db.reservations, r);
  }

  /** One action of an interleaving and the rows of a request. */
  lemma {:induction false} ActionRows(actions: seq<Action>, i: nat, r: RequestId)
    requires i < |actions|
    ensures var before, after := Interleave(actions[..i]).world, Interleave(actions[..i + 1]).world;
      && (HasRows(after, r) ==> HasRows(before, r) || AdmitsAt(actions, i, r))
      && (ChargesAt(actions, i, r) ==> !HasRows(after, r))
  {
    var sys := Interleave(actions[..i]);
    AdmissionOrder.LastAction(actions[..i + 1]);
    assert actions[..i + 1][..i] == actions[..i];
    CommitsAreOrdered(actions[..i]);
    ActKeepsInvariant(sys, actions[i]);
    if Committed(sys, actions[i]).Some? {
      EffectRows(sys.world, Committed(sys, actions[i]).value, r);
    }
    hide Interleave, Act, Committed, HasRows, ChargesRequest, AdmitsRequest;
  }

  /** Between a moment without rows and one with rows the request is admitted. */
  lemma {:induction false} AdmittedBetween(actions: seq<Action>, i: nat, n: nat, r: RequestId) returns (m: nat)
    requires i <= n <= |actions|
    requires !HasRows(Interleave(actions[..i]).world, r) && HasRows(Interleave(actions[..n]).world, r)
    ensures i <= m < n && AdmitsAt(actions, m, r)
  {
    hide Interleave, HasRows, AdmitsAt;
    m := AdmissionOrder.Crossing((k: nat) => k <= |actions| && HasRows(Interleave(actions[..k]).world, r), i, n);
    ActionRows(actions, m, r);
  }

  /** Of two charges of a request, either the second completion read the reservation before the
      first one committed, or the request was admitted before the first and again after it. */
  lemma {:induction false} TwoChargesOverlap(actions: seq<Action>, i: nat, j: nat, r: RequestId)
    returns (m1: nat, m2: nat)
    requires i < j && ChargesAt(actions, i, r) && ChargesAt(actions, j, r)
    ensures ReadOf(actions, j) < i || (m1 < i < m2 && AdmitsAt(actions, m1, r) && AdmitsAt(actions, m2, r))
  {
    m1, m2 := 0, 0;
    ChargeIndex(actions, i, r);
    ChargeIndex(actions, j, r);
    hide Interleave, HasRows, AdmitsAt, ReadOf, ChargesAt, Committed;
    RowsWhenRead(actions, i, r);
    RowsWhenRead(actions, j, r);
    if ReadOf(actions, j) >= i {
      m1, m2 := AdmittedAround(actions, i, ReadOf(actions, i), ReadOf(actions, j), r);
    }
  }

  /** Rows before a charge and rows after it were admitted apart. */
  lemma {:induction false} AdmittedAround(actions: seq<Action>, i: nat, before: nat, after: nat, r: RequestId)
    returns (m1: nat, m2: nat)
    requires before < i <= after < |actions| && ChargesAt(actions, i, r) && !actions[after].CommitCharge?
    requires HasRows(Interleave(actions[..before]).world, r) && HasRows(Interleave(actions[..after]).world, r)
    ensures m1 < i < m2 && AdmitsAt(actions, m1, r) && AdmitsAt(actions, m2, r)
  {
    hide Interleave, HasRows, AdmitsAt, ChargesAt, Committed;
    ChargeIndex(actions, i, r);
    ActionRows(actions, i, r);
    NoRowsAtStart(actions, r);
    m1 := AdmittedBetween(actions, 0, before, r);
    m2 := AdmittedBetween(actions, i + 1, after, r);
  }

  lemma NoRowsAtStart(actions: seq<Action>, r: RequestId)
    ensures !HasRows(Interleave(actions[..0]).world, r)
  {}

  // ---------- at most once ----------

  ghost predicate AdmittedOnce(actions: seq<Action>, r: RequestId) {
    forall i, j :: 0 <= i < j < |actions| ==> !(AdmitsAt(actions, i, r) && AdmitsAt(actions, j, r))
  }

  /** Both charge, and the second completion read the reservation before the first committed. */
  ghost predicate Overlap(actions: seq<Action>, i: nat, j: nat, r: RequestId) {
    i < j && ChargesAt(actions, i, r) && ChargesAt(actions, j, r) && ReadOf(actions, j) < i
  }

  /** No writer commits a completion: those have their own actions. */
  lemma {:induction false} WritersComplete(actions: seq<Action>, pod: Pod)
    requires pod in Interleave(actions).txs && Interleave(actions).txs[pod].Writing?
    ensures !Interleave(actions).txs[pod].step.Complete?
  {
    assert actions != [];
    var pre := actions[..|actions| - 1];
    AdmissionOrder.LastAction(actions);
    hide Interleave, Act;
    WriterBegins(Interleave(pre), actions[|pre|], pod);
    if pod in Interleave(pre).txs && Interleave(pre).txs[pod].Writing? {
      WritersComplete(pre, pod);
    }
  }

  lemma WriterBegins(sys: System, a: Action, pod: Pod)
    requires pod in Act(sys, a).txs && Act(sys, a).txs[pod].Writing?
    ensures !Act(sys, a).txs[pod].step.Complete? || (pod in sys.txs && sys.txs[pod] == Act(sys, a).txs[pod])
  {}

  /** The log counts a charge where the interleaving commits one. */
  lemma {:induction false} LogCounts(actions: seq<Action>, r: RequestId)
    requires actions != []
    ensures var pre := actions[..|actions| - 1];
      Charges(CommitLog(actions), r) == Charges(CommitLog(pre), r) + if ChargesAt(actions, |pre|, r) then 1 else 0
  {
    var pre, a := actions[..|actions| - 1], actions[|actions| - 1];
    assert actions[..|pre|] == pre;
    CommitsAreOrdered(pre);
    match Committed(Interleave(pre), a)
    case None => assert CommitLog(pre) + [] == CommitLog(pre);
    case Some(e) =>
      var log := CommitLog(pre) + [e];
      assert log[..|log| - 1] == CommitLog(pre);
      if a.CommitWriter? {
        WritersComplete(pre, a.pod);
      }
  }

  lemma ChargeIndex(actions: seq<Action>, i: nat, r: RequestId)
    ensures ChargesAt(actions, i, r) ==> i < |actions| && actions[i].CommitCharge?
    ensures i + 1 < |actions| ==> (ChargesAt(actions, i, r) <==> ChargesAt(actions[..|actions| - 1], i, r))
  {
    if i + 1 < |actions| {
      assert actions[..|actions| - 1][..i] == actions[..i];
    }
  }

  ghost predicate ChargedEver(actions: seq<Action>, r: RequestId) {
    exists i :: ChargesAt(actions, i, r)
  }

  ghost predicate ChargedTwice(actions: seq<Action>, r: RequestId) {
    exists i, j :: i < j && ChargesAt(actions, i, r) && ChargesAt(actions, j, r)
  }

  lemma {:induction false} EverStep(actions: seq<Action>, r: RequestId)
    requires actions != []
    ensures var pre := actions[..|actions| - 1];
      ChargedEver(actions, r) <==> ChargedEver(pre, r) || ChargesAt(actions, |pre|, r)
  {
    var pre := actions[..|actions| - 1];
    hide ChargesAt;
    if i: nat :| ChargesAt(actions, i, r) {
      ChargeIndex(actions, i, r);
    }
    if i: nat :| ChargesAt(pre, i, r) {
      EverStays(actions, i, r);
    }
  }

  lemma {:induction false} TwiceStep(actions: seq<Action>, r: RequestId)
    requires actions != []
    ensures var pre := actions[..|actions| - 1];
      ChargedTwice(actions, r) <==> ChargedTwice(pre, r) || (ChargedEver(pre, r) && ChargesAt(actions, |pre|, r))
  {
    var pre := actions[..|actions| - 1];
    hide ChargesAt;
    if ChargedTwice(actions, r) {
      var i, j :| i < j && ChargesAt(actions, i, r) && ChargesAt(actions, j, r);
      EarlierPair(actions, i, j, r);
    }
    if ChargedTwice(pre, r) {
      var i, j :| i < j && ChargesAt(pre, i, r) && ChargesAt(pre, j, r);
      EverStays(actions, i, r);
      EverStays(actions, j, r);
    }
    if ChargedEver(pre, r) && ChargesAt(actions, |pre|, r) {
      var i :| ChargesAt(pre, i, r);
      EverStays(actions, i, r);
    }
  }

  lemma EverStays(actions: seq<Action>, i: nat, r: RequestId)
    requires actions != [] && ChargesAt(actions[..|actions| - 1], i, r)
    ensures i < |actions| - 1 && ChargesAt(actions, i, r)
  {
    ChargeIndex(actions[..|actions| - 1], i, r);
    hide ChargesAt;
    ChargeIndex(actions, i, r);
  }

  lemma EarlierPair(actions: seq<Action>, i: nat, j: nat, r: RequestId)
    requires actions != [] && i < j && ChargesAt(actions, i, r) && ChargesAt(actions, j, r)
    ensures var pre := actions[..|actions| - 1];
      ChargedTwice(pre, r) || (ChargedEver(pre, r) && ChargesAt(actions, |pre|, r))
  {
    hide ChargesAt;
    ChargeIndex(actions, i, r);
    ChargeIndex(actions, j, r);
    assert ChargesAt(actions[..|actions| - 1], i, r);
  }

  lemma {:induction false} ChargedIff(actions: seq<Action>, r: RequestId)
    ensures Charges(CommitLog(actions), r) >= 1 <==> ChargedEver(actions, r)
    ensures Charges(CommitLog(actions), r) >= 2 <==> ChargedTwice(actions, r)
  {
    if actions == [] {
      assert CommitLog(actions) == [];
    } else {
      hide CommitLog, Charges, ChargesAt, ChargedEver, ChargedTwice;
      ChargedIff(actions[..|actions| - 1], r);
      LogCounts(actions, r);
      EverStep(actions, r);
      TwiceStep(actions, r);
    }
  }

  lemma {:induction false} OverlapOrAdmittedTwice(actions: seq<Action>, i: nat, j: nat, r: RequestId)
    requires i < j && ChargesAt(actions, i, r) && ChargesAt(actions, j, r) && AdmittedOnce(actions, r)
    ensures Overlap(actions, i, j, r)
  {
    var m1, m2 := TwoChargesOverlap(actions, i, j, r);
    ghost var twice := AdmitsAt(actions, m1, r) && AdmitsAt(actions, m2, r);
    assert m1 < i < m2 ==> !twice by {
      hide AdmitsAt, ChargesAt, ReadOf;
      if m1 < m2 < |actions| {
        assert !(AdmitsAt(actions, m1, r) && AdmitsAt(actions, m2, r));
      } else {
        AdmitIndex(actions, m2, r);
      }
    }
    hide Interleave, Committed, AdmitsAt;
  }

  lemma AdmitIndex(actions: seq<Action>, i: nat, r: RequestId)
    ensures AdmitsAt(actions, i, r) ==> i < |actions|
  {}

  /** A request that is admitted at most once is charged at most once exactly when no two of its
      completions overlap, the second reading the reservation before the first commits. */
  lemma {:induction false} ChargedAtMostOnceIff(actions: seq<Action>, r: RequestId)
    requires AdmittedOnce(actions, r)
    ensures Charges(CommitLog(actions), r) <= 1 <==> forall i, j :: !Overlap(actions, i, j, r)
  {
    ChargedIff(actions, r);
    hide Charges, CommitLog, ChargesAt, AdmittedOnce;
    if ChargedTwice(actions, r) {
      var i, j :| i < j && ChargesAt(actions, i, r) && ChargesAt(actions, j, r);
      OverlapOrAdmittedTwice(actions, i, j, r);
    }
    if i, j :| Overlap(actions, i, j, r) {
      OverlapCharges(actions, i, j, r);
    }
  }

  lemma OverlapCharges(actions: seq<Action>, i: nat, j: nat, r: RequestId)
    requires Overlap(actions, i, j, r)
    ensures ChargedTwice(actions, r)
  {}
}
