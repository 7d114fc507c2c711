/** What CheckAndReserveBudget does, said over the columns of the tables alone: who is a candidate,
when the request is admitted, which budget a denial names, and which rows are written. */
module CheckLaws {
  import opened Model
  import opened Ledger
  import opened Filters
  import Admission
  import HierarchySort

  /** Row `i` is returned by the query, accepted by its match expression, and of a type the sort
      knows. */
  ghost predicate IsCandidate(t: BudgetTable, rows: seq<Id>, matches: set<Id>, i: Id) {
    i in rows && i in matches && i in t && t[i].enabled && t[i].status == Approved && t[i].kind != Unknown
  }

  ghost predicate HasRoom(b: Budget, estimate: Money) {
    b.amount - b.usage - b.pending >= estimate
  }

  /** It has room, or may fall back on a parent that is a candidate itself and has room. */
  ghost predicate Fits(t: BudgetTable, rows: seq<Id>, matches: set<Id>, estimate: Money, i: Id)
    requires i in t
  {
    || HasRoom(t[i], estimate)
    || (t[i].allowFallback && exists j :: IsCandidate(t, rows, matches, j) && t[i].parent == Some(j) && HasRoom(t[j], estimate))
  }

  ghost predicate AllFit(t: BudgetTable, rows: seq<Id>, matches: set<Id>, estimate: Money) {
    forall i :: IsCandidate(t, rows, matches, i) ==> Fits(t, rows, matches, estimate, i)
  }

  ghost predicate MoreSpecific(a: EntityType, b: EntityType) {
    (a == Team && (b == Org || b == Provider)) || (a == Org && b == Provider)
  }

  /** `i` is checked before `j`: it is more specific, or comes first in the query's answer. */
  ghost predicate CheckedBefore(t: BudgetTable, rows: seq<Id>, i: Id, j: Id)
    requires i in t && j in t
  {
    MoreSpecific(t[i].kind, t[j].kind) || (t[i].kind == t[j].kind && Precedes(rows, i, j))
  }

  // ---------- the list of candidates ----------

  lemma {:induction false} MatchingIs(bs: seq<Budget>, matches: set<Id>)
    ensures Matching(bs, matches) == Filter(bs, (b: Budget) => b.id in matches)
  {
    if bs != [] {
      MatchingIs(bs[1..], matches);
    }
  }

  lemma {:induction false} OfKindIs(bs: seq<Budget>, k: EntityType)
    ensures HierarchySort.OfKind(bs, k) == Filter(bs, (b: Budget) => b.kind == k)
  {
    if bs != [] {
      OfKindIs(bs[1..], k);
    }
  }

  /** The rows of `bs` come in the order of the ids. */
  ghost predicate InOrderOf(ids: seq<Id>, bs: seq<Budget>) {
    forall k, l :: 0 <= k < l < |bs| ==> Precedes(ids, bs[k].id, bs[l].id)
  }

  lemma {:induction false} EnforcedInOrder(t: BudgetTable, rows: seq<Id>)
    requires Keyed(t)
    ensures InOrderOf(rows, Enforced(t, rows))
  {
    if rows != [] {
      var bs, rest := Enforced(t, rows), Enforced(t, rows[1..]);
      EnforcedInOrder(t, rows[1..]);
      EnforcedMembers(t, rows[1..]);
      var m := |bs| - |rest|;
      forall k, l | 0 <= k < l < |bs|
        ensures Precedes(rows, bs[k].id, bs[l].id)
      {
        assert bs[l] == rest[l - m];
        if k < m {
          assert rest[l - m] in rest;
          var j :| 0 <= j < |rows[1..]| && rows[1..][j] == bs[l].id;
          assert rows[0] == bs[k].id && rows[j + 1] == bs[l].id;
        } else {
          assert bs[k] == rest[k - m];
          PrecedesLater(rows, bs[k].id, bs[l].id);
        }
      }
    }
  }

  lemma PrecedesLater(ids: seq<Id>, x: Id, y: Id)
    requires ids != [] && Precedes(ids[1..], x, y)
    ensures Precedes(ids, x, y)
  {
    var i, j :| 0 <= i < j < |ids[1..]| && ids[1..][i] == x && ids[1..][j] == y;
    assert ids[i + 1] == x && ids[j + 1] == y;
  }

  lemma FilterInOrder(ids: seq<Id>, bs: seq<Budget>, keep: Budget -> bool)
    requires InOrderOf(ids, bs)
    ensures InOrderOf(ids, Filter(bs, keep))
  {
    forall k, l | 0 <= k < l < |Filter(bs, keep)|
      ensures Precedes(ids, Filter(bs, keep)[k].id, Filter(bs, keep)[l].id)
    {
      FilterKeepsOrder(bs, keep, k, l);
    }
  }

  lemma NotBoth(ids: seq<Id>, x: Id, y: Id)
    requires Distinct(ids) && Precedes(ids, x, y)
    ensures !Precedes(ids, y, x)
  {}

  /** The candidates in the order in which they are checked, each once. */
  lemma {:induction false} CandidatesInOrder(t: BudgetTable, rows: IdList, matches: set<Id>)
    requires Keyed(t)
    ensures var bs := Candidates(t, rows, matches);
      && (forall b :: b in bs <==> IsCandidate(t, rows, matches, b.id) && b == t[b.id])
      && (forall k, l :: 0 <= k < l < |bs| ==> bs[k].id in t && bs[l].id in t && CheckedBefore(t, rows, bs[k].id, bs[l].id))
      && (forall k, l :: 0 <= k < |bs| && 0 <= l < |bs| && CheckedBefore(t, rows, bs[k].id, bs[l].id) ==> k < l)
  {
    CandidatesMembers(t, rows, matches);
    var bs := Candidates(t, rows, matches);
    forall k | 0 <= k < |bs|
      ensures bs[k].id in t && bs[k] == t[bs[k].id]
    {
      assert bs[k] in bs;
    }
    forall k, l | 0 <= k < l < |bs|
      ensures CheckedBefore(t, rows, bs[k].id, bs[l].id) && !CheckedBefore(t, rows, bs[l].id, bs[k].id)
    {
      TwoCandidates(t, rows, matches, k, l);
    }
    assert forall k, l :: 0 <= k < l < |bs| ==> bs[k].id != bs[l].id;
    forall k | 0 <= k < |bs|
      ensures !CheckedBefore(t, rows, bs[k].id, bs[k].id)
    {
      if Precedes(rows, bs[k].id, bs[k].id) {
        NotBoth(rows, bs[k].id, bs[k].id);
      }
    }
  }

  lemma {:induction false} TwoCandidates(t: BudgetTable, rows: IdList, matches: set<Id>, k: nat, l: nat)
    requires Keyed(t) && k < l < |Candidates(t, rows, matches)|
    ensures var a, b := Candidates(t, rows, matches)[k], Candidates(t, rows, matches)[l];
      a.id in t && b.id in t && CheckedBefore(t, rows, a.id, b.id) && !CheckedBefore(t, rows, b.id, a.id)
  {
    var matched := Matching(Enforced(t, rows), matches);
    var bs := Candidates(t, rows, matches);
    CandidatesMembers(t, rows, matches);
    assert bs[k] in bs && bs[l] in bs;
    HierarchySort.SortedIsStable(matched);
    EnforcedInOrder(t, rows);
    MatchingIs(Enforced(t, rows), matches);
    FilterInOrder(rows, Enforced(t, rows), (b: Budget) => b.id in matches);
    SameKindInOrder(rows, matched, bs[k].kind, k, l);
    if bs[k].kind == bs[l].kind {
      NotBoth(rows, bs[k].id, bs[l].id);
    }
  }

  /** Two rows of one kind stand in the sorted list as they do in the list. */
  lemma {:induction false} SameKindInOrder(ids: seq<Id>, bs: seq<Budget>, kind: EntityType, k: nat, l: nat)
    requires InOrderOf(ids, bs) && k < l < |HierarchySort.Sorted(bs)|
    ensures var sorted := HierarchySort.Sorted(bs);
      sorted[k].kind == sorted[l].kind == kind ==> Precedes(ids, sorted[k].id, sorted[l].id)
  {
    var sorted := HierarchySort.Sorted(bs);
    var at := PartOf(bs, kind);
    if kind != Unknown && sorted[k].kind == sorted[l].kind == kind {
      FilterInOrder(ids, bs, (b: Budget) => b.kind == kind);
      OfKindIs(bs, kind);
      hide HierarchySort.Sorted, HierarchySort.OfKind, Filter;
      assert at <= k < l < at + |HierarchySort.OfKind(bs, kind)|;
      var part := HierarchySort.OfKind(bs, kind);
      assert sorted[at..at + |part|][k - at] == sorted[k] && sorted[at..at + |part|][l - at] == sorted[l];
    }
  }

  /** Where the rows of one kind stand in the sorted list. */
  lemma {:induction false} PartOf(bs: seq<Budget>, kind: EntityType) returns (at: nat)
    ensures var sorted, part := HierarchySort.Sorted(bs), HierarchySort.OfKind(bs, kind);
      && (forall i :: 0 <= i < |sorted| ==> sorted[i].kind != Unknown && (sorted[i].kind == kind ==> at <= i < at + |part|))
      && (kind != Unknown ==> at + |part| <= |sorted| && sorted[at..at + |part|] == part)
  {
    HierarchySort.OfKindMembers(bs, Team);
    HierarchySort.OfKindMembers(bs, Org);
    HierarchySort.OfKindMembers(bs, Provider);
    var team, org, provider := HierarchySort.OfKind(bs, Team), HierarchySort.OfKind(bs, Org), HierarchySort.OfKind(bs, Provider);
    var t, o := |team|, |org|;
    at := if kind == Team then 0 else if kind == Org then t else t + o;
    var sorted := HierarchySort.Sorted(bs);
    forall i | 0 <= i < |sorted|
      ensures sorted[i].kind == if i < t then Team else if i < t + o then Org else Provider
    {
      assert i < t ==> sorted[i] in team;
      assert t <= i < t + o ==> sorted[i] in org;
      assert t + o <= i ==> sorted[i] in provider;
    }
  }

  // ---------- the decision ----------

  /** On the candidates a budget passes iff it fits. */
  lemma {:induction false} PassesIfFits(t: BudgetTable, rows: IdList, matches: set<Id>, estimate: Money, b: Budget)
    requires Keyed(t) && b in Candidates(t, rows, matches)
    ensures b.id in t && b == t[b.id]
    ensures var bs := Candidates(t, rows, matches);
      && (Admission.Passes(bs, b, estimate) <==> Fits(t, rows, matches, estimate, b.id))
      && (Admission.FallsBack(bs, b, estimate) <==>
            Fits(t, rows, matches, estimate, b.id) && !HasRoom(b, estimate))
  {
    var bs := Candidates(t, rows, matches);
    CandidatesMembers(t, rows, matches);
    Admission.PassesIff(bs, b, estimate);
    hide Candidates, Admission.Passes, Admission.FallsBack;
    if j :| 0 <= j < |bs| && b.parent == Some(bs[j].id) && HasRoom(bs[j], estimate) {
      assert bs[j] in bs;
      assert IsCandidate(t, rows, matches, bs[j].id);
    }
    if j :| IsCandidate(t, rows, matches, j) && b.parent == Some(j) && HasRoom(t[j], estimate) {
      assert t[j] in bs;
      var k :| 0 <= k < |bs| && bs[k] == t[j];
    }
  }

  lemma {:induction false} AdmitsIfAllFit(t: BudgetTable, rows: IdList, matches: set<Id>, estimate: Money)
    requires Keyed(t)
    ensures Admission.Admits(Candidates(t, rows, matches), estimate) <==> AllFit(t, rows, matches, estimate)
  {
    var bs := Candidates(t, rows, matches);
    CandidatesMembers(t, rows, matches);
    hide Candidates, Fits, Admission.Passes;
    forall i | 0 <= i < |bs|
      ensures bs[i].id in t && bs[i] == t[bs[i].id] && IsCandidate(t, rows, matches, bs[i].id)
      ensures Admission.Passes(bs, bs[i], estimate) <==> Fits(t, rows, matches, estimate, bs[i].id)
    {
      assert bs[i] in bs;
      PassesIfFits(t, rows, matches, estimate, bs[i]);
    }
    if Admission.Admits(bs, estimate) {
      forall i | IsCandidate(t, rows, matches, i)
        ensures Fits(t, rows, matches, estimate, i)
      {
        assert t[i] in bs;
        var k :| 0 <= k < |bs| && bs[k] == t[i];
      }
    }
  }

  // ---------- what is written ----------

  /** The request already holds something on a candidate. */
  ghost predicate AlreadyHolds(db: Db, rows: seq<Id>, matches: set<Id>, r: RequestId) {
    exists k :: 0 <= k < |db.reservations| && db.reservations[k].requestId == r
                && IsCandidate(db.budgets, rows, matches, db.reservations[k].budgetId)
  }

  /** One row for each candidate, in the order in which they were checked. */
  ghost predicate HoldsEach(t: BudgetTable, s: Step, added: seq<Reservation>)
    requires s.Reserve?
  {
    && (forall k :: 0 <= k < |added| ==>
          IsCandidate(t, s.rows, s.matches, added[k].budgetId)
          && added[k] == Reservation(added[k].budgetId, s.requestId, s.estimate, s.expiresAt))
    && (forall i :: IsCandidate(t, s.rows, s.matches, i) ==> exists k :: 0 <= k < |added| && added[k].budgetId == i)
    && (forall k, l :: 0 <= k < l < |added| && added[k].budgetId in t && added[l].budgetId in t ==>
          CheckedBefore(t, s.rows, added[k].budgetId, added[l].budgetId))
  }

  /** The pending amount of every candidate grows by the estimate, and nothing else changes. */
  ghost predicate PendingGrows(t: BudgetTable, after: BudgetTable, s: Step)
    requires s.Reserve?
  {
    && after.Keys == t.Keys
    && forall i :: i in t ==>
         after[i] == t[i].(pending := t[i].pending + if IsCandidate(t, s.rows, s.matches, i) then s.estimate else 0.0)
  }

  lemma {:induction false} ConflictsIfHolds(db: Db, s: Step)
    requires Keyed(db.budgets) && s.Reserve?
    ensures Conflicts(db.reservations, Candidates(db.budgets, s.rows, s.matches), s.requestId)
      <==> AlreadyHolds(db, s.rows, s.matches, s.requestId)
  {
    var bs := Candidates(db.budgets, s.rows, s.matches);
    CandidatesMembers(db.budgets, s.rows, s.matches);
    hide Candidates;
    if i, j :| 0 <= i < |db.reservations| && 0 <= j < |bs| && db.reservations[i].requestId == s.requestId
               && db.reservations[i].budgetId == bs[j].id {
      assert bs[j] in bs;
    }
    if k :| 0 <= k < |db.reservations| && db.reservations[k].requestId == s.requestId
            && IsCandidate(db.budgets, s.rows, s.matches, db.reservations[k].budgetId) {
      assert db.budgets[db.reservations[k].budgetId] in bs;
      var j :| 0 <= j < |bs| && bs[j] == db.budgets[db.reservations[k].budgetId];
    }
  }

  lemma {:induction false} IdsAreCandidates(t: BudgetTable, rows: IdList, matches: set<Id>, i: Id)
    requires Keyed(t)
    ensures i in IdsOf(Candidates(t, rows, matches)) <==> IsCandidate(t, rows, matches, i)
  {
    var bs := Candidates(t, rows, matches);
    CandidatesMembers(t, rows, matches);
    hide Candidates;
    if k :| 0 <= k < |bs| && bs[k].id == i {
      assert bs[k] in bs;
    }
    if IsCandidate(t, rows, matches, i) {
      assert t[i] in bs;
      var k :| 0 <= k < |bs| && bs[k] == t[i];
    }
  }

  /** The whole transaction over the columns: a request that does not fit everywhere, or that
      holds something on a candidate already, changes nothing. */
  lemma {:induction false} ReserveMeans(db: Db, s: Step)
    requires Keyed(db.budgets) && s.Reserve?
    ensures var after := Apply(db, s);
      if AllFit(db.budgets, s.rows, s.matches, s.estimate) && !AlreadyHolds(db, s.rows, s.matches, s.requestId)
      then
        && PendingGrows(db.budgets, after.budgets, s)
        && db.reservations <= after.reservations
        && HoldsEach(db.budgets, s, after.reservations[|db.reservations|..])
        && after.usage == db.usage
      else after == db
  {
    var t, bs := db.budgets, Candidates(db.budgets, s.rows, s.matches);
    AdmitsIfAllFit(t, s.rows, s.matches, s.estimate);
    ConflictsIfHolds(db, s);
    if AllFit(t, s.rows, s.matches, s.estimate) && !AlreadyHolds(db, s.rows, s.matches, s.requestId) {
      forall i
        ensures i in IdsOf(bs) <==> IsCandidate(t, s.rows, s.matches, i)
      {
        IdsAreCandidates(t, s.rows, s.matches, i);
      }
      var added := NewReservations(bs, s.requestId, s.estimate, s.expiresAt);
      assert (db.reservations + added)[|db.reservations|..] == added;
      AddedHoldsEach(t, s, added);
    }
    hide Candidates, IsCandidate, Fits, Conflicts, AlreadyHolds, AllFit, HoldsEach, Admission.Admits;
  }

  lemma {:induction false} AddedHoldsEach(t: BudgetTable, s: Step, added: seq<Reservation>)
    requires Keyed(t) && s.Reserve?
    requires added == NewReservations(Candidates(t, s.rows, s.matches), s.requestId, s.estimate, s.expiresAt)
    ensures HoldsEach(t, s, added)
  {
    var bs := Candidates(t, s.rows, s.matches);
    CandidatesInOrder(t, s.rows, s.matches);
    hide Candidates, CheckedBefore;
    forall k | 0 <= k < |added|
      ensures IsCandidate(t, s.rows, s.matches, added[k].budgetId) && added[k].budgetId == bs[k].id
    {
      assert bs[k] in bs;
    }
    forall i | IsCandidate(t, s.rows, s.matches, i)
      ensures exists k :: 0 <= k < |added| && added[k].budgetId == i
    {
      assert t[i] in bs;
      var k :| 0 <= k < |bs| && bs[k] == t[i];
      assert added[k].budgetId == i;
    }
  }

  // ---------- what is answered ----------

  /** A denial names the first candidate that is isolated and does not fit, or, if no isolated
      one fails, the last that does not fit. */
  ghost predicate Names(t: BudgetTable, s: Step, at: Id)
    requires s.Reserve?
  {
    && IsCandidate(t, s.rows, s.matches, at) && !Fits(t, s.rows, s.matches, s.estimate, at)
    && forall j :: IsCandidate(t, s.rows, s.matches, j) && !Fits(t, s.rows, s.matches, s.estimate, j) ==>
         if t[at].isolated then !(t[j].isolated && CheckedBefore(t, s.rows, j, at))
         else !t[j].isolated && !CheckedBefore(t, s.rows, at, j)
  }

  /** An admission reports the parent of the last candidate without room of its own. */
  ghost predicate ReportsFallback(t: BudgetTable, s: Step, fallback: Option<Id>)
    requires s.Reserve?
  {
    if fallback.None? then
      forall i :: IsCandidate(t, s.rows, s.matches, i) ==> HasRoom(t[i], s.estimate)
    else
      exists i ::
        && IsCandidate(t, s.rows, s.matches, i) && !HasRoom(t[i], s.estimate) && t[i].parent == fallback
        && forall j :: IsCandidate(t, s.rows, s.matches, j) && CheckedBefore(t, s.rows, i, j) ==> HasRoom(t[j], s.estimate)
  }

  lemma {:induction false} CandidateAt(t: BudgetTable, rows: IdList, matches: set<Id>, i: Id) returns (k: nat)
    requires Keyed(t) && IsCandidate(t, rows, matches, i)
    ensures k < |Candidates(t, rows, matches)| && Candidates(t, rows, matches)[k] == t[i]
  {
    CandidatesMembers(t, rows, matches);
    var bs := Candidates(t, rows, matches);
    assert t[i] in bs;
    k :| 0 <= k < |bs| && bs[k] == t[i];
  }

  lemma FailureAt(bs: seq<Budget>, estimate: Money, n: nat, at: Id, fallback: Option<Id>) returns (k: nat)
    requires n <= |bs| && Admission.Pointers(bs, estimate, n, Some(at), fallback)
    ensures k < n && bs[k].id == at && !Admission.Passes(bs, bs[k], estimate)
    ensures forall j :: k < j < n ==> Admission.Passes(bs, bs[j], estimate)
  {
    hide Admission.FallsBack, Admission.Passes;
    k :| 0 <= k < n && bs[k].id == at && !Admission.Passes(bs, bs[k], estimate)
         && forall j :: k < j < n ==> Admission.Passes(bs, bs[j], estimate);
  }

  lemma {:induction false} PassesAt(t: BudgetTable, rows: IdList, matches: set<Id>, estimate: Money, k: nat)
    requires Keyed(t) && k < |Candidates(t, rows, matches)|
    ensures var bs := Candidates(t, rows, matches);
      && bs[k].id in t && bs[k] == t[bs[k].id] && IsCandidate(t, rows, matches, bs[k].id)
      && (Admission.Passes(bs, bs[k], estimate) <==> Fits(t, rows, matches, estimate, bs[k].id))
  {
    var bs := Candidates(t, rows, matches);
    CandidatesMembers(t, rows, matches);
    hide Candidates, Admission.Passes, Admission.FallsBack, Fits;
    assert bs[k] in bs;
    PassesIfFits(t, rows, matches, estimate, bs[k]);
  }

  /** Where the loop stops: at a failing isolated budget, or at the end of the list. */
  lemma StopsWhere(bs: seq<Budget>, estimate: Money, n: nat, k: nat, l: nat)
    requires Admission.Visits(bs, estimate, n) && k < n && l < |bs|
    requires !Admission.Passes(bs, bs[k], estimate) && !Admission.Passes(bs, bs[l], estimate)
    requires forall j :: k < j < n ==> Admission.Passes(bs, bs[j], estimate)
    ensures if bs[k].isolated then l < k ==> !bs[l].isolated else !bs[l].isolated && l <= k
  {
    hide Admission.Passes;
    assert n < |bs| ==> k == n - 1;
    assert l < n - 1 ==> !Admission.StopsAt(bs, l, estimate);
    assert k < n - 1 ==> !Admission.StopsAt(bs, k, estimate);
  }

  lemma {:induction false} DenialNames(t: BudgetTable, s: Step, n: nat, at: Id, fallback: Option<Id>)
    requires Keyed(t) && s.Reserve?
    requires Admission.Visits(Candidates(t, s.rows, s.matches), s.estimate, n)
    requires Admission.Pointers(Candidates(t, s.rows, s.matches), s.estimate, n, Some(at), fallback)
    ensures Names(t, s, at)
  {
    var bs := Candidates(t, s.rows, s.matches);
    assert n <= |bs|;
    hide Candidates, Fits, CheckedBefore, Admission.Passes, Admission.Visits, Admission.Pointers;
    var k := FailureAt(bs, s.estimate, n, at, fallback);
    PassesAt(t, s.rows, s.matches, s.estimate, k);
    forall j | IsCandidate(t, s.rows, s.matches, j) && !Fits(t, s.rows, s.matches, s.estimate, j)
      ensures if t[at].isolated then !(t[j].isolated && CheckedBefore(t, s.rows, j, at))
        else !t[j].isolated && !CheckedBefore(t, s.rows, at, j)
    {
      var l := CandidateAt(t, s.rows, s.matches, j);
      PassesAt(t, s.rows, s.matches, s.estimate, l);
      StopsWhere(bs, s.estimate, n, k, l);
      CheckedInOrder(t, s.rows, s.matches, k, l);
      CheckedInOrder(t, s.rows, s.matches, l, k);
    }
  }

  lemma {:induction false} CheckedInOrder(t: BudgetTable, rows: IdList, matches: set<Id>, k: nat, l: nat)
    requires Keyed(t) && k < |Candidates(t, rows, matches)| && l < |Candidates(t, rows, matches)|
    ensures var a, b := Candidates(t, rows, matches)[k].id, Candidates(t, rows, matches)[l].id;
      a in t && b in t && (CheckedBefore(t, rows, a, b) ==> k < l)
  {
    CandidatesInOrder(t, rows, matches);
    hide CheckedBefore;
    assert Candidates(t, rows, matches)[k] in Candidates(t, rows, matches);
    assert Candidates(t, rows, matches)[l] in Candidates(t, rows, matches);
    hide Candidates;
  }

  lemma FallbackAt(bs: seq<Budget>, estimate: Money, fallback: Option<Id>) returns (k: nat)
    requires Admission.Pointers(bs, estimate, |bs|, None, fallback)
    ensures fallback.None? ==> forall j :: 0 <= j < |bs| ==> !Admission.FallsBack(bs, bs[j], estimate)
    ensures fallback.Some? ==>
      && k < |bs| && Admission.FallsBack(bs, bs[k], estimate) && bs[k].parent == fallback
      && forall j :: k < j < |bs| ==> !Admission.FallsBack(bs, bs[j], estimate)
  {
    hide Admission.FallsBack, Admission.Passes;
    k := 0;
    if fallback.Some? {
      k :| 0 <= k < |bs| && Admission.FallsBack(bs, bs[k], estimate) && bs[k].parent == fallback
           && forall j :: k < j < |bs| ==> !Admission.FallsBack(bs, bs[j], estimate);
    }
  }

  /** An admitted candidate falls back iff it has no room of its own. */
  lemma {:induction false} FallsBackIff(t: BudgetTable, rows: IdList, matches: set<Id>, estimate: Money, k: nat)
    requires Keyed(t) && k < |Candidates(t, rows, matches)| && Admission.Admits(Candidates(t, rows, matches), estimate)
    ensures var bs := Candidates(t, rows, matches);
      && bs[k].id in t && bs[k] == t[bs[k].id] && IsCandidate(t, rows, matches, bs[k].id)
      && (Admission.FallsBack(bs, bs[k], estimate) <==> !HasRoom(bs[k], estimate))
  {
    var bs := Candidates(t, rows, matches);
    CandidatesMembers(t, rows, matches);
    hide Candidates, Admission.Passes, Admission.FallsBack, Fits;
    assert bs[k] in bs;
    PassesIfFits(t, rows, matches, estimate, bs[k]);
  }

  lemma {:induction false} LaterCandidate(t: BudgetTable, rows: IdList, matches: set<Id>, k: nat, j: Id) returns (l: nat)
    requires Keyed(t) && k < |Candidates(t, rows, matches)| && IsCandidate(t, rows, matches, j)
    requires Candidates(t, rows, matches)[k].id in t && CheckedBefore(t, rows, Candidates(t, rows, matches)[k].id, j)
    ensures k < l < |Candidates(t, rows, matches)| && Candidates(t, rows, matches)[l] == t[j]
  {
    l := CandidateAt(t, rows, matches, j);
    hide Candidates, CheckedBefore;
    CheckedInOrder(t, rows, matches, k, l);
  }

  lemma {:induction false} AdmissionReports(t: BudgetTable, s: Step, fallback: Option<Id>)
    requires Keyed(t) && s.Reserve?
    requires Admission.Admits(Candidates(t, s.rows, s.matches), s.estimate)
    requires Admission.Pointers(Candidates(t, s.rows, s.matches), s.estimate, |Candidates(t, s.rows, s.matches)|, None, fallback)
    ensures ReportsFallback(t, s, fallback)
  {
    var bs := Candidates(t, s.rows, s.matches);
    hide Candidates, CheckedBefore, Admission.FallsBack, Admission.Pointers, Admission.Admits, HasRoom;
    var k := FallbackAt(bs, s.estimate, fallback);
    if fallback.None? {
      forall j | IsCandidate(t, s.rows, s.matches, j)
        ensures HasRoom(t[j], s.estimate)
      {
        var l := CandidateAt(t, s.rows, s.matches, j);
        FallsBackIff(t, s.rows, s.matches, s.estimate, l);
      }
    } else {
      var i := bs[k].id;
      FallsBackIff(t, s.rows, s.matches, s.estimate, k);
      forall j | IsCandidate(t, s.rows, s.matches, j) && CheckedBefore(t, s.rows, i, j)
        ensures HasRoom(t[j], s.estimate)
      {
        var l := LaterCandidate(t, s.rows, s.matches, k, j);
        FallsBackIff(t, s.rows, s.matches, s.estimate, l);
      }
    }
  }

  /** Some row is returned by the query and accepted by its match expression, whatever its type. */
  ghost predicate SomethingMatches(t: BudgetTable, rows: seq<Id>, matches: set<Id>) {
    exists i :: i in rows && i in matches && i in t && t[i].enabled && t[i].status == Approved
  }

  lemma {:induction false} MatchedIff(t: BudgetTable, rows: seq<Id>, matches: set<Id>)
    requires Keyed(t)
    ensures Matching(Enforced(t, rows), matches) != [] <==> SomethingMatches(t, rows, matches)
  {
    var e := Enforced(t, rows);
    var matched := Matching(e, matches);
    EnforcedMembers(t, rows);
    MatchingMembers(e, matches);
    if matched != [] {
      assert matched[0] in matched;
    }
    if i :| i in rows && i in matches && i in t && t[i].enabled && t[i].status == Approved {
      assert t[i] in matched;
    }
  }
}
