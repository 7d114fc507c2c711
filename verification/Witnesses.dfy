/** Runs from empty tables on which a plausible claim about the ledger fails. */
module Witnesses {
  import opened Model
  import opened Ledger
  import opened HoldLaws
  import opened SpendLaws
  import opened Forest
  import Admission
  import BucketFill
  import ChildLaws
  import Hierarchy
  import HierarchySort
  import LedgerService

  const ORG: Budget := Budget(0, Org, 100.0, 0.0, 0.0, None, false, false, true, Approved)
  const TEAM: Budget := Budget(1, Team, 10.0, 0.0, 0.0, Some(0), false, false, true, Approved)

  /** The rows of both once 2.0 is pending on each. */
  const READ: seq<Budget> := [TEAM.(pending := 2.0), ORG.(pending := 2.0)]

  lemma PairIsCreatable()
    ensures Hierarchy.Creatable(map[], ORG) && Hierarchy.Creatable(map[0 := ORG], TEAM)
  {}

  lemma RunThen(steps: seq<Step>, s: Step)
    ensures Run(steps + [s]) == Apply(Run(steps), s)
  {
    assert (steps + [s])[..|steps|] == steps;
  }

  /** An org and a team below it. */
  lemma Pair(org: Budget, team: Budget) returns (steps: seq<Step>)
    requires org.id == 0 && org.parent.None? && org.usage == org.pending == 0.0
    requires team.id == 1 && team.parent == Some(0) && team.usage == team.pending == 0.0
    ensures steps == [Create(org), Create(team)]
    ensures Run(steps) == Db(map[0 := org, 1 := team], [], [])
  {
    RunThen([], Create(org));
    assert [] + [Create(org)] == [Create(org)];
    RunThen([Create(org)], Create(team));
    steps := [Create(org)] + [Create(team)];
    assert Run(steps).budgets == map[0 := org, 1 := team];
  }

  lemma SortedPair(team: Budget, org: Budget)
    requires team.kind == Team && org.kind == Org
    ensures HierarchySort.Sorted([team, org]) == [team, org]
    ensures HierarchySort.Sorted([org, team]) == [team, org]
  {
    forall k
      ensures HierarchySort.OfKind([team, org], k) == HierarchySort.OfKind([team], k) + HierarchySort.OfKind([org], k)
      ensures HierarchySort.OfKind([org, team], k) == HierarchySort.OfKind([org], k) + HierarchySort.OfKind([team], k)
      ensures HierarchySort.OfKind([team], k) == (if k == Team then [team] else [])
      ensures HierarchySort.OfKind([org], k) == (if k == Org then [org] else [])
    {
      HierarchySort.OfKindAppend([team], [org], k);
      HierarchySort.OfKindAppend([org], [team], k);
      assert [team] + [org] == [team, org] && [org] + [team] == [org, team];
      HierarchySort.OfKindUniform([team], Team, k);
      HierarchySort.OfKindUniform([org], Org, k);
    }
  }

  /** Both are candidates, the team first. */
  lemma PairIsCandidates(t: BudgetTable)
    requires 0 in t && 1 in t && t[0].id == 0 && t[1].id == 1
    requires t[0].Enforced() && t[1].Enforced() && t[0].kind == Org && t[1].kind == Team
    ensures Candidates(t, [0, 1], {0, 1}) == [t[1], t[0]]
  {
    assert [0, 1][1..] == [1] && [1][1..] == [];
    assert Enforced(t, [1]) == [t[1]];
    assert Enforced(t, [0, 1]) == [t[0], t[1]];
    assert [t[0], t[1]][1..] == [t[1]] && [t[1]][1..] == [];
    assert Matching([t[1]], {0, 1}) == [t[1]];
    assert Matching([t[0], t[1]], {0, 1}) == [t[0], t[1]];
    SortedPair(t[1], t[0]);
  }

  /** A request reserves on the team and on the org and completes: the team's hold is released,
      the org's is left behind. */
  lemma HoldLeaks() returns (steps: seq<Step>)
    ensures SaneRun(steps) && NoReset(steps, 0)
    ensures var db := Run(steps);
      && 0 in db.budgets && db.budgets[0].pending == 2.0 && db.reservations == []
      && Held(db.reservations, 0) == 0.0 && Leaked(steps, 0) == 2.0
    ensures |steps| == 4 && steps[3].Complete? && ChainIsRead(Run(steps[..3]), steps[3].chain)
  {
    hide Run, Apply, Leaked, First, Without;
    var made := Pair(ORG, TEAM);
    var reserve := Reserve("r", [0, 1], {0, 1}, 2.0, 9);
    var complete := Complete("r", 10.0, READ, None);
    RunThen(made, reserve);
    BothReserved(Run(made), "r", 2.0, 9);
    var held := Run(made + [reserve]);
    TwoRows(held.reservations);
    RunThen(made + [reserve], complete);
    steps := made + [reserve] + [complete];
    CompletesPair(held, "r");
    HoldsAreConserved(steps, 0);
    assert steps[..3] == made + [reserve];
  }

  /** The chain is what the ancestor query returns for the team on these tables. */
  ghost predicate ChainIsRead(db: Db, chain: seq<Budget>) {
    0 in db.budgets && 1 in db.budgets && chain == [db.budgets[1], db.budgets[0]]
  }

  /** A completion with a negative cost charges nothing and is recorded: the org has used 0, its
      only record says -1. */
  lemma LedgersPart() returns (steps: seq<Step>)
    ensures SaneRun(steps) && Misrecorded(steps, 0)
    ensures var db := Run(steps);
      0 in db.budgets && db.budgets[0].usage == 0.0 && Recorded(db.usage, 0) == -1.0
    ensures |steps| == 4 && steps[3].Complete? && ChainIsRead(Run(steps[..3]), steps[3].chain)
  {
    hide Run, Apply, First, Without, Recorded;
    var made := Pair(ORG, TEAM);
    var reserve := Reserve("r", [0, 1], {0, 1}, 2.0, 9);
    var complete := Complete("r", -1.0, READ, None);
    RunThen(made, reserve);
    BothReserved(Run(made), "r", 2.0, 9);
    TwoRows(Run(made + [reserve]).reservations);
    RunThen(made + [reserve], complete);
    steps := made + [reserve] + [complete];
    NegativeCompletion(Run(made + [reserve]), complete);
    assert steps[..3] == made + [reserve];
  }

  lemma NegativeCompletion(db: Db, s: Step)
    requires HasPair(db) && s == Complete("r", -1.0, READ, None) && First(db.reservations, "r").Some?
    requires db.usage == [] && db.budgets[0].usage == 0.0
    ensures StepMisrecords(db, s, 0)
    ensures var after := Apply(db, s);
      0 in after.budgets && after.budgets[0].usage == 0.0 && Recorded(after.usage, 0) == -1.0
  {
    ReadIsSorted();
    assert READ[1] in READ && READ[1].id == 0;
    ChargeIsBounded(READ, -1.0, None, 0);
    CompletedRow(db, First(db.reservations, "r").value, -1.0, READ, None, 0);
    hide CommitCompletion, HierarchySort.Sorted, First;
    CompletionLedger(db, First(db.reservations, "r").value, -1.0, READ, 0);
  }

  lemma TwoRows(rs: seq<Reservation>)
    requires rs == [Reservation(1, "r", 2.0, 9), Reservation(0, "r", 2.0, 9)]
    ensures First(rs, "r") == Some(rs[0]) && Without(rs, "r") == []
  {
    assert Without(rs, "r") == Without(rs[1..], "r") == Without(rs[1..][1..], "r");
  }

  /** Three changes that the handlers accept close a cycle: the team is created below the org,
      then the org is lowered to the team's amount and put below the team. */
  lemma ParentsFormCycle() returns (steps: seq<Step>)
    ensures SaneRun(steps) && |steps| == 3
    ensures steps[0].Create? && Hierarchy.Creatable(map[], steps[0].budget)
    ensures steps[1].Create? && Hierarchy.Creatable(Run(steps[..1]).budgets, steps[1].budget)
    ensures steps[2].Configure? && Hierarchy.PassesCheck(
      Run(steps[..2]).budgets, steps[2].settings.parent, steps[2].settings.isolated, steps[2].settings.amount)
    ensures OnCycle(LedgerService.ParentsOf(Run(steps).budgets), 0)
  {
    var made := Pair(ORG, TEAM);
    PairIsCreatable();
    var edit := Configure(0, Settings(10.0, Some(1), false, false, true));
    RunThen(made, edit);
    RunThen([], Create(ORG));
    steps := made + [edit];
    assert steps[..2] == made && steps[..1] == [] + [Create(ORG)];
    assert Run(steps[..1]).budgets == map[0 := ORG];
    var p := LedgerService.ParentsOf(Run(steps).budgets);
    assert p == map[0 := 1, 1 := 0];
    assert Up(p, 0, 2) == Up(p, 1, 1) == Up(p, 0, 0);
  }

  /** Lowering the org's amount passes the handler's check and leaves the team above it. */
  lemma ChildExceedsParent() returns (steps: seq<Step>)
    ensures SaneRun(steps) && |steps| == 3
    ensures Hierarchy.ChildrenFit(Run(steps[..2]).budgets) && !Hierarchy.ChildrenFit(Run(steps).budgets)
    ensures steps[2].Configure? && steps[2].id == 0
      && Hierarchy.PassesCheck(Run(steps[..2]).budgets, steps[2].settings.parent, steps[2].settings.isolated, steps[2].settings.amount)
  {
    var made := Pair(ORG, TEAM);
    var edit := Configure(0, Settings(5.0, None, false, false, true));
    RunThen(made, edit);
    steps := made + [edit];
    assert steps[..2] == made;
    var t := Run(steps).budgets;
    assert !Hierarchy.Fits(t[1], t[0]);
  }

  lemma TwoLines(team: Budget, org: Budget)
    requires team.id == 1 && org.id == 0 && !team.isolated && team.parent.Some?
    requires team.amount - team.usage == 10.0
    ensures ChargedTo(BucketFill.Lines([team, org], 10.0, None), 1) == 10.0
  {
    var chain := [team, org];
    var lines := BucketFill.Lines(chain, 10.0, None);
    assert BucketFill.Rest(chain, 10.0, None, 0) == 10.0;
    assert lines[0].charged == 10.0 && lines[0].budgetId == 1 && lines[1].budgetId == 0;
    assert lines[1..][0].budgetId == 0 && lines[1..][1..] == [];
    assert ChargedTo(lines[1..], 1) == 0.0;
  }

  /** Two completions read the team before either has charged it: usage 20 on an amount of 10,
      although the team is a non-isolated child and every row read is one it had. */
  lemma StaleChildOverspends() returns (steps: seq<Step>)
    ensures SaneRun(steps) && ChildLaws.ChildRun(steps, 1)
    ensures var db := Run(steps); 1 in db.budgets && db.budgets[1].usage == 20.0 && db.budgets[1].amount == 10.0
    ensures |steps| == 6 && steps[4].Complete? && steps[5].Complete?
      && ChainIsRead(Run(steps[..4]), steps[4].chain) && ChainIsRead(Run(steps[..4]), steps[5].chain)
  {
    hide Run, Apply, First, Without;
    var made := Pair(ORG, TEAM);
    var first, second := Reserve("r", [0, 1], {0, 1}, 1.0, 9), Reserve("s", [0, 1], {0, 1}, 1.0, 9);
    var c1, c2 := Complete("r", 10.0, READ, None), Complete("s", 10.0, READ, None);
    var s3, s4, s5 := made + [first], made + [first] + [second], made + [first] + [second] + [c1];
    RunThen(made, first);
    RunThen(s3, second);
    RunThen(s4, c1);
    RunThen(s5, c2);
    BothReserved(Run(made), "r", 1.0, 9);
    BothReserved(Run(s3), "s", 1.0, 9);
    FourRows(Run(s4).reservations);
    CompletesPair(Run(s4), "r");
    CompletesPair(Run(s5), "s");
    steps := s5 + [c2];
    assert steps[..4] == s4 && steps[..5] == s5;
    forall i | 0 <= i < |steps|
      ensures ChildLaws.KeepsFilling(Run(steps[..i]), steps[i], 1) && ChildLaws.ReadBefore(Run(steps[..i]), steps[i], 1)
    {}
  }

  lemma FourRows(rs: seq<Reservation>)
    requires rs == [Reservation(1, "r", 1.0, 9), Reservation(0, "r", 1.0, 9),
                    Reservation(1, "s", 1.0, 9), Reservation(0, "s", 1.0, 9)]
    ensures First(rs, "r").Some? && First(Without(rs, "r"), "s").Some?
  {
    assert rs[1..][1..] == [Reservation(1, "s", 1.0, 9), Reservation(0, "s", 1.0, 9)];
    assert Without(rs, "r") == Without(rs[1..], "r") == Without(rs[1..][1..], "r");
    assert Without(rs[1..][1..], "r")[0].requestId == "s";
  }

  /** A pair with room for the estimate, and no reservation of the request yet. */
  ghost predicate HasPair(db: Db) {
    && 0 in db.budgets && 1 in db.budgets && db.budgets.Keys == {0, 1}
    && db.budgets[0].id == 0 && db.budgets[1].id == 1
    && db.budgets[0].Enforced() && db.budgets[1].Enforced()
    && db.budgets[0].kind == Org && db.budgets[1].kind == Team
  }

  lemma BothReserved(db: Db, r: RequestId, estimate: Money, expiresAt: Instant)
    requires HasPair(db) && forall i :: 0 <= i < |db.reservations| ==> db.reservations[i].requestId != r
    requires estimate <= db.budgets[0].Remaining() && estimate <= db.budgets[1].Remaining()
    ensures var after := Apply(db, Reserve(r, [0, 1], {0, 1}, estimate, expiresAt));
      && HasPair(after)
      && after.budgets[0] == db.budgets[0].(pending := db.budgets[0].pending + estimate)
      && after.budgets[1] == db.budgets[1].(pending := db.budgets[1].pending + estimate)
      && after.reservations == db.reservations
           + [Reservation(1, r, estimate, expiresAt), Reservation(0, r, estimate, expiresAt)]
      && after.usage == db.usage
  {
    PairIsCandidates(db.budgets);
    var bs := [db.budgets[1], db.budgets[0]];
    assert IdsOf(bs) == {0, 1} by {
      assert bs[0].id == 1 && bs[1].id == 0;
    }
    assert Admission.Admits(bs, estimate);
  }

  lemma ReadIsSorted()
    ensures DistinctIds(READ) && HierarchySort.Sorted(READ) == READ && IdsOf(READ) == {0, 1}
  {
    SortedPair(READ[0], READ[1]);
    assert READ[0].id == 1 && READ[1].id == 0;
  }

  lemma CompletesPair(db: Db, r: RequestId)
    requires HasPair(db) && First(db.reservations, r).Some?
    ensures DistinctIds(READ)
    ensures var after := Apply(db, Complete(r, 10.0, READ, None));
      && HasPair(after) && after.budgets[1].amount == db.budgets[1].amount
      && after.budgets[1].usage == db.budgets[1].usage + 10.0
      && (First(db.reservations, r).value.budgetId == 1 ==> after.budgets[0].pending == db.budgets[0].pending)
      && after.reservations == Without(db.reservations, r)
  {
    ReadIsSorted();
    TwoLines(READ[0], READ[1]);
  }
}
