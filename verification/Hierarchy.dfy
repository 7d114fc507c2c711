/** What the management API does to the budget hierarchy: it can close a parent cycle, and it can
leave a child with more than its parent. */
module Hierarchy {
  import opened Model
  import opened Ledger
  import opened Forest
  import opened LedgerService

  ghost predicate Acyclic(p: Parents) {
    forall x :: !OnCycle(p, x)
  }

  ghost predicate AgreeExcept(p: Parents, q: Parents, id: Id) {
    forall x :: x != id ==> (x in p <==> x in q) && (x in p ==> p[x] == q[x])
  }

  /** Away from `id` both maps lead to the same ancestors. */
  lemma {:induction false} SameAncestors(p: Parents, q: Parents, id: Id, x: Id, n: nat)
    requires AgreeExcept(p, q, id)
    requires forall k :: 0 <= k < n ==> Up(p, x, k) != Some(id)
    ensures Up(p, x, n) == Up(q, x, n)
  {
    if n > 0 {
      SameAncestors(p, q, id, x, n - 1);
      UpCompose(p, x, n - 1, 1);
      UpCompose(q, x, n - 1, 1);
      assert Up(p, x, n - 1) != Some(id);
      if Up(p, x, n - 1).Some? {
        var y := Up(p, x, n - 1).value;
        assert Up(p, y, 1) == (if y in p then Up(p, p[y], 0) else None);
        assert Up(q, y, 1) == (if y in q then Up(q, q[y], 0) else None);
      }
    }
  }

  /** The first time the ancestors of `x` reach `id`. */
  lemma {:induction false} FirstVisit(p: Parents, x: Id, id: Id, n: nat) returns (m: nat)
    requires Up(p, x, n) == Some(id)
    ensures m <= n && Up(p, x, m) == Some(id)
    ensures forall k :: 0 <= k < m ==> Up(p, x, k) != Some(id)
  {
    m := 0;
    while Up(p, x, m) != Some(id)
      invariant m <= n
      invariant forall k :: 0 <= k < m ==> Up(p, x, k) != Some(id)
      decreases n - m
    {
      m := m + 1;
    }
  }

  /** `id` is `x` or above it. */
  ghost predicate AtOrAbove(p: Parents, id: Id, x: Id) {
    exists n :: n >= 0 && Up(p, x, n) == Some(id)
  }

  lemma {:induction false} ReachesAlike(p: Parents, q: Parents, id: Id, x: Id)
    requires AgreeExcept(p, q, id) && AtOrAbove(p, id, x)
    ensures AtOrAbove(q, id, x)
  {
    var n :| n >= 0 && Up(p, x, n) == Some(id);
    var m := FirstVisit(p, x, id, n);
    SameAncestors(p, q, id, x, m);
  }

  /** Going round once more, from any card of a cycle. */
  lemma {:induction false} Rotate(p: Parents, x: Id, n: nat, k: nat)
    requires Up(p, x, n) == Some(x) && k < n && Up(p, x, k).Some?
    ensures Up(p, Up(p, x, k).value, n) == Some(Up(p, x, k).value)
  {
    UpCompose(p, x, n, k);
    UpCompose(p, x, k, n);
    assert n + k == k + n;
  }

  /** Setting one parent link of an acyclic map closes a cycle exactly when the new parent is
      the budget itself or one of its descendants. */
  lemma {:induction false} LinkClosesCycleIff(p: Parents, id: Id, parent: Id)
    requires Acyclic(p)
    ensures Acyclic(p[id := parent]) <==> !AtOrAbove(p, id, parent)
  {
    var q := p[id := parent];
    if AtOrAbove(p, id, parent) {
      ReachesAlike(p, q, id, parent);
      var n :| n >= 0 && Up(q, parent, n) == Some(id);
      assert Up(q, id, n + 1) == Some(id);
      assert OnCycle(q, id);
    } else {
      forall x
        ensures !OnCycle(q, x)
      {
        if OnCycle(q, x) {
          CycleGoesThrough(p, id, parent, x);
        }
      }
    }
  }

  lemma {:induction false} CycleGoesThrough(p: Parents, id: Id, parent: Id, x: Id)
    requires Acyclic(p) && OnCycle(p[id := parent], x)
    ensures AtOrAbove(p, id, parent)
  {
    var q := p[id := parent];
    var n :| n > 0 && Up(q, x, n) == Some(x);
    if k :| 0 <= k < n && Up(q, x, k) == Some(id) {
      Rotate(q, x, n, k);
      assert Up(q, id, n) == Up(q, parent, n - 1);
      ReachesAlike(q, p, id, parent);
    } else {
      SameAncestors(q, p, id, x, n);
      assert OnCycle(p, x);
    }
  }

  lemma {:induction false} FewerLinks(p: Parents, q: Parents, x: Id, n: nat)
    requires forall y :: y in q ==> y in p && p[y] == q[y]
    ensures Up(q, x, n).Some? ==> Up(p, x, n) == Up(q, x, n)
    decreases n
  {
    if n > 0 && x in q {
      FewerLinks(p, q, q[x], n - 1);
    }
  }

  lemma {:induction false} FewerLinksStayAcyclic(p: Parents, q: Parents)
    requires Acyclic(p) && forall y :: y in q ==> y in p && p[y] == q[y]
    ensures Acyclic(q)
  {
    forall x: Id
      ensures !OnCycle(q, x)
    {
      if OnCycle(q, x) {
        var n :| n > 0 && Up(q, x, n) == Some(x);
        FewerLinks(p, q, x, n);
        assert OnCycle(p, x);
      }
    }
  }

  /** UpdateBudget gives the budget a parent that is the budget itself or below it. */
  ghost predicate ClosesCycle(db: Db, s: Step) {
    && s.Configure? && s.id in db.budgets
    && s.settings.parent.Some? && s.settings.parent.value in db.budgets
    && AtOrAbove(ParentsOf(db.budgets), s.id, s.settings.parent.value)
  }

  /** Steps other than creating and editing add no parent link. */
  lemma {:induction false} LinksOnlyGo(db: Db, s: Step)
    requires Consistent(db) && !s.Create? && !s.Configure?
    ensures var p, q := ParentsOf(db.budgets), ParentsOf(Apply(db, s).budgets);
      forall y :: y in q ==> y in p && p[y] == q[y]
  {
    var after := Apply(db, s).budgets;
    forall y | y in after
      ensures y in db.budgets && after[y].parent == db.budgets[y].parent
    {}
  }

  /** The hierarchy stays acyclic under every transaction but one: only UpdateBudget, which
      checks that the new parent exists but not where it is, can close a cycle. */
  lemma {:induction false} AcyclicSurvivesIff(db: Db, s: Step)
    requires Consistent(db) && Acyclic(ParentsOf(db.budgets))
    ensures Acyclic(ParentsOf(Apply(db, s).budgets)) <==> !ClosesCycle(db, s)
  {
    hide Acyclic, AtOrAbove;
    match s
    case Configure(id, c) => EditedLink(db, id, c);
    case Create(b) => NewLink(db, b);
    case _ =>
      LinksOnlyGo(db, s);
      FewerLinksStayAcyclic(ParentsOf(db.budgets), ParentsOf(Apply(db, s).budgets));
  }

  lemma {:induction false} EditedLink(db: Db, id: Id, c: Settings)
    requires Acyclic(ParentsOf(db.budgets))
    ensures Acyclic(ParentsOf(Apply(db, Configure(id, c)).budgets)) <==> !ClosesCycle(db, Configure(id, c))
  {
    hide Acyclic, AtOrAbove;
    var p, q := ParentsOf(db.budgets), ParentsOf(Apply(db, Configure(id, c)).budgets);
    if id in db.budgets && ParentExists(db.budgets, c.parent) {
      if c.parent.Some? {
        assert q == p[id := c.parent.value];
        LinkClosesCycleIff(p, id, c.parent.value);
      } else {
        FewerLinksStayAcyclic(p, q);
      }
    }
  }

  lemma {:induction false} NewLink(db: Db, b: Budget)
    requires NoDangling(db.budgets) && Acyclic(ParentsOf(db.budgets))
    ensures Acyclic(ParentsOf(Apply(db, Create(b)).budgets))
  {
    ParentsAfterCreate(db, b);
    if b.id !in db.budgets && b.parent.Some? && b.parent.value in db.budgets {
      hide Acyclic, AtOrAbove, ParentsOf, Apply;
      LinkClosesCycleIff(ParentsOf(db.budgets), b.id, b.parent.value);
      NothingBelowNew(db.budgets, b.id, b.parent.value);
    }
  }

  lemma {:induction false} ParentsAfterCreate(db: Db, b: Budget)
    requires NoDangling(db.budgets)
    ensures ParentsOf(Apply(db, Create(b)).budgets) ==
      if b.id !in db.budgets && b.parent.Some? && b.parent.value in db.budgets
      then ParentsOf(db.budgets)[b.id := b.parent.value] else ParentsOf(db.budgets)
  {
    forall i | i in db.budgets && db.budgets[i].parent.Some?
      ensures db.budgets[i].parent.value in db.budgets
    {
      assert ParentExists(db.budgets, db.budgets[i].parent);
    }
    hide NoDangling;
  }

  lemma {:induction false} NothingBelowNew(t: BudgetTable, id: Id, x: Id)
    requires id !in t && x in t
    ensures !AtOrAbove(ParentsOf(t), id, x)
  {
    forall n: nat
      ensures Up(ParentsOf(t), x, n) != Some(id)
    {
      StaysInTable(t, x, n);
    }
  }

  lemma {:induction false} StaysInTable(t: BudgetTable, x: Id, n: nat)
    requires x in t
    ensures Up(ParentsOf(t), x, n).Some? ==> Up(ParentsOf(t), x, n).value in t
    decreases n
  {
    if n > 0 && x in ParentsOf(t) {
      StaysInTable(t, ParentsOf(t)[x], n - 1);
    }
  }

  lemma {:induction false} AcyclicWalkEnds(p: Parents, x: Id, seen: set<Id>)
    requires Acyclic(p) && forall s :: s in seen ==> IsAncestor(p, x, s)
    ensures Walk(p, x, seen).Some?
    decreases p.Keys - seen
  {
    assert !OnCycle(p, x);
    if x in p {
      ParentIsAncestor(p, x);
      forall s | s in seen + {x}
        ensures IsAncestor(p, p[x], s)
      {
        if s != x {
          AncestorsChain(p, p[x], x, s);
        }
      }
      AcyclicWalkEnds(p, p[x], seen + {x});
    }
  }

  ghost predicate NoCycleClosed(steps: seq<Step>) {
    forall i :: 0 <= i < |steps| ==> !ClosesCycle(Run(steps[..i]), steps[i])
  }

  /** In every run in which no update closes a cycle, both recursive queries end for every
      budget, so every completion finds its chain and every cascade its descendants. */
  lemma {:induction false} QueriesEnd(steps: seq<Step>, id: Id)
    requires SaneRun(steps) && NoCycleClosed(steps)
    ensures AncestorRows(Run(steps).budgets, id).Some?
    ensures !OnCycle(ParentsOf(Run(steps).budgets), id)
  {
    RunStaysAcyclic(steps);
    AcyclicWalkEnds(ParentsOf(Run(steps).budgets), id, {});
  }

  lemma {:induction false} RunStaysAcyclic(steps: seq<Step>)
    requires SaneRun(steps) && NoCycleClosed(steps)
    ensures Acyclic(ParentsOf(Run(steps).budgets))
  {
    if steps == [] {
      EmptyIsAcyclic();
    } else {
      var pre, s := steps[..|steps| - 1], steps[|steps| - 1];
      forall i | 0 <= i < |pre|
        ensures !ClosesCycle(Run(pre[..i]), pre[i])
      {
        assert pre[..i] == steps[..i];
      }
      RunStaysAcyclic(pre);
      ReachableIsConsistent(pre);
      AcyclicSurvivesIff(Run(pre), s);
    }
  }

  lemma EmptyIsAcyclic()
    ensures Acyclic(ParentsOf(EMPTY.budgets))
  {
    var p := ParentsOf(EMPTY.budgets);
    forall x: Id
      ensures !OnCycle(p, x)
    {
      forall n: nat | n > 0
        ensures Up(p, x, n) == None
      {}
    }
  }

  // ---------- amounts along the hierarchy ----------

  predicate Fits(child: Budget, parent: Budget) {
    child.isolated || child.amount <= parent.amount
  }

  /** Every non-isolated child has at most its parent's amount. */
  ghost predicate ChildrenFit(t: BudgetTable) {
    forall i :: i in t && t[i].parent.Some? && t[i].parent.value in t ==> Fits(t[i], t[t[i].parent.value])
  }

  /** The handlers' check, against the parent's row as it is before the write. */
  predicate PassesCheck(t: BudgetTable, parent: Option<Id>, isolated: bool, amount: Money) {
    parent.Some? && !isolated && parent.value in t ==> amount <= t[parent.value].amount
  }

  /** An update leaves the budget itself within its parent exactly when it passes the check. */
  lemma EditedFitsIff(db: Db, id: Id, c: Settings)
    requires Consistent(db) && id in db.budgets && c.parent.Some? && c.parent.value in db.budgets && c.parent.value != id
    ensures var after := Apply(db, Configure(id, c)).budgets;
      (after[id].isolated || after[id].amount <= after[c.parent.value].amount)
      <==> PassesCheck(db.budgets, c.parent, c.isolated, c.amount)
  {}

  /** What CreateBudget lets through: the same check, an existing parent, and the approval rule
      that leaves only children of another budget pending. */
  predicate Creatable(t: BudgetTable, b: Budget) {
    && b.id !in t && ParentExists(t, b.parent)
    && PassesCheck(t, b.parent, b.isolated, b.amount)
    && (b.status == Approved || (b.status == Pending && b.parent.Some?))
  }

  /** UpdateBudget checks the budget against its parent, not its children against it: an update
      that passes keeps all children within their parents exactly when the new amount still
      covers the budget's own non-isolated children. */
  lemma ChildrenFitSurvivesIff(db: Db, id: Id, c: Settings)
    requires Consistent(db) && ChildrenFit(db.budgets) && id in db.budgets && ParentExists(db.budgets, c.parent)
    requires PassesCheck(db.budgets, c.parent, c.isolated, c.amount)
    ensures ChildrenFit(Apply(db, Configure(id, c)).budgets) <==>
      forall i :: i in db.budgets && i != id && db.budgets[i].parent == Some(id) && !db.budgets[i].isolated
        ==> db.budgets[i].amount <= c.amount
  {
    var t, after := db.budgets, Apply(db, Configure(id, c)).budgets;
    forall i | i in t && i != id
      ensures after[i] == t[i]
    {}
    if ChildrenFit(after) {
      forall i | i in t && i != id && t[i].parent == Some(id) && !t[i].isolated
        ensures t[i].amount <= c.amount
      {
        assert Fits(after[i], after[id]);
      }
    }
  }
}
