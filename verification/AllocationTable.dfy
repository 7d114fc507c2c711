/** The allocation table as a whole: which allocations may exist side by side, and what that means
for the merge. Each step is one SQL statement, so handlers may interleave between them. */
module AllocationTable {
  import opened Model
  import opened RateLimitMerge

  type Table = map<Id, Allocation>

  predicate Live(a: Allocation) {
    a.status != Rejected
  }

  predicate SamePlace(a: Allocation, b: Allocation) {
    a.team == b.team && a.pattern == b.pattern
  }

  /** Another live allocation for the team and pattern of `a`. */
  predicate Clashes(t: Table, a: Allocation) {
    exists j :: j in t && j != a.id && Live(t[j]) && SamePlace(t[j], a)
  }

  /** One of the same org: the unique index on org, team and pattern forbids it. */
  predicate ClashesInOrg(t: Table, a: Allocation) {
    exists j :: j in t && j != a.id && Live(t[j]) && SamePlace(t[j], a) && t[j].org == a.org
  }

  /** INSERT or UPDATE of one row; a statement that violates the index changes nothing. */
  function Put(t: Table, a: Allocation): Table {
    if Live(a) && ClashesInOrg(t, a) then t else t[a.id := a]
  }

  function Purged(t: Table, org: string, team: string, pattern: string): Table {
    map i | i in t && !(t[i].status == Rejected && t[i].org == org && t[i].team == team && t[i].pattern == pattern) :: t[i]
  }

  datatype Statement =
    | Insert(a: Allocation)
    | Purge(org: string, team: string, pattern: string)
    | Update(id: Id, edited: Allocation)
    | Decide(id: Id, approve: bool)
    | ResetForResubmit(id: Id)
    | Remove(id: Id)

  /** The row that a statement writes, if it finds one to write. */
  function Written(t: Table, s: Statement): Option<Allocation> {
    match s
    case Insert(a) => if a.id in t then None else Some(a)
    case Update(id, e) =>
      if id in t then Some(e.(id := id, org := t[id].org, team := t[id].team, status := t[id].status)) else None
    case Decide(id, approve) =>
      if id in t && t[id].status == Pending then Some(t[id].(status := if approve then Approved else Rejected)) else None
    case ResetForResubmit(id) =>
      if id in t && t[id].status == Rejected then Some(t[id].(status := Pending)) else None
    case _ => None
  }

  function Execute(t: Table, s: Statement): Table {
    match s
    case Purge(org, team, pattern) => Purged(t, org, team, pattern)
    case Remove(id) => t - {id}
    case _ => if Written(t, s).Some? then Put(t, Written(t, s).value) else t
  }

  ghost predicate Keyed(t: Table) {
    forall i :: i in t ==> t[i].id == i
  }

  ghost predicate OneLivePerOrg(t: Table) {
    forall i, j :: i in t && j in t && i != j && Live(t[i]) && Live(t[j]) && SamePlace(t[i], t[j]) ==> t[i].org != t[j].org
  }

  /** What CreateAllocation's duplicate check aims at: one live allocation per team and pattern. */
  ghost predicate OneLive(t: Table) {
    forall i, j :: i in t && j in t && i != j && Live(t[i]) && Live(t[j]) ==> !SamePlace(t[i], t[j])
  }

  lemma ExecuteKeepsIndex(t: Table, s: Statement)
    requires Keyed(t) && OneLivePerOrg(t)
    ensures Keyed(Execute(t, s)) && OneLivePerOrg(Execute(t, s))
  {}

  /** What a statement may change in a row that stays: never its id, org or team; its status only
      from pending to a decision or from rejected back to pending; its other columns only by an
      update of that row. */
  lemma StatementMeans(t: Table, s: Statement, i: Id)
    requires Keyed(t) && i in t && i in Execute(t, s)
    ensures var row, row' := t[i], Execute(t, s)[i];
      && row'.id == i && row'.org == row.org && row'.team == row.team
      && (row'.status != row.status ==>
            || (s == Decide(i, row'.status == Approved) && row.status == Pending && (row'.status == Approved || row'.status == Rejected))
            || (s == ResetForResubmit(i) && row.status == Rejected && row'.status == Pending))
      && (if s.Update? && s.id == i then
            row' == row || row' == s.edited.(id := i, org := row.org, team := row.team, status := row.status)
          else row' == row.(status := row'.status))
  {}

  /** And only a removal, or a purge of rejected rows of one org, team and pattern, deletes one. */
  lemma StatementDeletes(t: Table, s: Statement, i: Id)
    requires i in t
    ensures i !in Execute(t, s) <==>
      || s == Remove(i)
      || (s.Purge? && t[i].status == Rejected && t[i].org == s.org && t[i].team == s.team && t[i].pattern == s.pattern)
  {}

  function Run(statements: seq<Statement>): Table {
    if statements == [] then map[]
    else Execute(Run(statements[..|statements| - 1]), statements[|statements| - 1])
  }

  lemma {:induction false} RunKeepsIndex(statements: seq<Statement>)
    ensures Keyed(Run(statements)) && OneLivePerOrg(Run(statements))
  {
    if statements != [] {
      RunKeepsIndex(statements[..|statements| - 1]);
      ExecuteKeepsIndex(Run(statements[..|statements| - 1]), statements[|statements| - 1]);
    }
  }

  /** The index guards less than the check does. A statement leaves two live allocations for
      one team and pattern exactly when it writes a live row where another org already has one:
      an insert whose check is out of date, an edited pattern or a resubmission. */
  lemma OneLiveSurvivesIff(t: Table, s: Statement)
    requires Keyed(t) && OneLive(t)
    ensures OneLive(Execute(t, s)) <==>
      !(Written(t, s).Some? && Live(Written(t, s).value)
        && Clashes(t, Written(t, s).value) && !ClashesInOrg(t, Written(t, s).value))
  {
    if Written(t, s).Some? {
      var a := Written(t, s).value;
      var after := Execute(t, s);
      if Live(a) && Clashes(t, a) && !ClashesInOrg(t, a) {
        var j :| j in t && j != a.id && Live(t[j]) && SamePlace(t[j], a);
        assert after[a.id] == a && after[j] == t[j];
      }
    }
  }

  /** A run that does: an allocation is rejected, another org creates one for the same team and
      pattern, and the first is resubmitted. */
  lemma TwoLiveAllocations(a: Allocation, b: Allocation) returns (statements: seq<Statement>)
    requires a.id != b.id && SamePlace(a, b) && a.org != b.org && a.status == b.status == Pending
    ensures !OneLive(Run(statements))
    ensures |statements| == 4 && OneLive(Run(statements[..3])) && statements[3] == ResetForResubmit(a.id)
  {
    var s1, s2, s3 := [Insert(a)], [Insert(a), Decide(a.id, false)], [Insert(a), Decide(a.id, false), Insert(b)];
    statements := [Insert(a), Decide(a.id, false), Insert(b), ResetForResubmit(a.id)];
    assert s1[..0] == [] && s2[..1] == s1 && s3[..2] == s2 && statements[..3] == s3;
    var rejected := a.(status := Rejected);
    assert Run(s1) == map[a.id := a];
    assert Run(s2) == map[a.id := rejected];
    assert Run(s3) == map[a.id := rejected, b.id := b];
    assert Run(statements)[a.id] == a && Run(statements)[b.id] == b;
  }

  /** The table, with CreateAllocation as a handler that nothing interrupts. */
  class AllocationStore {
    var rows: Table

    constructor ()
      ensures rows == map[]
    {
      rows := map[];
    }

    /** Refuse a duplicate, clear rejected rows out of the way, insert. */
    method CreateAllocation(a: Allocation) returns (duplicate: bool)
      requires Keyed(rows) && OneLive(rows) && a.id !in rows && a.status != Rejected
      modifies this
      ensures Keyed(rows) && OneLive(rows)
      ensures duplicate <==> exists j :: j in old(rows) && j != a.id && old(rows)[j].status != Rejected
                                         && old(rows)[j].team == a.team && old(rows)[j].pattern == a.pattern
      ensures duplicate ==> rows == old(rows)
      ensures !duplicate ==> a.id in rows && rows[a.id] == a
      ensures !duplicate ==> forall i :: i in old(rows) ==>
        (i !in rows <==> old(rows)[i].status == Rejected && old(rows)[i].org == a.org
                         && old(rows)[i].team == a.team && old(rows)[i].pattern == a.pattern)
      ensures forall i :: i in rows && i != a.id ==> i in old(rows) && rows[i] == old(rows)[i]
    {
      duplicate := Clashes(rows, a);
      if duplicate {
        return;
      }
      rows := Purged(rows, a.org, a.team, a.pattern);
      assert !Clashes(rows, a);
      rows := Put(rows, a);
    }
  }

  /** With one live allocation per team and pattern, exact patterns and the wildcard never tie:
      the limit can depend on the row order only through overlapping patterns. */
  lemma OnlyPatternsTie(t: Table, team: string, model: string, like: (string, string) -> bool,
                        rows: seq<Allocation>, a: Allocation, b: Allocation, kind: Kind)
    requires Keyed(t) && OneLive(t) && IsAnswer(t.Values, team, model, like, rows)
    requires a in rows && b in rows && RivalProviders(a, b, model, kind)
    ensures Class(a, model) == 1 && a.pattern != b.pattern
    ensures like(model, a.pattern) && like(model, b.pattern)
  {
    assert a in t.Values && b in t.Values;
    var i :| i in t && t[i] == a;
    var j :| j in t && t[j] == b;
    assert !SamePlace(t[i], t[j]);
  }
}
