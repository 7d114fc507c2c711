/** Rate-limit allocations: handlers interleave at the level of single SQL statements, and every
write is a compare-and-set on the version or the status. */
module Allocations {
  import opened Model

  datatype Enforcement = Enforced | Monitoring

  /** The columns that UpdateAllocation writes. */
  datatype Columns = Columns(
    pattern: string,
    tokenLimit: Option<int>,
    tokenUnit: string,
    requestLimit: Option<int>,
    requestUnit: string,
    burst: int,
    enforcement: Enforcement,
    enabled: bool,
    description: string)

  datatype Row = Row(version: nat, status: ApprovalStatus, rejections: nat, columns: Columns)

  type Handler = nat

  /** One SQL statement of some handler. */
  datatype Event =
    | Read(handler: Handler)
    | Update(handler: Handler, columns: Columns)
    | Approve(enforcement: Enforcement)
    | Reject
    | ResetForResubmit

  /** `seen` is what each update handler last read. */
  datatype Table = Table(row: Row, seen: map<Handler, Row>)

  function Created(autoApproved: bool, columns: Columns): Table {
    Table(Row(1, if autoApproved then Approved else Pending, 0, columns), map[])
  }

  /** Does the statement's WHERE clause find the row? */
  predicate Hits(t: Table, e: Event) {
    match e
    case Read(_) => false
    case Update(h, _) => h in t.seen && t.seen[h].version == t.row.version
    case Approve(_) => t.row.status == Pending
    case Reject => t.row.status == Pending
    case ResetForResubmit => t.row.status == Rejected
  }

  function Write(row: Row, e: Event): Row {
    match e
    case Read(_) => row
    case Update(_, columns) => row.(columns := columns, version := row.version + 1)
    case Approve(enforcement) =>
      row.(status := Approved, columns := row.columns.(enforcement := enforcement), version := row.version + 1)
    case Reject => row.(status := Rejected, rejections := row.rejections + 1, version := row.version + 1)
    case ResetForResubmit => row.(status := Pending, version := row.version + 1)
  }

  function Next(t: Table, e: Event): Table {
    if e.Read? then t.(seen := t.seen[e.handler := t.row])
    else if Hits(t, e) then t.(row := Write(t.row, e))
    else t
  }

  function Run(start: Table, events: seq<Event>): Table {
    if events == [] then start
    else Next(Run(start, events[..|events| - 1]), events[|events| - 1])
  }

  /** Successful statements of a run that satisfy `which`. */
  function Successes(start: Table, events: seq<Event>, which: Event -> bool): nat {
    if events == [] then 0
    else
      var pre, e := events[..|events| - 1], events[|events| - 1];
      Successes(start, pre, which) + if Hits(Run(start, pre), e) && which(e) then 1 else 0
  }

  predicate AnyWrite(e: Event) { true }

  predicate Decision(e: Event) { e.Approve? || e.Reject? }

  predicate Rejection(e: Event) { e.Reject? }

  predicate Resubmission(e: Event) { e.ResetForResubmit? }

  /** Every write bumps the version, so the version counts the successful writes. */
  lemma {:induction false} VersionCountsWrites(start: Table, events: seq<Event>)
    ensures Run(start, events).row.version == start.row.version + Successes(start, events, AnyWrite)
  {
    if events != [] {
      VersionCountsWrites(start, events[..|events| - 1]);
    }
  }

  /** A version names one state of the row. */
  ghost predicate VersionsIdentify(t: Table) {
    forall h :: h in t.seen ==>
      && t.seen[h].version <= t.row.version
      && (t.seen[h].version == t.row.version ==> t.seen[h] == t.row)
  }

  lemma {:induction false} ReadsStayIdentified(start: Table, events: seq<Event>)
    requires VersionsIdentify(start)
    ensures VersionsIdentify(Run(start, events))
  {
    if events != [] {
      ReadsStayIdentified(start, events[..|events| - 1]);
    }
  }

  /** No lost update: an UpdateAllocation that succeeds at any point of any interleaving
      writes over exactly the row its handler read. */
  lemma {:induction false} UpdateWritesWhatItRead(autoApproved: bool, columns: Columns, events: seq<Event>, h: Handler, edit: Columns)
    requires Hits(Run(Created(autoApproved, columns), events), Update(h, edit))
    ensures var t := Run(Created(autoApproved, columns), events);
      h in t.seen && t.seen[h] == t.row
  {
    ReadsStayIdentified(Created(autoApproved, columns), events);
  }

  /** At most one approve or reject succeeds per pending period, under any interleaving: the
      decisions are as many as the resubmissions, plus one unless one is still due. */
  lemma {:induction false} OneDecisionPerPeriod(columns: Columns, events: seq<Event>)
    ensures var start := Created(false, columns);
      var row := Run(start, events).row;
      && Successes(start, events, Decision)
           == Successes(start, events, Resubmission) + (if row.status == Pending then 0 else 1)
      && row.rejections == Successes(start, events, Rejection)
      && row.rejections == Successes(start, events, Resubmission) + (if row.status == Rejected then 1 else 0)
      && row.status != Closed
  {
    if events != [] {
      OneDecisionPerPeriod(columns, events[..|events| - 1]);
    }
  }

  /** Between two decisions there is a resubmission. */
  lemma {:induction false} DecisionsAreSeparated(columns: Columns, events: seq<Event>, i: nat, j: nat)
    requires i < j < |events| && Decision(events[i]) && Decision(events[j])
    requires Hits(Run(Created(false, columns), events[..i]), events[i])
    requires Hits(Run(Created(false, columns), events[..j]), events[j])
    ensures exists k :: i < k < j && Resubmission(events[k]) && Hits(Run(Created(false, columns), events[..k]), events[k])
  {
    var start := Created(false, columns);
    assert events[..i + 1][..i] == events[..i];
    var k := i + 1;
    while k < j && !(Resubmission(events[k]) && Hits(Run(start, events[..k]), events[k]))
      invariant i < k <= j
      invariant Run(start, events[..k]).row.status != Pending
    {
      assert events[..k + 1][..k] == events[..k];
      k := k + 1;
    }
  }

  // ---------- who wrote the columns last ----------

  ghost predicate Updates(start: Table, events: seq<Event>, i: int) {
    0 <= i < |events| && events[i].Update? && Hits(Run(start, events[..i]), events[i])
  }

  ghost predicate Approves(start: Table, events: seq<Event>, i: int) {
    0 <= i < |events| && events[i].Approve? && Hits(Run(start, events[..i]), events[i])
  }

  /** The last successful update, and the last successful approval since; -1 if there is none. */
  ghost predicate LastWrites(start: Table, events: seq<Event>, u: int, a: int) {
    && (u == -1 || Updates(start, events, u)) && (forall i :: i > u ==> !Updates(start, events, i))
    && (a == -1 || (a > u && Approves(start, events, a))) && (forall i :: i > u && i > a ==> !Approves(start, events, i))
  }

  lemma {:induction false} OneMoreWrite(start: Table, events: seq<Event>, i: int)
    requires events != []
    ensures var pre := events[..|events| - 1];
      && (i < |pre| ==> (Updates(start, events, i) <==> Updates(start, pre, i)) && (Approves(start, events, i) <==> Approves(start, pre, i)))
      && (i == |pre| ==> (Updates(start, events, i) <==> events[i].Update? && Hits(Run(start, pre), events[i]))
                         && (Approves(start, events, i) <==> events[i].Approve? && Hits(Run(start, pre), events[i])))
  {
    if 0 <= i < |events| {
      assert events[..|events| - 1][..i] == events[..i];
    }
  }

  /** After any interleaving the columns are those of the last update that succeeded, or of the
      creation, with the enforcement of the last approval that has succeeded since. */
  lemma {:induction false} ColumnsAreLastWritten(start: Table, events: seq<Event>) returns (u: int, a: int)
    ensures LastWrites(start, events, u, a)
    ensures var written := if u == -1 then start.row.columns else events[u].columns;
      Run(start, events).row.columns == if a == -1 then written else written.(enforcement := events[a].enforcement)
  {
    u, a := -1, -1;
    if events != [] {
      var pre, e := events[..|events| - 1], events[|events| - 1];
      u, a := ColumnsAreLastWritten(start, pre);
      forall i
        ensures i < |pre| ==> (Updates(start, events, i) <==> Updates(start, pre, i)) && (Approves(start, events, i) <==> Approves(start, pre, i))
        ensures i == |pre| ==> (Updates(start, events, i) <==> e.Update? && Hits(Run(start, pre), e))
        ensures i == |pre| ==> (Approves(start, events, i) <==> e.Approve? && Hits(Run(start, pre), e))
        ensures i >= |events| ==> !Updates(start, events, i) && !Approves(start, events, i)
      {
        OneMoreWrite(start, events, i);
      }
      hide Updates, Approves;
      if Hits(Run(start, pre), e) {
        if e.Update? {
          u, a := |pre|, -1;
        } else if e.Approve? {
          a := |pre|;
        }
      }
    }
  }

  // ---------- the row itself ----------

  class AllocationRow {
    var version: nat
    var status: ApprovalStatus
    var rejectionCount: nat
    var columns: Columns

    ghost function View(): Row
      reads this
    {
      Row(version, status, rejectionCount, columns)
    }

    constructor (autoApproved: bool, columns: Columns)
      ensures View() == Created(autoApproved, columns).row
      ensures this.version == 1 && rejectionCount == 0 && this.columns == columns
      ensures status == if autoApproved then Approved else Pending
    {
      this.version, rejectionCount, this.columns := 1, 0, columns;
      status := if autoApproved then Approved else Pending;
    }

    /** UPDATE .. WHERE version = seen. */
    method UpdateAllocation(columns: Columns, seen: nat) returns (ok: bool)
      modifies this
      ensures ok == (seen == old(version))
      ensures View() == if ok then Write(old(View()), Update(0, columns)) else old(View())
      ensures ok ==> this.columns == columns && version == old(version) + 1
      ensures !ok ==> this.columns == old(this.columns) && version == old(version)
      ensures status == old(status) && rejectionCount == old(rejectionCount)
    {
      ok := version == seen;
      if ok {
        this.columns, version := columns, version + 1;
      }
    }

    /** UPDATE .. WHERE approval_status = 'pending'. */
    method ApproveAllocation(enforcement: Enforcement) returns (ok: bool)
      modifies this
      ensures ok == (old(status) == Pending)
      ensures View() == if ok then Write(old(View()), Approve(enforcement)) else old(View())
      ensures ok ==> status == Approved && version == old(version) + 1
      ensures ok ==> columns == old(columns).(enforcement := enforcement)
      ensures !ok ==> status == old(status) && version == old(version) && columns == old(columns)
      ensures rejectionCount == old(rejectionCount)
    {
      ok := status == Pending;
      if ok {
        status, columns, version := Approved, columns.(enforcement := enforcement), version + 1;
      }
    }

    /** UPDATE .. WHERE approval_status = 'pending'. */
    method RejectAllocation() returns (ok: bool)
      modifies this
      ensures ok == (old(status) == Pending)
      ensures View() == if ok then Write(old(View()), Reject) else old(View())
      ensures ok ==> status == Rejected && version == old(version) + 1 && rejectionCount == old(rejectionCount) + 1
      ensures !ok ==> status == old(status) && version == old(version) && rejectionCount == old(rejectionCount)
      ensures columns == old(columns)
    {
      ok := status == Pending;
      if ok {
        status, rejectionCount, version := Rejected, rejectionCount + 1, version + 1;
      }
    }

    /** UPDATE .. WHERE approval_status = 'rejected'. */
    method ResetAllocationForResubmit() returns (ok: bool)
      modifies this
      ensures ok == (old(status) == Rejected)
      ensures View() == if ok then Write(old(View()), ResetForResubmit) else old(View())
      ensures ok ==> status == Pending && version == old(version) + 1
      ensures !ok ==> status == old(status) && version == old(version)
      ensures columns == old(columns) && rejectionCount == old(rejectionCount)
    {
      ok := status == Rejected;
      if ok {
        status, version := Pending, version + 1;
      }
    }
  }
}
