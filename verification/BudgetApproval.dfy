/** The approval workflow of a budget: submitted, rejected and resubmitted up to three times. */
module BudgetApproval {
  import opened Model
  import opened Filters

  datatype Deed = Submit | Approve | Reject | Resubmit

  datatype Entry = Entry(attempt: nat, deed: Deed)

  /** A handler call. Whether the caller may decide, gave a reason or created the budget is
      settled outside this model. */
  datatype Call =
    | ApproveCall(mayDecide: bool)
    | RejectCall(mayDecide: bool, reasonGiven: bool)
    | ResubmitCall(isCreator: bool)

  datatype Response = Done | BadRequest | Forbidden | Refused

  /** The approval columns of the budget row, and its budget_approvals rows in order. */
  datatype Workflow = Workflow(status: ApprovalStatus, rejections: nat, history: seq<Entry>)

  const MAX_REJECTIONS := 3

  /** CreateBudget: org users and standalone budgets are approved at once. */
  function Created(autoApproved: bool): Workflow {
    if autoApproved then Workflow(Approved, 0, []) else Workflow(Pending, 0, [Entry(1, Submit)])
  }

  function Answer(w: Workflow, c: Call): Response {
    match c
    case ApproveCall(mayDecide) =>
      if !mayDecide then Forbidden else if w.status != Pending then Refused else Done
    case RejectCall(mayDecide, reasonGiven) =>
      if !reasonGiven then BadRequest
      else if !mayDecide then Forbidden else if w.status != Pending then Refused else Done
    case ResubmitCall(isCreator) =>
      if w.status != Rejected || w.rejections >= MAX_REJECTIONS then Refused
      else if !isCreator then Forbidden else Done
  }

  function DeedOf(c: Call): Deed {
    match c
    case ApproveCall(_) => Approve
    case RejectCall(_, _) => Reject
    case ResubmitCall(_) => Resubmit
  }

  /** The two writes of a handler: the UPDATE sets a status chosen from the row that was read,
      `seen`, and counts a rejection on the current row; the INSERT numbers the attempt from
      what was read. */
  function Write(now: Workflow, seen: Workflow, d: Deed): Workflow {
    var history := now.history + [Entry(seen.rejections + 1, d)];
    match d
    case Reject =>
      Workflow(if seen.rejections + 1 >= MAX_REJECTIONS then Closed else Rejected, now.rejections + 1, history)
    case Approve => Workflow(Approved, now.rejections, history)
    case _ => Workflow(Pending, now.rejections, history)
  }

  /** A handler that nothing interrupts. */
  function Handle(w: Workflow, c: Call): Workflow {
    if Answer(w, c) == Done then Write(w, w, DeedOf(c)) else w
  }

  function Run(start: Workflow, calls: seq<Call>): Workflow {
    if calls == [] then start
    else Handle(Run(start, calls[..|calls| - 1]), calls[|calls| - 1])
  }

  // ---------- what the history can look like ----------

  /** submitted (rejected resubmitted)^n, with the attempt numbers counting up. */
  function Rounds(n: nat): seq<Entry> {
    if n == 0 then [Entry(1, Submit)]
    else Rounds(n - 1) + [Entry(n, Reject), Entry(n + 1, Resubmit)]
  }

  /** The history is fixed by the status and the rejection count. */
  predicate Lawful(w: Workflow) {
    match w.status
    case Pending => w.rejections < MAX_REJECTIONS && w.history == Rounds(w.rejections)
    case Approved =>
      w.rejections < MAX_REJECTIONS && w.history == Rounds(w.rejections) + [Entry(w.rejections + 1, Approve)]
    case Rejected =>
      0 < w.rejections < MAX_REJECTIONS && w.history == Rounds(w.rejections - 1) + [Entry(w.rejections, Reject)]
    case Closed =>
      w.rejections == MAX_REJECTIONS && w.history == Rounds(w.rejections - 1) + [Entry(w.rejections, Reject)]
  }

  lemma {:induction false} RoundsLength(n: nat)
    ensures |Rounds(n)| == 2 * n + 1
  {
    if n > 0 {
      RoundsLength(n - 1);
    }
  }

  lemma {:induction false} HandleIsLawful(w: Workflow, c: Call)
    requires Lawful(w)
    ensures Lawful(Handle(w, c))
  {
    if c.ResubmitCall? && Answer(w, c) == Done {
      assert Rounds(w.rejections - 1) + [Entry(w.rejections, Reject)] + [Entry(w.rejections + 1, Resubmit)]
        == Rounds(w.rejections - 1) + [Entry(w.rejections, Reject), Entry(w.rejections + 1, Resubmit)];
    }
  }

  /** Every run of a submitted budget: at most three rejections, closed exactly at the third,
      and a history submitted (rejected resubmitted)* with at most one final decision. */
  lemma {:induction false} SubmittedBudgetIsLawful(calls: seq<Call>)
    ensures var w := Run(Created(false), calls);
      && Lawful(w)
      && w.rejections <= 3
      && (w.status == Closed <==> w.rejections == 3)
      && 1 <= |w.history| <= 6
  {
    if calls == [] {
      assert Rounds(0) == [Entry(1, Submit)];
    } else {
      SubmittedBudgetIsLawful(calls[..|calls| - 1]);
      HandleIsLawful(Run(Created(false), calls[..|calls| - 1]), calls[|calls| - 1]);
    }
    var w := Run(Created(false), calls);
    RoundsLength(w.rejections);
    if w.rejections > 0 {
      RoundsLength(w.rejections - 1);
    }
  }

  /** Approved and closed are final, whatever is called afterwards. */
  lemma {:induction false} FinalStaysFinal(w: Workflow, calls: seq<Call>)
    requires w.status == Approved || w.status == Closed
    ensures Run(w, calls) == w
  {
    if calls != [] {
      FinalStaysFinal(w, calls[..|calls| - 1]);
    }
  }

  /** Who may make the call, with a reason where one is asked for. */
  predicate Entitled(c: Call) {
    match c
    case ApproveCall(mayDecide) => mayDecide
    case RejectCall(mayDecide, reasonGiven) => mayDecide && reasonGiven
    case ResubmitCall(isCreator) => isCreator
  }

  /** Calls of those who may not make them leave no trace: a run comes to what the entitled calls
      alone come to. */
  lemma {:induction false} OnlyEntitledCallsCount(start: Workflow, calls: seq<Call>)
    ensures Run(start, calls) == Run(start, Filter(calls, Entitled))
  {
    if calls != [] {
      var pre, c := calls[..|calls| - 1], calls[|calls| - 1];
      OnlyEntitledCallsCount(start, pre);
      assert calls == pre + [c];
      FilterAppend(pre, [c], Entitled);
      var kept := Filter(pre, Entitled);
      assert Filter([c], Entitled) == if Entitled(c) then [c] else [];
      if Entitled(c) {
        assert (kept + [c])[..|kept|] == kept;
      } else {
        assert kept + [] == kept;
      }
    }
  }

  /** An entitled call succeeds exactly when the budget is in the status it is for. */
  lemma EntitledCallsSucceedIff(w: Workflow, c: Call)
    requires Entitled(c)
    ensures Answer(w, c) == Done <==>
      if c.ResubmitCall? then w.status == Rejected && w.rejections < 3 else w.status == Pending
    ensures Answer(w, c) == Done || Answer(w, c) == Refused
  {}

  function Rank(s: ApprovalStatus): nat {
    match s
    case Rejected => 2
    case Pending => 1
    case _ => 0
  }

  /** Each successful call brings the workflow closer to its end. */
  lemma ProgressIsStrict(w: Workflow, c: Call)
    requires Lawful(w) && Answer(w, c) == Done
    ensures Handle(w, c).rejections > w.rejections
      || (Handle(w, c).rejections == w.rejections && Rank(Handle(w, c).status) < Rank(w.status))
  {}

  /** The handlers read the row and write it later without checking it again. Such a write
      keeps the workflow lawful iff the row has not changed in between. */
  lemma {:induction false} LateWriteIsLawfulIff(now: Workflow, seen: Workflow, c: Call)
    requires Lawful(now) && Lawful(seen) && Answer(seen, c) == Done
    ensures Lawful(Write(now, seen, DeedOf(c))) <==> now == seen
  {
    HandleIsLawful(seen, c);
    if Lawful(Write(now, seen, DeedOf(c))) {
      var after := Write(now, seen, DeedOf(c));
      Lengths(now);
      Lengths(seen);
      Lengths(after);
      assert |after.history| == |now.history| + 1;
      assert after.history[|now.history|] == Entry(seen.rejections + 1, DeedOf(c));
      LastEntry(after);
    }
  }

  /** A closed budget can be approved by a handler that read it before its third rejection. */
  lemma ClosedCanBeReopened(seen: Workflow)
    requires Lawful(seen) && seen.status == Pending && seen.rejections == 2
    ensures var closed := Handle(seen, RejectCall(true, true));
      closed.status == Closed && Write(closed, seen, Approve).status == Approved
  {}

  lemma Lengths(w: Workflow)
    requires Lawful(w)
    ensures |w.history| == match w.status
      case Pending => 2 * w.rejections + 1
      case Approved => 2 * w.rejections + 2
      case _ => 2 * w.rejections
  {
    RoundsLength(w.rejections);
    if w.rejections > 0 {
      RoundsLength(w.rejections - 1);
    }
  }

  lemma LastEntry(w: Workflow)
    requires Lawful(w) && |w.history| > 0
    ensures w.history[|w.history| - 1] == match w.status
      case Pending => if w.rejections == 0 then Entry(1, Submit) else Entry(w.rejections + 1, Resubmit)
      case Approved => Entry(w.rejections + 1, Approve)
      case _ => Entry(w.rejections, Reject)
  {}

  // ---------- the row itself ----------

  class BudgetRow {
    var status: ApprovalStatus
    var rejectionCount: nat
    var history: seq<Entry>

    ghost function View(): Workflow
      reads this
    {
      Workflow(status, rejectionCount, history)
    }

    constructor (autoApproved: bool)
      ensures View() == Created(autoApproved)
      ensures status == (if autoApproved then Approved else Pending) && rejectionCount == 0
      ensures history == if autoApproved then [] else [Entry(1, Submit)]
    {
      status := if autoApproved then Approved else Pending;
      rejectionCount := 0;
      history := if autoApproved then [] else [Entry(1, Submit)];
    }

    method ApproveBudget(mayDecide: bool) returns (r: Response)
      modifies this
      ensures r == Answer(old(View()), ApproveCall(mayDecide))
      ensures View() == Handle(old(View()), ApproveCall(mayDecide))
      ensures r == Forbidden <==> !mayDecide
      ensures r == Done <==> mayDecide && old(status) == Pending
      ensures r == Done ==> status == Approved && history == old(history) + [Entry(old(rejectionCount) + 1, Approve)]
      ensures r != Done ==> status == old(status) && history == old(history)
      ensures rejectionCount == old(rejectionCount) && r != BadRequest
    {
      if !mayDecide {
        return Forbidden;
      }
      if status != Pending {
        return Refused;
      }
      var attempt := rejectionCount + 1;
      status := Approved;
      history := history + [Entry(attempt, Approve)];
      r := Done;
    }

    method RejectBudget(mayDecide: bool, reasonGiven: bool) returns (r: Response)
      modifies this
      ensures r == Answer(old(View()), RejectCall(mayDecide, reasonGiven))
      ensures View() == Handle(old(View()), RejectCall(mayDecide, reasonGiven))
      ensures r == BadRequest <==> !reasonGiven
      ensures r == Forbidden <==> reasonGiven && !mayDecide
      ensures r == Done <==> reasonGiven && mayDecide && old(status) == Pending
      ensures r == Done ==> rejectionCount == old(rejectionCount) + 1
      ensures r == Done ==> status == if rejectionCount >= 3 then Closed else Rejected
      ensures r == Done ==> history == old(history) + [Entry(rejectionCount, Reject)]
      ensures r != Done ==> View() == old(View())
    {
      if !reasonGiven {
        return BadRequest;
      }
      if !mayDecide {
        return Forbidden;
      }
      if status != Pending {
        return Refused;
      }
      var newRejectionCount := rejectionCount + 1;
      var newStatus := Rejected;
      if newRejectionCount >= MAX_REJECTIONS {
        newStatus := Closed;
      }
      status, rejectionCount := newStatus, rejectionCount + 1;
      history := history + [Entry(newRejectionCount, Reject)];
      r := Done;
    }

    method ResubmitBudget(isCreator: bool) returns (r: Response)
      modifies this
      ensures r == Answer(old(View()), ResubmitCall(isCreator))
      ensures View() == Handle(old(View()), ResubmitCall(isCreator))
      ensures r == Refused <==> old(status) != Rejected || old(rejectionCount) >= 3
      ensures r == Done <==> isCreator && old(status) == Rejected && old(rejectionCount) < 3
      ensures r == Done ==> status == Pending && history == old(history) + [Entry(old(rejectionCount) + 1, Resubmit)]
      ensures r != Done ==> status == old(status) && history == old(history)
      ensures rejectionCount == old(rejectionCount) && r != BadRequest
    {
      if status != Rejected {
        return Refused;
      }
      if rejectionCount >= MAX_REJECTIONS {
        return Refused;
      }
      if !isCreator {
        return Forbidden;
      }
      status := Pending;
      history := history + [Entry(rejectionCount + 1, Resubmit)];
      r := Done;
    }
  }
}
