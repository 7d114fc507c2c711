/** Two ways of numbering approval attempts: budgets count rejections, allocations take the
largest number in the history. */
module AttemptNumbers {
  import opened Model
  import opened BudgetApproval

  /** COALESCE(MAX(attempt_number), 0) */
  function LatestAttempt(history: seq<Entry>): nat {
    if history == [] then 0
    else
      var rest := LatestAttempt(history[..|history| - 1]);
      var last := history[|history| - 1].attempt;
      if rest < last then last else rest
  }

  /** The number an allocation handler gives its record. */
  function AllocationAttempt(history: seq<Entry>, d: Deed): nat {
    var latest := LatestAttempt(history);
    if d == Resubmit then latest + 1 else if latest == 0 then 1 else latest
  }

  /** Whatever the history: a decision carries the largest number so far, a resubmission the next
      one, and the first record is number 1. */
  lemma {:induction false} AttemptIsLatest(history: seq<Entry>, d: Deed)
    ensures var n := AllocationAttempt(history, d);
      var latest := if d == Resubmit then n - 1 else n;
      && n >= 1
      && (forall i :: 0 <= i < |history| ==> history[i].attempt <= latest)
      && (n == 1 || exists i :: 0 <= i < |history| && history[i].attempt == latest)
  {
    LatestIsLargest(history);
  }

  lemma {:induction false} LatestIsLargest(history: seq<Entry>)
    ensures forall i :: 0 <= i < |history| ==> history[i].attempt <= LatestAttempt(history)
    ensures LatestAttempt(history) == 0 || exists i :: 0 <= i < |history| && history[i].attempt == LatestAttempt(history)
  {
    if history != [] {
      var front := history[..|history| - 1];
      LatestIsLargest(front);
      if i :| 0 <= i < |front| && front[i].attempt == LatestAttempt(front) {
        assert history[i].attempt == LatestAttempt(front);
      }
      assert history[|history| - 1].attempt <= LatestAttempt(history);
    }
  }

  /** The allocation handlers, one after the other, on the same columns; there is no limit on
      rejections. */
  function HandleAllocation(w: Workflow, d: Deed): Workflow {
    var history := w.history + [Entry(AllocationAttempt(w.history, d), d)];
    match d
    case Approve => if w.status == Pending then Workflow(Approved, w.rejections, history) else w
    case Reject => if w.status == Pending then Workflow(Rejected, w.rejections + 1, history) else w
    case Resubmit => if w.status == Rejected then Workflow(Pending, w.rejections, history) else w
    case Submit => w
  }

  /** The same request from somebody who may make it. */
  function CallFor(d: Deed): Call
    requires d != Submit
  {
    match d
    case Approve => ApproveCall(true)
    case Reject => RejectCall(true, true)
    case Resubmit => ResubmitCall(true)
  }

  ghost predicate NoSubmit(deeds: seq<Deed>) {
    forall i :: 0 <= i < |deeds| ==> deeds[i] != Submit
  }

  function RunBudget(deeds: seq<Deed>): Workflow
    requires NoSubmit(deeds)
  {
    if deeds == [] then Created(false)
    else Handle(RunBudget(deeds[..|deeds| - 1]), CallFor(deeds[|deeds| - 1]))
  }

  function RunAllocation(deeds: seq<Deed>): Workflow {
    if deeds == [] then Created(false)
    else HandleAllocation(RunAllocation(deeds[..|deeds| - 1]), deeds[|deeds| - 1])
  }

  lemma {:induction false} RoundsLatest(n: nat)
    ensures LatestAttempt(Rounds(n)) == n + 1
  {
    if n > 0 {
      RoundsLatest(n - 1);
      var one := Rounds(n - 1) + [Entry(n, Reject)];
      assert one[..|one| - 1] == Rounds(n - 1);
      assert Rounds(n)[..|Rounds(n)| - 1] == one;
    }
  }

  lemma {:induction false} LawfulLatest(w: Workflow)
    requires Lawful(w) && (w.status == Pending || w.status == Rejected)
    ensures LatestAttempt(w.history) == if w.status == Pending then w.rejections + 1 else w.rejections
  {
    if w.status == Pending {
      RoundsLatest(w.rejections);
    } else {
      RoundsLatest(w.rejections - 1);
      assert w.history[..|w.history| - 1] == Rounds(w.rejections - 1);
    }
  }

  lemma {:induction false} BudgetRunIsLawful(deeds: seq<Deed>)
    requires NoSubmit(deeds)
    ensures Lawful(RunBudget(deeds))
  {
    if deeds == [] {
      assert Rounds(0) == [Entry(1, Submit)];
    } else {
      BudgetRunIsLawful(deeds[..|deeds| - 1]);
      HandleIsLawful(RunBudget(deeds[..|deeds| - 1]), CallFor(deeds[|deeds| - 1]));
    }
  }

  /** One more request to two workflows that agree. */
  lemma {:induction false} NumbersAgreeOnce(w: Workflow, d: Deed)
    requires Lawful(w) && w.status != Closed && d != Submit
    ensures var b, a := Handle(w, CallFor(d)), HandleAllocation(w, d);
      if b.status == Closed then b.history == a.history && a.rejections >= MAX_REJECTIONS else a == b
  {
    hide LatestAttempt, Rounds;
    if w.status == Pending || w.status == Rejected {
      LawfulLatest(w);
    }
  }

  /** Given the same requests both workflows write the same records with the same numbers up to
      the third rejection. There the budget closes, and its history stays the beginning of the
      allocation's. */
  lemma {:induction false} NumbersAgree(deeds: seq<Deed>)
    requires NoSubmit(deeds)
    ensures var b, a := RunBudget(deeds), RunAllocation(deeds);
      if b.status == Closed then b.history <= a.history && a.rejections >= MAX_REJECTIONS else a == b
  {
    hide LatestAttempt, Rounds, Lawful;
    if deeds != [] {
      var pre, d := deeds[..|deeds| - 1], deeds[|deeds| - 1];
      NumbersAgree(pre);
      BudgetRunIsLawful(pre);
      if RunBudget(pre).status != Closed {
        NumbersAgreeOnce(RunBudget(pre), d);
      }
    }
  }

  /** After the third rejection the workflows part: the allocation is resubmitted as attempt 4. */
  lemma {:induction false} WorkflowsPart(deeds: seq<Deed>)
    requires NoSubmit(deeds) && RunBudget(deeds).status == Pending && RunBudget(deeds).rejections == 2
    ensures RunBudget(deeds + [Reject, Resubmit]).status == Closed
    ensures RunAllocation(deeds + [Reject, Resubmit]).status == Pending
    ensures RunAllocation(deeds + [Reject, Resubmit]).history
      == RunBudget(deeds + [Reject, Resubmit]).history + [Entry(4, Resubmit)]
  {
    var third := deeds + [Reject];
    assert third[..|third| - 1] == deeds;
    assert (deeds + [Reject, Resubmit])[..|deeds| + 1] == third;
    NumbersAgree(deeds);
    BudgetRunIsLawful(deeds);
    BudgetRunIsLawful(third);
    RoundsLatest(2);
    var closed := RunBudget(third);
    assert closed.status == Closed;
    assert closed.history[..|closed.history| - 1] == Rounds(2);
    assert RunAllocation(third).history == closed.history;
  }
}
