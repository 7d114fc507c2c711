/** The charging loop of DecrementBudgets: a request's actual cost is poured into the ancestor
chain from the most specific budget up. A non-isolated child takes what still fits, a root
or an isolated budget takes all that is left, and only non-isolated charges are subtracted. */
module BucketFill {
  import opened Model
  import opened RunningMinimum

  /** One turn of the loop: the amount written to the usage record and the amount added to
      the budget's usage. */
  datatype Line = Line(budgetId: Id, recorded: Money, charged: Money, parentCharged: bool)

  /** An ancestor of an isolated budget that was rate limited is not charged. */
  predicate Skipped(chain: seq<Budget>, b: Budget, limitedAt: Option<Id>) {
    && limitedAt.Some?
    && b.id != limitedAt.value
    && (exists x :: x in chain && x.id == limitedAt.value && x.isolated)
    && (exists a :: a in chain && a.parent == Some(b.id))
  }

  /** What fits into a non-isolated child: its amount less its usage, pending not counted. */
  function Fill(b: Budget, rest: Money): Money {
    var room := b.amount - b.usage;
    if room <= 0.0 then 0.0 else if rest > room then room else rest
  }

  function LineFor(chain: seq<Budget>, b: Budget, rest: Money, limitedAt: Option<Id>): Line {
    var skipped := Skipped(chain, b, limitedAt);
    var share := if !skipped && !b.isolated && b.parent.Some? then Fill(b, rest) else rest;
    Line(b.id, share, if !skipped && share > 0.0 then share else 0.0, !skipped)
  }

  function RestAfter(b: Budget, line: Line, rest: Money): Money {
    if b.isolated then rest else rest - line.charged
  }

  /** Cost still to be charged when the loop reaches position `k`. */
  function Rest(chain: seq<Budget>, cost: Money, limitedAt: Option<Id>, k: nat): Money
    requires k <= |chain|
  {
    if k == 0 then cost
    else
      var before := Rest(chain, cost, limitedAt, k - 1);
      RestAfter(chain[k - 1], LineFor(chain, chain[k - 1], before, limitedAt), before)
  }

  function LineAt(chain: seq<Budget>, cost: Money, limitedAt: Option<Id>, k: nat): Line
    requires k < |chain|
  {
    LineFor(chain, chain[k], Rest(chain, cost, limitedAt, k), limitedAt)
  }

  function Lines(chain: seq<Budget>, cost: Money, limitedAt: Option<Id>): (ls: seq<Line>)
    ensures |ls| == |chain|
  {
    seq(|chain|, k requires 0 <= k < |chain| => LineAt(chain, cost, limitedAt, k))
  }

  /** Sum of the first `k` charges of non-isolated, respectively isolated, budgets. */
  ghost function Charged(chain: seq<Budget>, lines: seq<Line>, k: nat, isolated: bool): Money
    requires k <= |chain| == |lines|
  {
    if k == 0 then 0.0
    else Charged(chain, lines, k - 1, isolated)
         + if chain[k - 1].isolated == isolated then lines[k - 1].charged else 0.0
  }

  /** Conservation: at every turn, what non-isolated budgets were charged and what is left add
      up to the actual cost, and what is left only falls. */
  lemma {:induction false} CostIsConserved(chain: seq<Budget>, cost: Money, limitedAt: Option<Id>, k: nat)
    requires cost >= 0.0 && k <= |chain|
    ensures Charged(chain, Lines(chain, cost, limitedAt), k, false) + Rest(chain, cost, limitedAt, k) == cost
    ensures 0.0 <= Rest(chain, cost, limitedAt, k) <= cost
  {
    if k > 0 {
      CostIsConserved(chain, cost, limitedAt, k - 1);
    }
  }

  lemma {:induction false} RestFalls(chain: seq<Budget>, cost: Money, limitedAt: Option<Id>, i: nat, k: nat)
    requires cost >= 0.0 && i <= k <= |chain|
    ensures Rest(chain, cost, limitedAt, k) <= Rest(chain, cost, limitedAt, i)
  {
    if i < k {
      RestFalls(chain, cost, limitedAt, i, k - 1);
      CostIsConserved(chain, cost, limitedAt, k - 1);
    }
  }

  /** Each line in terms of what was left at its turn. */
  lemma LinesAreBounded(chain: seq<Budget>, cost: Money, limitedAt: Option<Id>, k: nat)
    requires cost >= 0.0 && k < |chain|
    ensures var line, rest := LineAt(chain, cost, limitedAt, k), Rest(chain, cost, limitedAt, k);
      && line.budgetId == chain[k].id
      && 0.0 <= line.charged <= rest <= cost
      && (limitedAt.None? && (chain[k].isolated || chain[k].parent.None?) ==> line.charged == rest)
      && (!chain[k].isolated && chain[k].parent.Some? ==>
            chain[k].usage + line.charged <= Max(chain[k].usage, chain[k].amount))
  {
    CostIsConserved(chain, cost, limitedAt, k);
  }

  /** A residual survives a non-isolated child only if that child is full afterwards. */
  lemma ResidualMeansFull(chain: seq<Budget>, cost: Money, k: nat)
    requires cost >= 0.0 && k < |chain|
    requires !chain[k].isolated && Rest(chain, cost, None, k + 1) > 0.0
    ensures chain[k].parent.Some?
    ensures chain[k].amount <= chain[k].usage + LineAt(chain, cost, None, k).charged
  {
    CostIsConserved(chain, cost, None, k);
  }

  /** A non-isolated root takes everything that is left. */
  lemma RootLeavesNothing(chain: seq<Budget>, cost: Money, r: nat, k: nat)
    requires cost >= 0.0 && r < k <= |chain|
    requires !chain[r].isolated && chain[r].parent.None?
    ensures Rest(chain, cost, None, k) == 0.0
  {
    CostIsConserved(chain, cost, None, r);
    RestFalls(chain, cost, None, r + 1, k);
    CostIsConserved(chain, cost, None, k);
  }

  /** Room that the non-isolated children among the first `k` budgets had. */
  ghost function RoomBelow(chain: seq<Budget>, k: nat): Money
    requires k <= |chain|
  {
    if k == 0 then 0.0
    else RoomBelow(chain, k - 1)
         + if chain[k - 1].isolated then 0.0 else Max(0.0, chain[k - 1].amount - chain[k - 1].usage)
  }

  /** The loop computes a closed form: below the root, what is left is the cost less all the
      room of the non-isolated children so far, or nothing. */
  lemma {:induction false} RestIsOverflow(chain: seq<Budget>, cost: Money, k: nat)
    requires cost >= 0.0 && k <= |chain|
    requires forall i :: 0 <= i < k && !chain[i].isolated ==> chain[i].parent.Some?
    ensures Rest(chain, cost, None, k) == Max(0.0, cost - RoomBelow(chain, k))
    ensures RoomBelow(chain, k) >= 0.0
  {
    if k > 0 {
      RestIsOverflow(chain, cost, k - 1);
    }
  }

  /** What reaches position `k`: nothing beyond a non-isolated root, else the cost less the room
      of the non-isolated children before it. */
  ghost function Reaching(chain: seq<Budget>, cost: Money, k: nat): Money
    requires k <= |chain|
  {
    if exists r :: 0 <= r < k && !chain[r].isolated && chain[r].parent.None? then 0.0
    else Max(0.0, cost - RoomBelow(chain, k))
  }

  /** A root or an isolated budget takes all that reaches it, a non-isolated child what fits. */
  ghost function Share(chain: seq<Budget>, cost: Money, k: nat): Money
    requires k < |chain|
  {
    var room := Max(0.0, chain[k].amount - chain[k].usage);
    if chain[k].isolated || chain[k].parent.None? || Reaching(chain, cost, k) <= room
    then Reaching(chain, cost, k) else room
  }

  /** The lines in closed form: each budget records and is charged its share. */
  lemma {:induction false} LinesAreShares(chain: seq<Budget>, cost: Money, k: nat)
    requires cost >= 0.0 && k < |chain|
    ensures Lines(chain, cost, None)[k] == Line(chain[k].id, Share(chain, cost, k), Share(chain, cost, k), true)
  {
    if r :| 0 <= r < k && !chain[r].isolated && chain[r].parent.None? {
      RootLeavesNothing(chain, cost, r, k);
    } else {
      RestIsOverflow(chain, cost, k);
    }
  }

  /** The non-isolated budgets are charged the whole cost together iff one of them is a root or
      the cost fits into their room. */
  lemma {:induction false} WholeCostIsChargedIff(chain: seq<Budget>, cost: Money)
    requires cost >= 0.0
    ensures Charged(chain, Lines(chain, cost, None), |chain|, false) == cost <==>
      || (exists r :: 0 <= r < |chain| && !chain[r].isolated && chain[r].parent.None?)
      || cost <= RoomBelow(chain, |chain|)
  {
    CostIsConserved(chain, cost, None, |chain|);
    if r :| 0 <= r < |chain| && !chain[r].isolated && chain[r].parent.None? {
      RootLeavesNothing(chain, cost, r, |chain|);
    } else {
      RestIsOverflow(chain, cost, |chain|);
    }
  }

  /** A chain as the ancestor query returns it: only the last budget may be a root. */
  ghost predicate EndsAtRoot(chain: seq<Budget>) {
    && chain != []
    && chain[|chain| - 1].parent.None?
    && forall i :: 0 <= i < |chain| - 1 ==> chain[i].parent.Some?
  }

  ghost function TotalCharged(chain: seq<Budget>, cost: Money): Money {
    var lines := Lines(chain, cost, None);
    Charged(chain, lines, |chain|, false) + Charged(chain, lines, |chain|, true)
  }

  /** The architecture notes promise that the parent of an isolated budget is not charged. The
      code charges a cost exactly once iff no isolated budget has anything left to take. */
  lemma {:induction false} ChargedOnceIff(chain: seq<Budget>, cost: Money)
    requires cost >= 0.0 && EndsAtRoot(chain) && !chain[|chain| - 1].isolated
    ensures TotalCharged(chain, cost) == cost <==>
      forall i :: 0 <= i < |chain| && chain[i].isolated ==> cost <= RoomBelow(chain, i)
  {
    var n := |chain|;
    CostIsConserved(chain, cost, None, n);
    RootLeavesNothing(chain, cost, n - 1, n);
    IsolatedChargesAdd(chain, cost, n);
    forall i | 0 <= i < n && chain[i].isolated
      ensures LineAt(chain, cost, None, i).charged == Max(0.0, cost - RoomBelow(chain, i))
    {
      RestIsOverflow(chain, cost, i);
      LinesAreBounded(chain, cost, None, i);
    }
  }

  lemma {:induction false} IsolatedChargesAdd(chain: seq<Budget>, cost: Money, k: nat)
    requires cost >= 0.0 && k <= |chain|
    ensures Charged(chain, Lines(chain, cost, None), k, true) >= 0.0
    ensures Charged(chain, Lines(chain, cost, None), k, true) == 0.0 <==>
      forall i :: 0 <= i < k && chain[i].isolated ==> LineAt(chain, cost, None, i).charged == 0.0
  {
    if k > 0 {
      IsolatedChargesAdd(chain, cost, k - 1);
      LinesAreBounded(chain, cost, None, k - 1);
    }
  }

  /** An isolated team below an org: both are charged the whole cost. */
  lemma IsolatedParentIsChargedToo(team: Budget, org: Budget, cost: Money)
    requires cost > 0.0
    requires team.isolated && team.parent == Some(org.id) && org.parent.None? && !org.isolated
    ensures Lines([team, org], cost, None)
      == [Line(team.id, cost, cost, true), Line(org.id, cost, cost, true)]
  {
    var chain := [team, org];
    assert Rest(chain, cost, None, 0) == cost;
    assert Rest(chain, cost, None, 1) == cost;
  }

  /** The usage record agrees with the charge on every budget iff the cost is not negative: the
      last budget of a chain is a root and records the cost it did not charge. */
  lemma RecordsAgreeIff(chain: seq<Budget>, cost: Money)
    requires EndsAtRoot(chain)
    ensures (forall k :: 0 <= k < |chain| ==>
               LineAt(chain, cost, None, k).recorded == LineAt(chain, cost, None, k).charged)
      <==> cost >= 0.0
  {
    if cost >= 0.0 {
      forall k | 0 <= k < |chain|
        ensures LineAt(chain, cost, None, k).recorded == LineAt(chain, cost, None, k).charged
      {
        CostIsConserved(chain, cost, None, k);
      }
    } else {
      NegativeStays(chain, cost, None, |chain| - 1);
      var line := LineAt(chain, cost, None, |chain| - 1);
      assert line.recorded < 0.0 && line.charged == 0.0;
    }
  }

  lemma {:induction false} NegativeStays(chain: seq<Budget>, cost: Money, limitedAt: Option<Id>, k: nat)
    requires cost <= 0.0 && k <= |chain|
    ensures Rest(chain, cost, limitedAt, k) == cost
    ensures k < |chain| ==> LineAt(chain, cost, limitedAt, k).charged == 0.0
  {
    if k > 0 {
      NegativeStays(chain, cost, limitedAt, k - 1);
    }
  }

  /** A negative cost charges nobody, and is recorded by every budget but full non-isolated
      children. */
  lemma {:induction false} NegativeLines(chain: seq<Budget>, cost: Money, k: nat)
    requires cost < 0.0 && k < |chain|
    ensures var b := chain[k];
      Lines(chain, cost, None)[k]
        == Line(b.id, if !b.isolated && b.parent.Some? && b.amount <= b.usage then 0.0 else cost, 0.0, true)
  {
    NegativeStays(chain, cost, None, k);
  }

  /** Who is passed over: with a rate-limited isolated budget in the chain, the parents of the
      chain other than itself. They are not charged. */
  lemma PassedOverIff(chain: seq<Budget>, cost: Money, limitedAt: Option<Id>, k: nat)
    requires k < |chain|
    ensures !Lines(chain, cost, limitedAt)[k].parentCharged <==>
      && limitedAt.Some? && chain[k].id != limitedAt.value
      && (exists i :: 0 <= i < |chain| && chain[i].id == limitedAt.value && chain[i].isolated)
      && (exists i :: 0 <= i < |chain| && chain[i].parent == Some(chain[k].id))
    ensures !Lines(chain, cost, limitedAt)[k].parentCharged ==> Lines(chain, cost, limitedAt)[k].charged == 0.0
  {}

  /** Were a rate-limited isolated budget ever passed in, its parent's record would show a
      cost that was never charged. */
  lemma SkippedRecordsDisagree(team: Budget, org: Budget, cost: Money)
    requires cost > 0.0 && team.isolated && team.parent == Some(org.id) && team.id != org.id
    ensures var line := LineAt([team, org], cost, Some(team.id), 1);
      line.recorded == cost && line.charged == 0.0 && !line.parentCharged
  {
    var chain := [team, org];
    assert team in chain;
    assert Rest(chain, cost, Some(team.id), 0) == cost;
    assert Rest(chain, cost, Some(team.id), 1) == cost;
    assert Skipped(chain, org, Some(team.id));
  }

  /** What each budget has left once its line is recorded, holds included. */
  function Remainders(chain: seq<Budget>, cost: Money, limitedAt: Option<Id>): (xs: seq<Money>)
    ensures |xs| == |chain|
  {
    seq(|chain|, k requires 0 <= k < |chain| =>
      chain[k].Remaining() - LineAt(chain, cost, limitedAt, k).recorded)
  }

  /** Over the columns, for a cost that is not negative: what is left after the budget's share. */
  lemma RemaindersAre(chain: seq<Budget>, cost: Money, k: nat)
    requires cost >= 0.0 && k < |chain|
    ensures Remainders(chain, cost, None)[k] == chain[k].amount - chain[k].usage - chain[k].pending - Share(chain, cost, k)
  {
    LinesAreShares(chain, cost, k);
  }

  lemma RemainingStep(chain: seq<Budget>, cost: Money, limitedAt: Option<Id>, k: nat, m: Money)
    requires k < |chain| && Tracks(Remainders(chain, cost, limitedAt), k, m)
    ensures var left := chain[k].Remaining() - LineAt(chain, cost, limitedAt, k).recorded;
      Tracks(Remainders(chain, cost, limitedAt), k + 1, if m < 0.0 || left < m then left else m)
  {
    TracksStep(Remainders(chain, cost, limitedAt), k, m);
  }

  /** The loop of DecrementBudgets, with its running remainder. */
  method ChargeChain(chain: seq<Budget>, cost: Money, limitedAt: Option<Id>)
    returns (lines: seq<Line>, minRemaining: Money)
    ensures lines == Lines(chain, cost, limitedAt)
    ensures Tracks(Remainders(chain, cost, limitedAt), |chain|, minRemaining)
  {
    hide Tracks, Remainders;
    NothingTracked(Remainders(chain, cost, limitedAt));
    lines, minRemaining := [], -1.0;
    var rest := cost;
    for k := 0 to |chain|
      invariant rest == Rest(chain, cost, limitedAt, k)
      invariant lines == Lines(chain, cost, limitedAt)[..k]
      invariant Tracks(Remainders(chain, cost, limitedAt), k, minRemaining)
    {
      var budget := chain[k];
      var shouldCharge, parentCharged := true, true;
      var chargeAmount := rest;
      if Skipped(chain, budget, limitedAt) {
        shouldCharge, parentCharged := false, false;
      }
      if shouldCharge && !budget.isolated && budget.parent.Some? {
        var room := budget.amount - budget.usage;
        if room <= 0.0 {
          chargeAmount := 0.0;
        } else if rest > room {
          chargeAmount := room;
        }
      }
      var charged := 0.0;
      if shouldCharge && chargeAmount > 0.0 {
        charged := chargeAmount;
        if !budget.isolated {
          rest := rest - chargeAmount;
        }
      }
      lines := lines + [Line(budget.id, chargeAmount, charged, parentCharged)];
      var remaining := budget.amount - budget.usage - chargeAmount - budget.pending;
      RemainingStep(chain, cost, limitedAt, k, minRemaining);
      if minRemaining < 0.0 || remaining < minRemaining {
        minRemaining := remaining;
      }
      assert lines[k] == LineAt(chain, cost, limitedAt, k);
    }
  }
}
