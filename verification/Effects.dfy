/** The transactions as the code commits them. Some use what they read earlier, outside any lock: a
completion carries the reservation and the chain it read, and a cleanup is a SELECT of sums, a
DELETE and one UPDATE per sum. */
module Effects {
  import opened Model
  import opened Ledger
  import opened HoldLaws
  import opened SpendLaws
  import BucketFill
  import HierarchySort

  /** An UPDATE of a cleanup that is still to be run. */
  datatype Due = Due(id: Id, amount: Money)

  datatype World = World(db: Db, due: seq<Due>)

  const BLANK := World(EMPTY, [])

  /** - `Whole`: a transaction that locks what it reads.
      - `Completion`: the transaction of DecrementBudgets.
      - `Purge`: the DELETE of a cleanup that summed `sums` before.
      - `Settle`: one of the UPDATEs that are due. */
  datatype Effect =
    | Whole(step: Step)
    | Completion(res: Reservation, cost: Money, chain: Rows, limitedAt: Option<Id>)
    | Purge(now: Instant, sums: seq<Due>)
    | Settle(k: nat)

  function Do(w: World, e: Effect): World {
    match e
    case Whole(s) => w.(db := Apply(w.db, s))
    case Completion(res, cost, chain, limitedAt) => w.(db := CommitCompletion(w.db, res, cost, chain, limitedAt))
    case Purge(now, sums) =>
      World(w.db.(reservations := Unexpired(w.db.reservations, now)), w.due + sums)
    case Settle(k) =>
      if k < |w.due|
      then World(w.db.(budgets := ReleaseOn(w.db.budgets, w.due[k].id, w.due[k].amount)), w.due[..k] + w.due[k + 1..])
      else w
  }

  function Play(effects: seq<Effect>): World {
    if effects == [] then BLANK
    else Do(Play(effects[..|effects| - 1]), effects[|effects| - 1])
  }

  // ---------- when a completion is the serial one ----------

  /** What releasing a reservation takes off its budget's pending amount. */
  function Dropped(t: BudgetTable, res: Reservation): Money {
    if res.budgetId in t then t[res.budgetId].pending - Release(t[res.budgetId], res.estimate).pending else 0.0
  }

  predicate SameRelease(t: BudgetTable, a: Reservation, b: Reservation) {
    Dropped(t, a) == Dropped(t, b) && (Dropped(t, a) != 0.0 ==> a.budgetId == b.budgetId)
  }

  /** The serial completion reads the request's oldest reservation when it commits. One that
      read `res` earlier has the same effect iff the request still has a reservation and
      releasing its oldest is releasing `res`. */
  lemma {:induction false} CompletionIsSerialIff(db: Db, res: Reservation, cost: Money, chain: Rows, limitedAt: Option<Id>)
    requires HierarchySort.Sorted(chain) != [] && IdsOf(HierarchySort.Sorted(chain)) <= db.budgets.Keys
    ensures CommitCompletion(db, res, cost, chain, limitedAt) == Apply(db, Complete(res.requestId, cost, chain, limitedAt))
      <==> First(db.reservations, res.requestId).Some?
           && SameRelease(db.budgets, First(db.reservations, res.requestId).value, res)
  {
    var first := First(db.reservations, res.requestId);
    var lines := BucketFill.Lines(HierarchySort.Sorted(chain), cost, limitedAt);
    assert |NewRecords(lines, res.requestId)| > 0;
    if first.Some? {
      var charged := ChargeAll(db.budgets, lines);
      ReleasesAlike(charged, first.value, res);
      assert forall r: Reservation :: Dropped(charged, r) == Dropped(db.budgets, r);
    }
  }

  lemma {:induction false} ReleasesAlike(t: BudgetTable, a: Reservation, b: Reservation)
    ensures ReleaseOn(t, a.budgetId, a.estimate) == ReleaseOn(t, b.budgetId, b.estimate) <==> SameRelease(t, a, b)
  {
    var x, y := ReleaseOn(t, a.budgetId, a.estimate), ReleaseOn(t, b.budgetId, b.estimate);
    forall r | r == a || r == b
      ensures r.budgetId in t ==>
        ReleaseOn(t, r.budgetId, r.estimate)[r.budgetId].pending == t[r.budgetId].pending - Dropped(t, r)
      ensures Dropped(t, r) == 0.0 ==> ReleaseOn(t, r.budgetId, r.estimate) == t
    {
      if Dropped(t, r) == 0.0 && r.budgetId in t {
        assert Release(t[r.budgetId], r.estimate) == t[r.budgetId];
      }
    }
  }

  /** So a completion whose reservation is still the request's oldest is serial, and one whose
      request has nothing left is not: the serial one would charge nothing. */
  lemma CompletionIsSerialIfThere(db: Db, res: Reservation, cost: Money, chain: Rows, limitedAt: Option<Id>)
    requires HierarchySort.Sorted(chain) != [] && IdsOf(HierarchySort.Sorted(chain)) <= db.budgets.Keys
    requires First(db.reservations, res.requestId).Some? ==> First(db.reservations, res.requestId).value == res
    ensures CommitCompletion(db, res, cost, chain, limitedAt) == Apply(db, Complete(res.requestId, cost, chain, limitedAt))
      <==> res in db.reservations
  {
    CompletionIsSerialIff(db, res, cost, chain, limitedAt);
    if res in db.reservations {
      FirstIfAny(db.reservations, res);
    }
  }

  lemma {:induction false} FirstIfAny(rs: seq<Reservation>, res: Reservation)
    requires res in rs
    ensures First(rs, res.requestId).Some?
  {
    if rs[0].requestId != res.requestId {
      FirstIfAny(rs[1..], res);
    }
  }

  // ---------- every sequence of effects ----------

  predicate SaneEffect(e: Effect) {
    match e
    case Whole(s) => Sane(s)
    case Purge(_, sums) => forall i :: 0 <= i < |sums| ==> sums[i].amount >= 0.0
    case _ => true
  }

  predicate SanePlay(effects: seq<Effect>) {
    forall i :: 0 <= i < |effects| ==> SaneEffect(effects[i])
  }

  /** Sum of the UPDATEs on a budget that are still due. */
  ghost function Owed(due: seq<Due>, b: Id): Money {
    if due == [] then 0.0
    else (if due[0].id == b then due[0].amount else 0.0) + Owed(due[1..], b)
  }

  lemma {:induction false} OwedAppend(xs: seq<Due>, ys: seq<Due>, b: Id)
    ensures Owed(xs + ys, b) == Owed(xs, b) + Owed(ys, b)
  {
    if xs == [] {
      assert xs + ys == ys;
    } else {
      assert (xs + ys)[1..] == xs[1..] + ys;
      OwedAppend(xs[1..], ys, b);
    }
  }

  lemma {:induction false} OwedWithout(due: seq<Due>, k: nat, b: Id)
    requires k < |due|
    ensures Owed(due[..k] + due[k + 1..], b) == Owed(due, b) - if due[k].id == b then due[k].amount else 0.0
  {
    assert due == due[..k] + ([due[k]] + due[k + 1..]);
    OwedAppend(due[..k], [due[k]] + due[k + 1..], b);
    OwedAppend(due[..k], due[k + 1..], b);
    assert ([due[k]] + due[k + 1..])[1..] == due[k + 1..];
  }

  lemma {:induction false} OwedIsPositive(due: seq<Due>, b: Id)
    requires forall i :: 0 <= i < |due| ==> due[i].amount >= 0.0
    ensures Owed(due, b) >= 0.0
  {
    if due != [] {
      OwedIsPositive(due[1..], b);
    }
  }

  ghost predicate Sound(w: World) {
    Consistent(w.db) && forall i :: 0 <= i < |w.due| ==> w.due[i].amount >= 0.0
  }

  lemma {:induction false} DoKeepsSound(w: World, e: Effect)
    requires Sound(w) && SaneEffect(e)
    ensures Sound(Do(w, e))
  {
    match e
    case Whole(s) => StepKeepsConsistent(w.db, s);
    case Completion(res, _, _, _) =>
      WithoutMembers(w.db.reservations, res.requestId);
      RowsInByMembers(Without(w.db.reservations, res.requestId), w.db.budgets.Keys);
    case Purge(now, _) =>
      UnexpiredMembers(w.db.reservations, now);
      RowsInByMembers(Unexpired(w.db.reservations, now), w.db.budgets.Keys);
    case Settle(k) =>
  }

  lemma {:induction false} PlayIsSound(effects: seq<Effect>)
    requires SanePlay(effects)
    ensures Sound(Play(effects))
  {
    if effects != [] {
      PlayIsSound(effects[..|effects| - 1]);
      DoKeepsSound(Play(effects[..|effects| - 1]), effects[|effects| - 1]);
    }
  }

  // ---------- the overspend bound without any locking discipline ----------

  /** What an effect charges or releases on `b` beyond what it takes off the live reservations:
      a completion beyond what its request still holds, a cleanup beyond what it deletes. */
  ghost function ExcessOf(w: World, e: Effect, b: Id): Money {
    match e
    case Whole(s) => StepExcess(w.db, s, b)
    case Completion(res, cost, chain, _) => CompletionExcess(w.db, res, cost, chain, b)
    case Purge(now, sums) => Max(0.0, Owed(sums, b) - ExpiredOn(w.db.reservations, b, now))
    case Settle(_) => 0.0
  }

  /** What was live or still due when the budget was last reset. */
  ghost function OpenAtReset(effects: seq<Effect>, b: Id): Money {
    if effects == [] then 0.0
    else
      var w, e := Play(effects[..|effects| - 1]), effects[|effects| - 1];
      if b !in w.db.budgets then 0.0
      else if e == Whole(Reset(b)) then Held(w.db.reservations, b) + Owed(w.due, b)
      else OpenAtReset(effects[..|effects| - 1], b)
  }

  /** All the excess since the budget was created or last reset. */
  ghost function Excess(effects: seq<Effect>, b: Id): Money {
    if effects == [] then 0.0
    else
      var w, e := Play(effects[..|effects| - 1]), effects[|effects| - 1];
      if b !in w.db.budgets || e == Whole(Reset(b)) then 0.0
      else Excess(effects[..|effects| - 1], b) + ExcessOf(w, e, b)
  }

  /** The budget keeps its terms, and its id was never used before it was created. */
  ghost predicate OnTerms(w: World, e: Effect, b: Id) {
    (e.Whole? ==> KeepsTerms(w.db, e.step, b))
    && (b !in w.db.budgets && b in Do(w, e).db.budgets ==> Owed(w.due, b) == 0.0)
  }

  ghost predicate PlayOnTerms(effects: seq<Effect>, b: Id) {
    forall i :: 0 <= i < |effects| ==> OnTerms(Play(effects[..i]), effects[i], b)
  }

  lemma OnTermsPrefix(effects: seq<Effect>, b: Id)
    requires effects != [] && PlayOnTerms(effects, b)
    ensures PlayOnTerms(effects[..|effects| - 1], b)
    ensures OnTerms(Play(effects[..|effects| - 1]), effects[|effects| - 1], b)
  {
    var pre := effects[..|effects| - 1];
    forall i | 0 <= i < |pre|
      ensures OnTerms(Play(pre[..i]), pre[i], b)
    {
      assert pre[..i] == effects[..i];
    }
  }

  lemma {:induction false} DoKeepsLimit(w: World, e: Effect, b: Id, slack: Money)
    requires Sound(w) && SaneEffect(e) && OnTerms(w, e, b)
    requires b in w.db.budgets && b in Do(w, e).db.budgets
    requires KeepsLimit(w.db.budgets[b], Held(w.db.reservations, b), Owed(w.due, b), slack)
    ensures var w' := Do(w, e);
      KeepsLimit(w'.db.budgets[b], Held(w'.db.reservations, b), Owed(w'.due, b),
        if e == Whole(Reset(b)) then Held(w.db.reservations, b) + Owed(w.due, b) else slack + ExcessOf(w, e, b))
  {
    OwedIsPositive(w.due, b);
    match e
    case Whole(s) => StepKeepsLimit(w.db, s, b, Owed(w.due, b), slack);
    case Completion(res, cost, chain, limitedAt) =>
      CompletionKeepsLimit(w.db, res, cost, chain, limitedAt, b, Owed(w.due, b), slack);
    case Purge(now, sums) =>
      OwedAppend(w.due, sums, b);
      HeldUnexpired(w.db.reservations, b, now);
      HeldBounds(w.db.reservations, w.db.budgets.Keys, b, "", now);
    case Settle(k) =>
      if k < |w.due| {
        OwedWithout(w.due, k, b);
      }
  }

  /** The overspend bound of the code as it runs, for every sequence of effects, stale or not:
      usage and live reservations stay within the amount, plus what was open at the last reset,
      plus all that was charged or released beyond what was still held. */
  lemma {:induction false} OverspendIsAccountedFor(effects: seq<Effect>, b: Id)
    requires SanePlay(effects) && PlayOnTerms(effects, b) && b in Play(effects).db.budgets
    ensures var w := Play(effects);
      && w.db.budgets[b].usage + Held(w.db.reservations, b)
           <= w.db.budgets[b].amount + OpenAtReset(effects, b) + Excess(effects, b)
      && KeepsLimit(w.db.budgets[b], Held(w.db.reservations, b), Owed(w.due, b), OpenAtReset(effects, b) + Excess(effects, b))
  {
    var pre, e := effects[..|effects| - 1], effects[|effects| - 1];
    OnTermsPrefix(effects, b);
    PlayIsSound(pre);
    if b in Play(pre).db.budgets {
      OverspendIsAccountedFor(pre, b);
      DoKeepsLimit(Play(pre), e, b, OpenAtReset(pre, b) + Excess(pre, b));
    } else {
      NewBudgetHoldsNothing(Play(pre).db, e.step, b);
    }
  }

  // ---------- without stale reads, and with them ----------

  /** A completion charges at most what it estimated. */
  predicate CostsAtMostEstimate(e: Effect) {
    e.Completion? ==> e.cost <= e.res.estimate && 0.0 <= e.res.estimate
  }

  /** The request of a completion still holds its estimate on `b`, if that concerns it; a
      cleanup deletes what it summed. */
  ghost predicate Prompt(w: World, e: Effect, b: Id) {
    match e
    case Whole(s) => StepExcess(w.db, s, b) == 0.0
    case Completion(res, _, chain, _) =>
      b in IdsOf(chain) + {res.budgetId} ==> HeldBy(w.db.reservations, b, res.requestId) == res.estimate
    case Purge(now, sums) => Owed(sums, b) <= ExpiredOn(w.db.reservations, b, now)
    case Settle(_) => true
  }

  /** The estimates charged or released without being held any more, since the last reset: those
      of completions whose reservation had gone, and what cleanups summed but did not delete
      themselves. */
  ghost function Unbacked(effects: seq<Effect>, b: Id): Money {
    if effects == [] then 0.0
    else
      var w, e := Play(effects[..|effects| - 1]), effects[|effects| - 1];
      if b !in w.db.budgets || e == Whole(Reset(b)) then 0.0
      else Unbacked(effects[..|effects| - 1], b) + DoubleOf(w, e, b)
  }

  ghost function DoubleOf(w: World, e: Effect, b: Id): Money {
    if Prompt(w, e, b) then 0.0
    else
      match e
      case Whole(s) => StepExcess(w.db, s, b)
      case Completion(res, _, _, _) => res.estimate
      case Purge(now, sums) => Owed(sums, b) - ExpiredOn(w.db.reservations, b, now)
      case Settle(_) => 0.0
  }

  lemma {:induction false} ExcessIsDouble(w: World, e: Effect, b: Id)
    requires Sound(w) && CostsAtMostEstimate(e)
    ensures ExcessOf(w, e, b) <= DoubleOf(w, e, b)
  {
    if e.Completion? {
      HeldBounds(w.db.reservations, w.db.budgets.Keys, b, e.res.requestId, 0);
    }
  }

  /** The degraded bound: when no completion costs more than its estimate, a budget overshoots
      its amount by what was open at its last reset and by the unbacked estimates. */
  lemma {:induction false} StaleReadsCostTheirEstimates(effects: seq<Effect>, b: Id)
    requires SanePlay(effects) && PlayOnTerms(effects, b) && b in Play(effects).db.budgets
    requires forall i :: 0 <= i < |effects| ==> CostsAtMostEstimate(effects[i])
    ensures var w := Play(effects);
      w.db.budgets[b].usage + Held(w.db.reservations, b)
        <= w.db.budgets[b].amount + OpenAtReset(effects, b) + Unbacked(effects, b)
  {
    OverspendIsAccountedFor(effects, b);
    ExcessIsUnbacked(effects, b);
  }

  lemma {:induction false} ExcessIsUnbacked(effects: seq<Effect>, b: Id)
    requires SanePlay(effects) && forall i :: 0 <= i < |effects| ==> CostsAtMostEstimate(effects[i])
    ensures Excess(effects, b) <= Unbacked(effects, b)
  {
    if effects != [] {
      var pre := effects[..|effects| - 1];
      ExcessIsUnbacked(pre, b);
      PlayIsSound(pre);
      ExcessIsDouble(Play(pre), effects[|effects| - 1], b);
    }
  }

  ghost predicate PromptPlay(effects: seq<Effect>, b: Id) {
    forall i :: 0 <= i < |effects| ==> Prompt(Play(effects[..i]), effects[i], b)
  }

  lemma {:induction false} PromptIsBacked(effects: seq<Effect>, b: Id)
    requires PromptPlay(effects, b)
    ensures Unbacked(effects, b) == 0.0
  {
    if effects != [] {
      var pre := effects[..|effects| - 1];
      forall i | 0 <= i < |pre|
        ensures Prompt(Play(pre[..i]), pre[i], b)
      {
        assert pre[..i] == effects[..i];
      }
      PromptIsBacked(pre, b);
      assert Prompt(Play(effects[..|pre|]), effects[|pre|], b);
    }
  }

  /** Without stale reads the bound is the one of the sequential ledger. */
  lemma {:induction false} PromptPlayKeepsLimit(effects: seq<Effect>, b: Id)
    requires SanePlay(effects) && PlayOnTerms(effects, b) && b in Play(effects).db.budgets
    requires forall i :: 0 <= i < |effects| ==> CostsAtMostEstimate(effects[i])
    requires PromptPlay(effects, b)
    ensures var w := Play(effects);
      w.db.budgets[b].usage + Held(w.db.reservations, b) <= w.db.budgets[b].amount + OpenAtReset(effects, b)
  {
    StaleReadsCostTheirEstimates(effects, b);
    PromptIsBacked(effects, b);
  }

  // ---------- the statements of a cleanup ----------

  /** SELECT budget_id, SUM(estimated_cost_usd) .. GROUP BY budget_id, with its groups in order. */
  function SumsOf(rs: seq<Reservation>, groups: seq<Id>, now: Instant): (sums: seq<Due>)
    ensures |sums| == |groups|
  {
    seq(|groups|, i requires 0 <= i < |groups| => Due(groups[i], ExpiredOn(rs, groups[i], now)))
  }

  ghost predicate AreGroups(rs: seq<Reservation>, groups: seq<Id>, now: Instant) {
    Distinct(groups) && forall i :: i in groups <==> HasExpired(rs, i, now)
  }

  /** A cleanup with the groups of `done` released. */
  function ReleaseDone(t: BudgetTable, rs: seq<Reservation>, now: Instant, done: set<Id>): BudgetTable {
    map i | i in t :: if i in done then Release(t[i], ExpiredOn(rs, i, now)) else t[i]
  }

  lemma ReleaseNext(t: BudgetTable, rs: seq<Reservation>, now: Instant, done: set<Id>, id: Id)
    requires id !in done
    ensures ReleaseDone(t, rs, now, done + {id})
      == ReleaseOn(ReleaseDone(t, rs, now, done), id, ExpiredOn(rs, id, now))
  {}

  lemma ReleaseNone(t: BudgetTable, rs: seq<Reservation>, now: Instant)
    ensures ReleaseDone(t, rs, now, {}) == t
  {}

  lemma ReleaseEvery(t: BudgetTable, rs: seq<Reservation>, groups: seq<Id>, now: Instant)
    requires AreGroups(rs, groups, now)
    ensures ReleaseDone(t, rs, now, SetOf(groups)) == ReleaseExpired(t, rs, now)
  {
    assert forall i :: i in SetOf(groups) <==> HasExpired(rs, i, now);
  }

  /** A cleanup with nothing in between whose SELECT and DELETE each read the clock. */
  function CleanupAcross(db: Db, summed: Instant, deleted: Instant): Db {
    db.(budgets := ReleaseExpired(db.budgets, db.reservations, summed),
        reservations := Unexpired(db.reservations, deleted))
  }

  /** The UPDATEs of one cleanup in their order: they stand at position `k` of what is due. */
  function SettleAll(w: World, k: nat, n: nat): World {
    if n == 0 then w else Do(SettleAll(w, k, n - 1), Settle(k))
  }

  /** With nothing in between, and one reading of the clock, the three statements are one
      Cleanup step. */
  lemma {:induction false} CleanupIsSerial(w: World, groups: seq<Id>, now: Instant)
    requires AreGroups(w.db.reservations, groups, now)
    ensures SettleAll(Do(w, Purge(now, SumsOf(w.db.reservations, groups, now))), |w.due|, |groups|)
      == World(Apply(w.db, Cleanup(now)), w.due)
  {
    var rs := w.db.reservations;
    SettleSome(w, groups, now, |groups|);
    ReleaseEvery(w.db.budgets, rs, groups, now);
    assert groups[..|groups|] == groups;
    assert w.due + SumsOf(rs, groups, now)[|groups|..] == w.due;
  }

  lemma {:induction false} SettleSome(w: World, groups: seq<Id>, now: Instant, n: nat)
    requires AreGroups(w.db.reservations, groups, now) && n <= |groups|
    ensures var rs, sums := w.db.reservations, SumsOf(w.db.reservations, groups, now);
      SettleAll(Do(w, Purge(now, sums)), |w.due|, n)
        == World(w.db.(budgets := ReleaseDone(w.db.budgets, rs, now, SetOf(groups[..n])), reservations := Unexpired(rs, now)),
                 w.due + sums[n..])
  {
    var rs, sums := w.db.reservations, SumsOf(w.db.reservations, groups, now);
    if n == 0 {
      ReleaseNone(w.db.budgets, rs, now);
      assert SetOf(groups[..0]) == {};
      assert sums[0..] == sums;
    } else {
      SettleSome(w, groups, now, n - 1);
      var id := groups[n - 1];
      assert SetOf(groups[..n]) == SetOf(groups[..n - 1]) + {id} by {
        assert groups[..n] == groups[..n - 1] + [id];
      }
      assert id !in groups[..n - 1];
      ReleaseNext(w.db.budgets, rs, now, SetOf(groups[..n - 1]), id);
      hide ReleaseDone, ReleaseOn, ExpiredOn;
      var due := w.due + sums[n - 1..];
      assert due[|w.due|] == sums[n - 1];
      assert due[..|w.due|] + due[|w.due| + 1..] == w.due + sums[n..];
    }
  }

  // ---------- effects that are steps ----------

  /** The effect does what a step of the sequential ledger does: nothing of a cleanup is still
      due, a completion finds the reservation it read, a cleanup deletes what it summed and is
      then settled without a break. */
  ghost predicate Serial(w: World, e: Effect) {
    match e
    case Whole(_) => w.due == []
    case Completion(res, _, _, _) => w.due == [] && First(w.db.reservations, res.requestId) == Some(res)
    case Purge(now, sums) =>
      w.due == [] && exists groups :: AreGroups(w.db.reservations, groups, now) && sums == SumsOf(w.db.reservations, groups, now)
    case Settle(k) => k == 0 && w.due != []
  }

  ghost predicate SerialPlay(effects: seq<Effect>) {
    forall i :: 0 <= i < |effects| ==> Serial(Play(effects[..i]), effects[i])
  }

  function StepOf(e: Effect): seq<Step> {
    match e
    case Whole(s) => [s]
    case Completion(res, cost, chain, limitedAt) => [Complete(res.requestId, cost, chain, limitedAt)]
    case Purge(now, _) => [Cleanup(now)]
    case Settle(_) => []
  }

  function StepsOf(effects: seq<Effect>): seq<Step> {
    if effects == [] then [] else StepsOf(effects[..|effects| - 1]) + StepOf(effects[|effects| - 1])
  }

  /** Everything that is due, settled in order. */
  function Flush(w: World): World
    decreases |w.due|
  {
    if w.due == [] then w else Flush(Do(w, Settle(0)))
  }

  lemma {:induction false} FlushSettlesAll(w: World)
    ensures Flush(w) == SettleAll(w, 0, |w.due|)
    decreases |w.due|
  {
    if w.due != [] {
      FlushSettlesAll(Do(w, Settle(0)));
      SettleOneMore(w, |w.due| - 1);
    }
  }

  lemma {:induction false} SettleOneMore(w: World, n: nat)
    ensures SettleAll(Do(w, Settle(0)), 0, n) == SettleAll(w, 0, n + 1)
  {
    if n > 0 {
      SettleOneMore(w, n - 1);
    } else {
      assert SettleAll(w, 0, 1) == Do(SettleAll(w, 0, 0), Settle(0));
    }
  }

  lemma {:induction false} SerialStep(w: World, e: Effect)
    requires Serial(w, e)
    ensures e.Settle? ==> Flush(Do(w, e)) == Flush(w)
    ensures !e.Settle? ==> |StepOf(e)| == 1 && Flush(w) == w && Flush(Do(w, e)) == World(Apply(w.db, StepOf(e)[0]), [])
  {
    if e.Purge? {
      var groups :| AreGroups(w.db.reservations, groups, e.now) && e.sums == SumsOf(w.db.reservations, groups, e.now);
      CleanupIsSerial(w, groups, e.now);
      FlushSettlesAll(Do(w, e));
      assert w.due + e.sums == e.sums;
    }
  }

  /** Then the tables are those of the sequential ledger, once nothing is due. */
  lemma {:induction false} SerialPlayIsRun(effects: seq<Effect>)
    requires SerialPlay(effects)
    ensures Flush(Play(effects)) == World(Run(StepsOf(effects)), [])
    ensures Play(effects).due == [] ==> Play(effects).db == Run(StepsOf(effects))
  {
    if effects != [] {
      var pre, e := effects[..|effects| - 1], effects[|effects| - 1];
      forall i | 0 <= i < |pre|
        ensures Serial(Play(pre[..i]), pre[i])
      {
        assert pre[..i] == effects[..i];
      }
      SerialPlayIsRun(pre);
      assert Serial(Play(effects[..|pre|]), e);
      SerialStep(Play(pre), e);
      var steps := StepsOf(pre) + StepOf(e);
      if e.Settle? {
        assert steps == StepsOf(pre);
      } else {
        assert steps[..|steps| - 1] == StepsOf(pre) && steps[|steps| - 1] == StepOf(e)[0];
      }
    }
  }
}
