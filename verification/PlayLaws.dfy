/** The laws of holds, records and children for every sequence of effects: completions that use
what they read earlier, and cleanups taken apart. */
module PlayLaws {
  import opened Model
  import opened Ledger
  import opened HoldLaws
  import opened SpendLaws
  import opened ChildLaws
  import opened Effects
  import BucketFill
  import HierarchySort

  // ---------- holds ----------

  /** What a completion releases on `b`. */
  function ReleasedOn(db: Db, res: Reservation, chain: Rows, b: Id): Money {
    if b == res.budgetId && IdsOf(HierarchySort.Sorted(chain)) <= db.budgets.Keys then res.estimate else 0.0
  }

  /** What it deletes of the live reservations on `b`. */
  ghost function DeletedOn(db: Db, res: Reservation, chain: Rows, b: Id): Money {
    if IdsOf(HierarchySort.Sorted(chain)) <= db.budgets.Keys then HeldBy(db.reservations, b, res.requestId) else 0.0
  }

  /** Deleted but not released: a completion through another budget, or a cleanup that deletes
      what it has not summed. */
  ghost function LeakedBy(w: World, e: Effect, b: Id): Money {
    match e
    case Whole(s) => LeakOf(w.db, s, b)
    case Completion(res, _, chain, _) => Max(0.0, DeletedOn(w.db, res, chain, b) - ReleasedOn(w.db, res, chain, b))
    case Purge(now, sums) => Max(0.0, ExpiredOn(w.db.reservations, b, now) - Owed(sums, b))
    case Settle(_) => 0.0
  }

  /** Released but not deleted. */
  ghost function OverReleasedBy(w: World, e: Effect, b: Id): Money {
    match e
    case Completion(res, _, chain, _) => Max(0.0, ReleasedOn(w.db, res, chain, b) - DeletedOn(w.db, res, chain, b))
    case Purge(now, sums) => Max(0.0, Owed(sums, b) - ExpiredOn(w.db.reservations, b, now))
    case _ => 0.0
  }

  ghost function PlayLeaked(effects: seq<Effect>, b: Id): Money {
    if effects == [] then 0.0
    else
      var w, e := Play(effects[..|effects| - 1]), effects[|effects| - 1];
      if b !in w.db.budgets || e == Whole(Reset(b)) then 0.0
      else PlayLeaked(effects[..|effects| - 1], b) + LeakedBy(w, e, b)
  }

  ghost function PlayOverReleased(effects: seq<Effect>, b: Id): Money {
    if effects == [] then 0.0
    else
      var w, e := Play(effects[..|effects| - 1]), effects[|effects| - 1];
      if b !in w.db.budgets || e == Whole(Reset(b)) then 0.0
      else PlayOverReleased(effects[..|effects| - 1], b) + OverReleasedBy(w, e, b)
  }

  ghost predicate HoldBounds(w: World, b: Id, leaked: Money, over: Money)
    requires b in w.db.budgets
  {
    var held := Held(w.db.reservations, b) + Owed(w.due, b);
    held - over <= w.db.budgets[b].pending <= held + leaked && 0.0 <= w.db.budgets[b].pending && leaked >= 0.0 && over >= 0.0
  }

  lemma {:induction false} CompletionHolds(w: World, e: Effect, b: Id, leaked: Money, over: Money)
    requires Sound(w) && e.Completion? && b in w.db.budgets && HoldBounds(w, b, leaked, over)
    ensures b in Do(w, e).db.budgets && HoldBounds(Do(w, e), b, leaked + LeakedBy(w, e, b), over + OverReleasedBy(w, e, b))
  {
    CompletedRow(w.db, e.res, e.cost, e.chain, e.limitedAt, b);
    HeldWithout(w.db.reservations, b, e.res.requestId);
    HeldBounds(w.db.reservations, w.db.budgets.Keys, b, e.res.requestId, 0);
    HeldBounds(Without(w.db.reservations, e.res.requestId), w.db.budgets.Keys, b, "", 0) by {
      WithoutMembers(w.db.reservations, e.res.requestId);
      RowsInByMembers(Without(w.db.reservations, e.res.requestId), w.db.budgets.Keys);
    }
    OwedIsPositive(w.due, b);
    hide HierarchySort.Sorted, CommitCompletion, Held, HeldBy, Without, Owed, Consistent, IdsOf;
  }

  lemma {:induction false} EffectHolds(w: World, e: Effect, b: Id, leaked: Money, over: Money)
    requires Sound(w) && SaneEffect(e) && b in w.db.budgets && b in Do(w, e).db.budgets
    requires HoldBounds(w, b, leaked, over) && e != Whole(Reset(b))
    ensures HoldBounds(Do(w, e), b, leaked + LeakedBy(w, e, b), over + OverReleasedBy(w, e, b))
  {
    OwedIsPositive(w.due, b);
    DoKeepsSound(w, e);
    match e
    case Whole(s) =>
      StepHolds(w.db, s, b);
      HeldBounds(w.db.reservations, w.db.budgets.Keys, b, "", 0);
      HeldBounds(Apply(w.db, s).reservations, Apply(w.db, s).budgets.Keys, b, "", 0);
    case Completion(_, _, _, _) => CompletionHolds(w, e, b, leaked, over);
    case Purge(now, sums) =>
      OwedAppend(w.due, sums, b);
      HeldUnexpired(w.db.reservations, b, now);
    case Settle(k) =>
      if k < |w.due| {
        OwedWithout(w.due, k, b);
        OwedIsPositive(w.due[..k] + w.due[k + 1..], b);
        HeldBounds(w.db.reservations, w.db.budgets.Keys, b, "", 0);
      }
  }

  ghost predicate FreshIds(effects: seq<Effect>, b: Id) {
    forall i :: 0 <= i < |effects| ==>
      b !in Play(effects[..i]).db.budgets && b in Do(Play(effects[..i]), effects[i]).db.budgets ==>
        Owed(Play(effects[..i]).due, b) == 0.0
  }

  lemma ResetHolds(w: World, b: Id)
    requires Sound(w) && b in w.db.budgets
    ensures var after := Do(w, Whole(Reset(b)));
      b in after.db.budgets && HoldBounds(after, b, 0.0, Held(w.db.reservations, b) + Owed(w.due, b))
  {
    OwedIsPositive(w.due, b);
    HeldBounds(w.db.reservations, w.db.budgets.Keys, b, "", 0);
    hide Held, Owed;
  }

  lemma NewHolds(w: World, e: Effect, b: Id)
    requires Sound(w) && SaneEffect(e) && b !in w.db.budgets && b in Do(w, e).db.budgets
    requires Owed(Do(w, e).due, b) == 0.0
    ensures HoldBounds(Do(w, e), b, 0.0, 0.0)
  {
    NewBudgetHoldsNothing(w.db, e.step, b);
  }

  lemma EarlierPlay(effects: seq<Effect>, b: Id)
    requires effects != [] && SanePlay(effects) && FreshIds(effects, b)
    ensures var pre, e := effects[..|effects| - 1], effects[|effects| - 1];
      && SanePlay(pre) && FreshIds(pre, b) && SaneEffect(e)
      && Play(effects) == Do(Play(pre), e)
      && (b !in Play(pre).db.budgets && b in Play(effects).db.budgets ==> Owed(Play(effects).due, b) == 0.0)
  {
    var pre := effects[..|effects| - 1];
    assert effects[..|pre|] == pre;
    forall i | 0 <= i < |pre|
      ensures pre[..i] == effects[..i]
    {}
  }

  /** The pending amount lies between the live and due holds, less what was open at the last
      reset and what was released without being deleted, and the same holds plus what was deleted
      without being released. */
  ghost predicate PlayBounds(effects: seq<Effect>, b: Id)
    requires b in Play(effects).db.budgets
  {
    HoldBounds(Play(effects), b, PlayLeaked(effects, b), OpenAtReset(effects, b) + PlayOverReleased(effects, b))
  }

  lemma {:induction false} BoundsStart(effects: seq<Effect>, b: Id)
    requires effects != [] && SanePlay(effects) && FreshIds(effects, b) && b in Play(effects).db.budgets
    requires b !in Play(effects[..|effects| - 1]).db.budgets || effects[|effects| - 1] == Whole(Reset(b))
    ensures PlayBounds(effects, b)
  {
    var pre, e := effects[..|effects| - 1], effects[|effects| - 1];
    EarlierPlay(effects, b);
    PlayIsSound(pre);
    hide Do, HoldBounds, Held, Owed, Sound;
    if b in Play(pre).db.budgets {
      ResetHolds(Play(pre), b);
    } else {
      NewHolds(Play(pre), e, b);
    }
  }

  lemma {:induction false} BoundsStay(effects: seq<Effect>, b: Id)
    requires effects != [] && SanePlay(effects) && b in Play(effects).db.budgets
    requires b in Play(effects[..|effects| - 1]).db.budgets && effects[|effects| - 1] != Whole(Reset(b))
    requires PlayBounds(effects[..|effects| - 1], b)
    ensures PlayBounds(effects, b)
  {
    var pre, e := effects[..|effects| - 1], effects[|effects| - 1];
    PlayIsSound(pre);
    hide Do, HoldBounds, Held, Owed, Sound;
    var leaked, over := PlayLeaked(pre, b), OpenAtReset(pre, b) + PlayOverReleased(pre, b);
    EffectHolds(Play(pre), e, b, leaked, over);
    assert PlayLeaked(effects, b) == leaked + LeakedBy(Play(pre), e, b);
    assert OpenAtReset(effects, b) + PlayOverReleased(effects, b) == over + OverReleasedBy(Play(pre), e, b);
  }

  /** For every sequence of effects. */
  lemma {:induction false} HoldsAreBoundedInPlay(effects: seq<Effect>, b: Id)
    requires SanePlay(effects) && FreshIds(effects, b) && b in Play(effects).db.budgets
    ensures PlayBounds(effects, b)
  {
    var pre, e := effects[..|effects| - 1], effects[|effects| - 1];
    EarlierPlay(effects, b);
    hide PlayBounds, SanePlay, FreshIds, Do;
    if b in Play(pre).db.budgets && e != Whole(Reset(b)) {
      HoldsAreBoundedInPlay(pre, b);
      BoundsStay(effects, b);
    } else {
      BoundsStart(effects, b);
    }
  }

  // ---------- usage and records ----------

  predicate EffectUnlimited(e: Effect) {
    match e
    case Whole(s) => Unlimited(s)
    case Completion(_, _, _, limitedAt) => limitedAt.None?
    case _ => true
  }

  ghost predicate EffectMisrecords(w: World, e: Effect, b: Id) {
    match e
    case Whole(s) => StepMisrecords(w.db, s, b)
    case Completion(_, cost, chain, _) => Misrecords(w.db, cost, chain, b)
    case _ => false
  }

  ghost predicate PlayMisrecorded(effects: seq<Effect>, b: Id) {
    effects != [] &&
    var w, e := Play(effects[..|effects| - 1]), effects[|effects| - 1];
    b in w.db.budgets && e != Whole(Reset(b)) && (PlayMisrecorded(effects[..|effects| - 1], b) || EffectMisrecords(w, e, b))
  }

  ghost function RecordsAtReset(effects: seq<Effect>, b: Id): Money {
    if effects == [] then 0.0
    else
      var w, e := Play(effects[..|effects| - 1]), effects[|effects| - 1];
      if b !in w.db.budgets then 0.0
      else if e == Whole(Reset(b)) then Recorded(w.db.usage, b)
      else RecordsAtReset(effects[..|effects| - 1], b)
  }

  /** How far an effect moves usage and records apart: never backwards, and only if it
      misrecords. */
  lemma {:induction false} EffectLedger(w: World, e: Effect, b: Id)
    requires EffectUnlimited(e) && b in w.db.budgets && b in Do(w, e).db.budgets && e != Whole(Reset(b))
    ensures var apart := (Do(w, e).db.budgets[b].usage - Recorded(Do(w, e).db.usage, b))
                         - (w.db.budgets[b].usage - Recorded(w.db.usage, b));
      apart >= 0.0 && (apart == 0.0 <==> !EffectMisrecords(w, e, b))
  {
    match e
    case Whole(s) =>
      LedgerStep(w.db, s, b);
      hide Apply;
    case Completion(res, cost, chain, _) =>
      CompletionLedger(w.db, res, cost, chain, b);
      hide CommitCompletion;
    case _ =>
  }

  lemma {:induction false} EffectKeepsRecords(w: World, e: Effect)
    requires RecordsIn(w.db.usage, w.db.budgets.Keys)
    ensures RecordsIn(Do(w, e).db.usage, Do(w, e).db.budgets.Keys)
  {
    match e
    case Whole(s) =>
      StepKeepsRecords(w.db, s);
      hide Apply;
    case Completion(res, cost, chain, limitedAt) =>
      CompletionKeepsRecords(w.db, res, cost, chain, limitedAt);
      hide CommitCompletion;
    case _ =>
  }

  lemma {:induction false} PlayKeepsRecords(effects: seq<Effect>)
    ensures RecordsIn(Play(effects).db.usage, Play(effects).db.budgets.Keys)
  {
    if effects != [] {
      PlayKeepsRecords(effects[..|effects| - 1]);
      hide Do;
      EffectKeepsRecords(Play(effects[..|effects| - 1]), effects[|effects| - 1]);
    }
  }

  /** For every sequence of effects, stale or not: the usage never falls behind the records since
      the last reset, and equals them iff nothing was misrecorded. */
  lemma {:induction false} LedgersAgreeInPlay(effects: seq<Effect>, b: Id)
    requires forall i :: 0 <= i < |effects| ==> EffectUnlimited(effects[i])
    requires b in Play(effects).db.budgets
    ensures var db := Play(effects).db;
      var recorded := Recorded(db.usage, b) - RecordsAtReset(effects, b);
      recorded <= db.budgets[b].usage && (db.budgets[b].usage == recorded <==> !PlayMisrecorded(effects, b))
  {
    var pre, e := effects[..|effects| - 1], effects[|effects| - 1];
    var w := Play(pre);
    hide Recorded, EffectMisrecords, EffectUnlimited, CommitCompletion;
    if b in w.db.budgets {
      LedgersAgreeInPlay(pre, b);
      if e != Whole(Reset(b)) {
        EffectLedger(w, e, b);
      }
    } else {
      PlayKeepsRecords(pre);
      RecordedOfMissing(w.db.usage, w.db.budgets.Keys, b);
    }
  }

  // ---------- children ----------

  /** The child keeps its kind and its amount, and rows in chains are ones it had before. */
  ghost predicate ChildKept(w: World, e: Effect, b: Id) {
    match e
    case Whole(s) => KeepsFilling(w.db, s, b) && ReadBefore(w.db, s, b)
    case Completion(_, _, chain, _) =>
      b in w.db.budgets ==>
        forall x :: x in chain && x.id == b ==> FillsUp(x.isolated, x.parent) && x.amount <= w.db.budgets[b].amount
    case _ => true
  }

  ghost function DriftBy(w: World, e: Effect, b: Id): Money {
    if b !in w.db.budgets then 0.0
    else
      match e
      case Whole(s) => if s.Complete? then DriftIn(s.chain, b, w.db.budgets[b].usage) else 0.0
      case Completion(_, _, chain, _) => DriftIn(chain, b, w.db.budgets[b].usage)
      case _ => 0.0
  }

  ghost function PlayDrift(effects: seq<Effect>, b: Id): Money {
    if effects == [] then 0.0
    else
      var w, e := Play(effects[..|effects| - 1]), effects[|effects| - 1];
      if b !in w.db.budgets || e == Whole(Reset(b)) then 0.0
      else Max(PlayDrift(effects[..|effects| - 1], b), DriftBy(w, e, b))
  }

  ghost predicate ChildWithin(w: World, b: Id, drift: Money)
    requires b in w.db.budgets
  {
    var row := w.db.budgets[b];
    && 0.0 <= row.usage <= row.amount + drift && row.amount >= 0.0 && drift >= 0.0
    && FillsUp(row.isolated, row.parent)
  }

  lemma {:induction false} CompletionKeepsChild(w: World, e: Effect, b: Id, drift: Money)
    requires e.Completion? && ChildKept(w, e, b) && b in w.db.budgets && ChildWithin(w, b, drift)
    ensures b in Do(w, e).db.budgets && ChildWithin(Do(w, e), b, Max(drift, DriftBy(w, e, b)))
  {
    var usage := w.db.budgets[b].usage;
    CompletedRow(w.db, e.res, e.cost, e.chain, e.limitedAt, b);
    ChargeIsBounded(e.chain, e.cost, e.limitedAt, b);
    DriftIsPositive(e.chain, b, usage);
    if x :| x in e.chain && x.id == b {
      StaleCharge(e.chain, e.cost, e.limitedAt, x, usage);
      DriftOf(e.chain, x, usage);
    } else {
      assert b !in IdsOf(e.chain);
    }
    hide CommitCompletion, BucketFill.Lines, HierarchySort.Sorted, ChargedTo, DriftIn;
  }

  lemma {:induction false} EffectKeepsChild(w: World, e: Effect, b: Id, drift: Money)
    requires Consistent(w.db) && ChildKept(w, e, b) && b in w.db.budgets && b in Do(w, e).db.budgets
    requires ChildWithin(w, b, drift) && e != Whole(Reset(b))
    ensures ChildWithin(Do(w, e), b, Max(drift, DriftBy(w, e, b)))
  {
    match e
    case Whole(s) =>
      ChildStep(w.db, s, b, drift);
      hide Apply;
    case Completion(_, _, _, _) => CompletionKeepsChild(w, e, b, drift);
    case _ =>
  }

  /** For every sequence of effects a non-isolated child overshoots its amount by at most the
      worst drift. */
  lemma {:induction false} ChildOvershootInPlay(effects: seq<Effect>, b: Id)
    requires SanePlay(effects) && b in Play(effects).db.budgets
    requires forall i :: 0 <= i < |effects| ==> ChildKept(Play(effects[..i]), effects[i], b)
    ensures ChildWithin(Play(effects), b, PlayDrift(effects, b))
  {
    var pre, e := effects[..|effects| - 1], effects[|effects| - 1];
    forall i | 0 <= i < |pre|
      ensures ChildKept(Play(pre[..i]), pre[i], b)
    {
      assert pre[..i] == effects[..i];
    }
    assert effects[..|pre|] == pre;
    assert ChildKept(Play(effects[..|pre|]), effects[|pre|], b);
    PlayIsSound(pre);
    if b in Play(pre).db.budgets {
      ChildOvershootInPlay(pre, b);
      ResetOrEffect(Play(pre), e, b, PlayDrift(pre, b));
    } else {
      NewBudgetHoldsNothing(Play(pre).db, e.step, b);
    }
  }

  lemma {:induction false} ResetOrEffect(w: World, e: Effect, b: Id, drift: Money)
    requires Consistent(w.db) && ChildKept(w, e, b) && b in w.db.budgets && b in Do(w, e).db.budgets
    requires ChildWithin(w, b, drift)
    ensures ChildWithin(Do(w, e), b, if e == Whole(Reset(b)) then 0.0 else Max(drift, DriftBy(w, e, b)))
  {
    if e != Whole(Reset(b)) {
      EffectKeepsChild(w, e, b, drift);
    }
  }
}
