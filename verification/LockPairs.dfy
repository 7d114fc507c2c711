/** One admission and one completion that have locked nothing yet: exactly when they can come to
wait for each other. */
module LockPairs {
  import opened Model
  import opened Concurrency
  import opened Deadlock

  /** Pod `p` is about to lock the rows `a` and pod `q` the rows `c`; none of them is locked. */
  ghost predicate Facing(sys: System, p: Pod, q: Pod, a: seq<Id>, c: seq<Id>) {
    && p != q && p in sys.txs && q in sys.txs && Distinct(a) && Distinct(c)
    && sys.txs[p].Admitting? && sys.txs[p].todo == a
    && IsCharging(sys.txs[q]) && ChargeOrder(sys.txs[q]) == c
    && (forall x :: x in a ==> x in sys.world.db.budgets && sys.world.db.budgets[x].Enforced())
    && (forall x :: x in c ==> x in sys.world.db.budgets)
    && (forall x :: x in sys.locks ==> sys.locks[x] != p && sys.locks[x] != q && x !in a && x !in c)
  }

  /** The order in which the two take their locks. */
  ghost predicate IsSchedule(p: Pod, q: Pod, turns: seq<Action>) {
    forall k :: 0 <= k < |turns| ==> turns[k] == LockNext(p) || turns[k] == LockCharge(q)
  }

  ghost function ActAll(sys: System, turns: seq<Action>): System {
    if turns == [] then sys else Act(ActAll(sys, turns[..|turns| - 1]), turns[|turns| - 1])
  }

  /** Row `a[i]` of one comes among the first `j` rows of the other, `c[j]` among the first `i` of
      the one, and before these the two have no row in common. */
  ghost predicate Crossing(a: seq<Id>, c: seq<Id>, i: nat, j: nat) {
    && i < |a| && j < |c| && a[i] in c[..j] && c[j] in a[..i]
    && forall x :: x in a[..i] ==> x !in c[..j]
  }

  /** `p` has locked the first `i` of its rows and `q` the first `j`. */
  ghost predicate At(sys: System, s: System, p: Pod, q: Pod, a: seq<Id>, c: seq<Id>, i: nat, j: nat) {
    && i <= |a| && j <= |c| && s.world == sys.world && p in s.txs && q in s.txs && q in sys.txs
    && s.txs[p].Admitting? && s.txs[p].todo == a[i..] && s.txs[q] == sys.txs[q]
    && (forall x :: HasLocked(s, p, x) <==> x in a[..i])
    && (forall x :: HasLocked(s, q, x) <==> x in c[..j])
    && (forall x :: x in s.locks && (x in a || x in c) ==> s.locks[x] == p || s.locks[x] == q)
  }

  lemma NotYet(ids: seq<Id>, n: nat)
    requires Distinct(ids) && n < |ids|
    ensures ids[n] !in ids[..n] && ids[n] in ids
    ensures forall x :: x in ids[..n + 1] <==> x in ids[..n] || x == ids[n]
  {
    assert ids[..n + 1] == ids[..n] + [ids[n]];
  }

  lemma {:induction false} FirstAfter(s: System, q: Pod, c: seq<Id>, j: nat)
    requires j <= |c| && forall x :: x in c ==> x in s.world.db.budgets
    requires forall k :: 0 <= k < j ==> HasLocked(s, q, c[k])
    requires j < |c| ==> !HasLocked(s, q, c[j])
    ensures FirstUnheld(s, q, c) == if j < |c| then Some(c[j]) else None
  {
    if j > 0 {
      FirstAfter(s, q, c[1..], j - 1);
    }
  }

  /** What the two want next. */
  lemma {:induction false} WantedAt(sys: System, s: System, p: Pod, q: Pod, a: seq<Id>, c: seq<Id>, i: nat, j: nat)
    requires Facing(sys, p, q, a, c) && At(sys, s, p, q, a, c, i, j)
    ensures Wanted(s, p) == if i < |a| then Some(a[i]) else None
    ensures Wanted(s, q) == if j < |c| then Some(c[j]) else None
  {
    if i < |a| {
      assert a[i] in a;
    }
    assert forall k :: 0 <= k < j ==> c[..j][k] == c[k];
    if j < |c| {
      NotYet(c, j);
    }
    FirstAfter(s, q, c, j);
  }

  lemma {:induction false} AdmissionTurn(sys: System, s: System, p: Pod, q: Pod, a: seq<Id>, c: seq<Id>, i: nat, j: nat)
    requires Facing(sys, p, q, a, c) && At(sys, s, p, q, a, c, i, j)
    ensures var s' := Act(s, LockNext(p));
      if i < |a| && a[i] !in c[..j] then At(sys, s', p, q, a, c, i + 1, j) else s' == s
  {
    WantedAt(sys, s, p, q, a, c, i, j);
    if i < |a| {
      NotYet(a, i);
      assert a[i..][1..] == a[i + 1..] && a[i..][0] == a[i];
      hide FirstUnheld, ChargeOrder;
      if a[i] !in c[..j] {
        assert !HasLocked(s, p, a[i]) && !HasLocked(s, q, a[i]);
        assert a[i] !in s.locks;
        var s' := Act(s, LockNext(p));
        assert s'.locks == s.locks[a[i] := p];
        assert forall x :: HasLocked(s', p, x) <==> x == a[i] || HasLocked(s, p, x);
      } else {
        assert HasLocked(s, q, a[i]);
      }
    }
  }

  lemma {:induction false} CompletionTurn(sys: System, s: System, p: Pod, q: Pod, a: seq<Id>, c: seq<Id>, i: nat, j: nat)
    requires Facing(sys, p, q, a, c) && At(sys, s, p, q, a, c, i, j)
    ensures var s' := Act(s, LockCharge(q));
      if j < |c| && c[j] !in a[..i] then At(sys, s', p, q, a, c, i, j + 1) else s' == s
  {
    WantedAt(sys, s, p, q, a, c, i, j);
    if j < |c| {
      NotYet(c, j);
      hide FirstUnheld, ChargeOrder;
      if c[j] !in a[..i] {
        assert !HasLocked(s, p, c[j]) && !HasLocked(s, q, c[j]);
        assert c[j] !in s.locks;
        var s' := Act(s, LockCharge(q));
        assert s' == Locked(s, q, c[j]);
        assert forall x :: HasLocked(s', q, x) <==> x == c[j] || HasLocked(s, q, x);
      } else {
        assert HasLocked(s, p, c[j]);
      }
    }
  }

  /** The two wait for each other exactly when each wants a row the other has come through. */
  lemma {:induction false} CycleAt(sys: System, s: System, p: Pod, q: Pod, a: seq<Id>, c: seq<Id>, i: nat, j: nat)
    requires Facing(sys, p, q, a, c) && At(sys, s, p, q, a, c, i, j)
    ensures WaitCycle(s, [p, q]) <==> Crossing(a, c, i, j)
  {
    WantedAt(sys, s, p, q, a, c, i, j);
    hide Wanted;
    forall x | x in a[..i]
      ensures x !in c[..j]
    {
      assert HasLocked(s, p, x) && !HasLocked(s, q, x);
    }
    assert Waits(s, p, q) <==> i < |a| && HasLocked(s, q, a[i]);
    assert Waits(s, q, p) <==> j < |c| && HasLocked(s, p, c[j]);
    if Waits(s, p, q) && Waits(s, q, p) {
      assert WaitCycle(s, [p, q]);
    }
    if WaitCycle(s, [p, q]) {
      assert Waits(s, [p, q][0], [p, q][1]) && Waits(s, [p, q][1], [p, q][0]);
    }
  }

  /** Wherever a schedule leads, each has locked a first part of its rows. */
  lemma {:induction false} SomewhereAt(sys: System, p: Pod, q: Pod, a: seq<Id>, c: seq<Id>, turns: seq<Action>)
    returns (i: nat, j: nat)
    requires Facing(sys, p, q, a, c) && IsSchedule(p, q, turns)
    ensures At(sys, ActAll(sys, turns), p, q, a, c, i, j)
  {
    if turns == [] {
      i, j := 0, 0;
      NobodyAt(sys, p, q, a, c);
    } else {
      var pre := turns[..|turns| - 1];
      i, j := SomewhereAt(sys, p, q, a, c, pre);
      hide At, Act, Facing;
      AdmissionTurn(sys, ActAll(sys, pre), p, q, a, c, i, j);
      CompletionTurn(sys, ActAll(sys, pre), p, q, a, c, i, j);
      if ActAll(sys, turns) != ActAll(sys, pre) {
        if turns[|pre|] == LockNext(p) {
          i := i + 1;
        } else {
          j := j + 1;
        }
      }
    }
  }

  lemma NobodyAt(sys: System, p: Pod, q: Pod, a: seq<Id>, c: seq<Id>)
    requires Facing(sys, p, q, a, c)
    ensures At(sys, sys, p, q, a, c, 0, 0)
  {}

  lemma OneTurn(sys: System, turns: seq<Action>, e: Action)
    ensures ActAll(sys, turns + [e]) == Act(ActAll(sys, turns), e)
  {
    assert (turns + [e])[..|turns|] == turns;
  }

  lemma NoTurn(sys: System)
    ensures ActAll(sys, []) == sys
  {}

  /** First parts without a common row can be locked. */
  lemma {:induction false} Reaching(sys: System, p: Pod, q: Pod, a: seq<Id>, c: seq<Id>, i: nat, j: nat)
    returns (turns: seq<Action>)
    requires Facing(sys, p, q, a, c) && i <= |a| && j <= |c|
    requires forall x :: x in a[..i] ==> x !in c[..j]
    ensures IsSchedule(p, q, turns) && At(sys, ActAll(sys, turns), p, q, a, c, i, j)
  {
    hide At, Act, Facing, ActAll;
    if j > 0 {
      assert c[..j] == c[..j - 1] + [c[j - 1]];
      turns := Reaching(sys, p, q, a, c, i, j - 1);
      CompletionTurn(sys, ActAll(sys, turns), p, q, a, c, i, j - 1);
      OneTurn(sys, turns, LockCharge(q));
      turns := turns + [LockCharge(q)];
    } else if i > 0 {
      assert a[..i] == a[..i - 1] + [a[i - 1]];
      turns := Reaching(sys, p, q, a, c, i - 1, 0);
      AdmissionTurn(sys, ActAll(sys, turns), p, q, a, c, i - 1, 0);
      OneTurn(sys, turns, LockNext(p));
      turns := turns + [LockNext(p)];
    } else {
      turns := [];
      NobodyAt(sys, p, q, a, c);
      NoTurn(sys);
    }
  }

  ghost predicate CanDeadlock(sys: System, p: Pod, q: Pod) {
    exists turns :: IsSchedule(p, q, turns) && WaitCycle(ActAll(sys, turns), [p, q])
  }

  /** An admission and a completion can come to wait for each other exactly when they take two
      rows in opposite order and no common row comes before both of these on both sides. */
  lemma {:induction false} CanDeadlockIff(sys: System, p: Pod, q: Pod, a: seq<Id>, c: seq<Id>)
    requires Facing(sys, p, q, a, c)
    ensures CanDeadlock(sys, p, q) <==> exists i, j :: Crossing(a, c, i, j)
  {
    hide At, Facing;
    if CanDeadlock(sys, p, q) {
      var turns :| IsSchedule(p, q, turns) && WaitCycle(ActAll(sys, turns), [p, q]);
      var i, j := SomewhereAt(sys, p, q, a, c, turns);
      CycleAt(sys, ActAll(sys, turns), p, q, a, c, i, j);
    }
    if i: nat, j: nat :| Crossing(a, c, i, j) {
      var turns := Reaching(sys, p, q, a, c, i, j);
      CycleAt(sys, ActAll(sys, turns), p, q, a, c, i, j);
    }
  }
}
