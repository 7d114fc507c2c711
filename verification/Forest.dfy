/** Parent links. A parent map need not be acyclic: UpdateBudget does not look for cycles. */
module Forest {
  import opened Model

  /** From a child to its parent; roots are absent. */
  type Parents = map<Id, Id>

  /** The n-th ancestor. */
  function Up(p: Parents, x: Id, n: nat): Option<Id>
    decreases n
  {
    if n == 0 then Some(x)
    else if x in p then Up(p, p[x], n - 1)
    else None
  }

  ghost predicate IsAncestor(p: Parents, a: Id, x: Id) {
    exists n :: n > 0 && Up(p, x, n) == Some(a)
  }

  ghost predicate OnCycle(p: Parents, x: Id) {
    IsAncestor(p, x, x)
  }

  /** Following parents from `x` never stops: `x` is on or below a cycle. */
  ghost predicate Endless(p: Parents, x: Id) {
    forall n: nat :: Up(p, x, n).Some?
  }

  lemma {:induction false} UpCompose(p: Parents, x: Id, m: nat, n: nat)
    ensures Up(p, x, m + n) == if Up(p, x, m).Some? then Up(p, Up(p, x, m).value, n) else None
    decreases m
  {
    if m > 0 && x in p {
      UpCompose(p, p[x], m - 1, n);
    }
  }

  lemma {:induction false} UpStops(p: Parents, x: Id, m: nat, n: nat)
    requires m <= n && Up(p, x, n).Some?
    ensures Up(p, x, m).Some?
  {
    UpCompose(p, x, m, n - m);
  }

  lemma {:induction false} UpRepeats(p: Parents, x: Id, n: nat, k: nat)
    requires Up(p, x, n) == Some(x)
    ensures Up(p, x, n * k) == Some(x)
  {
    if k > 0 {
      UpRepeats(p, x, n, k - 1);
      assert n * k == n + n * (k - 1);
      UpCompose(p, x, n, n * (k - 1));
    }
  }

  lemma {:induction false} CycleIsEndless(p: Parents, x: Id)
    requires OnCycle(p, x)
    ensures Endless(p, x)
  {
    var n :| n > 0 && Up(p, x, n) == Some(x);
    forall k: nat
      ensures Up(p, x, k).Some?
    {
      UpRepeats(p, x, n, k);
      assert k <= n * k;
      UpStops(p, x, k, n * k);
    }
  }

  lemma {:induction false} EndlessAbove(p: Parents, x: Id, m: nat)
    requires Up(p, x, m).Some? && Endless(p, Up(p, x, m).value)
    ensures Endless(p, x)
  {
    forall k: nat
      ensures Up(p, x, k).Some?
    {
      if k < m {
        UpStops(p, x, k, m);
      } else {
        UpCompose(p, x, m, k - m);
      }
    }
  }

  lemma AncestorsChain(p: Parents, a: Id, b: Id, c: Id)
    requires IsAncestor(p, a, b) && IsAncestor(p, b, c)
    ensures IsAncestor(p, a, c)
  {
    var m :| m > 0 && Up(p, b, m) == Some(a);
    var n :| n > 0 && Up(p, c, n) == Some(b);
    UpCompose(p, c, n, m);
  }

  lemma ParentIsAncestor(p: Parents, x: Id)
    requires x in p
    ensures IsAncestor(p, p[x], x)
  {
    assert Up(p, x, 1) == Some(p[x]);
  }

  /** The rows of the recursive ancestor query, or None when it never ends. */
  function Walk(p: Parents, x: Id, seen: set<Id>): Option<seq<Id>>
    decreases p.Keys - seen
  {
    if x in seen then None
    else if x !in p then Some([x])
    else
      match Walk(p, p[x], seen + {x})
      case None => None
      case Some(path) => Some([x] + path)
  }

  /** `path` is `x` and all its ancestors in order, each once. */
  ghost predicate AncestorPath(p: Parents, x: Id, path: seq<Id>) {
    && path != []
    && (forall i :: 0 <= i < |path| ==> Up(p, x, i) == Some(path[i]))
    && Up(p, x, |path|) == None
    && Distinct(path)
  }

  /** The ancestor query answers with the whole ancestor path, and fails to end exactly for
      budgets on or below a cycle. */
  lemma {:induction false} WalkIsAncestorPath(p: Parents, x: Id)
    ensures Walk(p, x, {}).None? <==> Endless(p, x)
    ensures Walk(p, x, {}).Some? ==> AncestorPath(p, x, Walk(p, x, {}).value)
  {
    WalkFrom(p, x, {});
    if Walk(p, x, {}).Some? {
      var path := Walk(p, x, {}).value;
      assert Up(p, x, |path|) == None;
    }
  }

  lemma {:induction false} WalkFrom(p: Parents, x: Id, seen: set<Id>)
    requires forall s :: s in seen ==> IsAncestor(p, x, s)
    ensures Walk(p, x, seen).None? ==> Endless(p, x)
    ensures Walk(p, x, seen).Some? ==>
      AncestorPath(p, x, Walk(p, x, seen).value) && forall s :: s in seen ==> s !in Walk(p, x, seen).value
    decreases p.Keys - seen
  {
    if x in seen {
      CycleIsEndless(p, x);
    } else if x in p {
      forall s | s in seen + {x}
        ensures IsAncestor(p, p[x], s)
      {
        ParentIsAncestor(p, x);
        if s != x {
          AncestorsChain(p, p[x], x, s);
        }
      }
      WalkFrom(p, p[x], seen + {x});
      var rest := Walk(p, p[x], seen + {x});
      if rest.None? {
        EndlessAbove(p, x, 1);
      } else {
        var path := [x] + rest.value;
        forall i | 0 <= i < |path|
          ensures Up(p, x, i) == Some(path[i])
        {
          if i > 0 {
            assert Up(p, x, i) == Up(p, p[x], i - 1);
          }
        }
        assert Up(p, x, |path|) == Up(p, p[x], |rest.value|);
      }
    }
  }
}
