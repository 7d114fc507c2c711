/** GetAllDescendants: the recursive query over the children of a budget, deepest first. */
module Descendants {
  import opened Model
  import opened Forest

  /** Rows, in scan order, whose parent is `d`. */
  function Kids(p: Parents, scan: seq<Id>, d: Id): seq<Id> {
    if scan == [] then []
    else if scan[0] in p && p[scan[0]] == d then [scan[0]] + Kids(p, scan[1..], d)
    else Kids(p, scan[1..], d)
  }

  /** One round of the query: join the table with the previous level. */
  function Join(p: Parents, scan: seq<Id>, level: seq<Id>): seq<Id> {
    if level == [] then []
    else Kids(p, scan, level[0]) + Join(p, scan, level[1..])
  }

  /** The rows at depth k + 1. */
  function Level(p: Parents, scan: seq<Id>, root: Id, k: nat): seq<Id> {
    if k == 0 then Kids(p, scan, root) else Join(p, scan, Level(p, scan, root, k - 1))
  }

  /** The first `n` levels, deepest first. */
  function Levels(p: Parents, scan: seq<Id>, root: Id, n: nat): seq<Id> {
    if n == 0 then [] else Level(p, scan, root, n - 1) + Levels(p, scan, root, n - 1)
  }

  lemma {:induction false} KidsMembers(p: Parents, scan: seq<Id>, d: Id)
    ensures forall x :: x in Kids(p, scan, d) <==> x in scan && x in p && p[x] == d
    ensures Distinct(scan) ==> Distinct(Kids(p, scan, d))
  {
    if scan != [] {
      KidsMembers(p, scan[1..], d);
      assert scan == [scan[0]] + scan[1..];
    }
  }

  lemma {:induction false} JoinMembers(p: Parents, scan: seq<Id>, level: seq<Id>)
    ensures forall x :: x in Join(p, scan, level) <==> x in scan && x in p && p[x] in level
    ensures Distinct(scan) && Distinct(level) ==> Distinct(Join(p, scan, level))
  {
    if level != [] {
      KidsMembers(p, scan, level[0]);
      JoinMembers(p, scan, level[1..]);
      assert level == [level[0]] + level[1..];
      if Distinct(scan) && Distinct(level) {
        var kids, rest := Kids(p, scan, level[0]), Join(p, scan, level[1..]);
        forall i, j | 0 <= i < |kids| && 0 <= j < |rest|
          ensures kids[i] != rest[j]
        {
          assert kids[i] in kids && rest[j] in rest;
          assert level[0] !in level[1..];
        }
      }
    }
  }

  /** A level holds exactly the rows whose (k + 1)-st ancestor is the root, each once. */
  lemma {:induction false} LevelMembers(p: Parents, scan: seq<Id>, root: Id, k: nat)
    requires Distinct(scan) && p.Keys <= SetOf(scan)
    ensures forall x :: x in Level(p, scan, root, k) <==> Up(p, x, k + 1) == Some(root)
    ensures Distinct(Level(p, scan, root, k))
  {
    if k == 0 {
      KidsMembers(p, scan, root);
      forall x
        ensures x in Level(p, scan, root, 0) <==> Up(p, x, 1) == Some(root)
      {
        assert Up(p, x, 1) == if x in p then Up(p, p[x], 0) else None;
      }
    } else {
      LevelMembers(p, scan, root, k - 1);
      JoinMembers(p, scan, Level(p, scan, root, k - 1));
    }
  }

  /** Two levels share a row only if the root is its own ancestor. */
  lemma {:induction false} LevelsMeetOnCycle(p: Parents, root: Id, x: Id, m: nat, n: nat)
    requires m < n && Up(p, x, m) == Some(root) && Up(p, x, n) == Some(root)
    ensures OnCycle(p, root)
  {
    UpCompose(p, x, m, n - m);
    assert Up(p, root, n - m) == Some(root);
  }

  ghost predicate Below(p: Parents, root: Id, x: Id, n: nat) {
    exists k :: 1 <= k <= n && Up(p, x, k) == Some(root)
  }

  lemma {:induction false} LevelsMembers(p: Parents, scan: seq<Id>, root: Id, n: nat)
    requires Distinct(scan) && p.Keys <= SetOf(scan)
    ensures forall x :: x in Levels(p, scan, root, n) <==> Below(p, root, x, n)
    ensures !OnCycle(p, root) ==> Distinct(Levels(p, scan, root, n))
  {
    if n > 0 {
      var level, above := Level(p, scan, root, n - 1), Levels(p, scan, root, n - 1);
      LevelMembers(p, scan, root, n - 1);
      LevelsMembers(p, scan, root, n - 1);
      forall x
        ensures x in level + above <==> Below(p, root, x, n)
      {
        if x in level {
          assert Up(p, x, n) == Some(root);
        }
        if Below(p, root, x, n) {
          var k :| 1 <= k <= n && Up(p, x, k) == Some(root);
          assert k < n ==> Below(p, root, x, n - 1);
        }
      }
      if !OnCycle(p, root) {
        forall i, j | 0 <= i < |level| && 0 <= j < |above|
          ensures level[i] != above[j]
        {
          assert level[i] in level && above[j] in above;
          if level[i] == above[j] {
            var k :| 1 <= k <= n - 1 && Up(p, above[j], k) == Some(root);
            LevelsMeetOnCycle(p, root, level[i], k, n);
          }
        }
      }
    }
  }

  /** Below an uncycled root the rows come out children before parents. */
  ghost predicate ChildrenFirst(p: Parents, ids: seq<Id>) {
    forall i, j :: 0 <= i < |ids| && 0 <= j < |ids| && ids[i] in p && p[ids[i]] == ids[j] ==> i < j
  }

  /** A row at depth at most n has no parent at depth n. */
  lemma {:induction false} NoChildOfDeepest(p: Parents, root: Id, x: Id, n: nat)
    requires n > 0 && !OnCycle(p, root) && x in p && Up(p, p[x], n) == Some(root)
    ensures !Below(p, root, x, n)
  {
    if Below(p, root, x, n) {
      var k :| 1 <= k <= n && Up(p, x, k) == Some(root);
      assert Up(p, x, n + 1) == Some(root);
      LevelsMeetOnCycle(p, root, x, k, n + 1);
    }
  }

  /** A deeper level goes before the levels above it. */
  lemma {:induction false} DeeperGoesFirst(p: Parents, root: Id, level: seq<Id>, above: seq<Id>, n: nat)
    requires n > 0 && !OnCycle(p, root) && ChildrenFirst(p, above)
    requires forall x :: x in level ==> Up(p, x, n) == Some(root)
    requires forall x :: x in above ==> Below(p, root, x, n - 1)
    ensures ChildrenFirst(p, level + above)
  {
    var ids := level + above;
    forall i, j | 0 <= i < |ids| && 0 <= j < |ids| && ids[i] in p && p[ids[i]] == ids[j]
      ensures i < j
    {
      assert ids[i] in level || ids[i] in above;
      assert Below(p, root, ids[i], n);
      if j < |level| {
        assert ids[j] in level;
        NoChildOfDeepest(p, root, ids[i], n);
      } else if i >= |level| {
        assert ids[i] == above[i - |level|] && ids[j] == above[j - |level|];
      }
    }
  }

  lemma {:induction false} LevelsChildrenFirst(p: Parents, scan: seq<Id>, root: Id, n: nat)
    requires Distinct(scan) && p.Keys <= SetOf(scan) && !OnCycle(p, root)
    ensures ChildrenFirst(p, Levels(p, scan, root, n))
  {
    if n > 0 {
      LevelsChildrenFirst(p, scan, root, n - 1);
      LevelMembers(p, scan, root, n - 1);
      LevelsMembers(p, scan, root, n - 1);
      hide ChildrenFirst, Below, Level;
      DeeperGoesFirst(p, root, Level(p, scan, root, n - 1), Levels(p, scan, root, n - 1), n);
    }
  }

  /** An empty level ends the query: nothing lies deeper. */
  lemma {:induction false} EmptyLevelIsLast(p: Parents, scan: seq<Id>, root: Id, n: nat, x: Id, k: nat)
    requires Distinct(scan) && p.Keys <= SetOf(scan)
    requires Level(p, scan, root, n) == [] && Up(p, x, k) == Some(root)
    ensures k <= n
  {
    if k > n {
      UpStops(p, x, k - n - 1, k);
      var y := Up(p, x, k - n - 1).value;
      LevelMembers(p, scan, root, n);
      assert y in Level(p, scan, root, n) <==> Up(p, y, n + 1) == Some(root);
      UpCompose(p, x, k - n - 1, n + 1);
    }
  }

  /** Below a cycle through the root no level is empty. */
  lemma {:induction false} CycleFillsLevels(p: Parents, scan: seq<Id>, root: Id, n: nat)
    requires Distinct(scan) && p.Keys <= SetOf(scan) && OnCycle(p, root)
    ensures Level(p, scan, root, n) != []
  {
    var c :| c > 0 && Up(p, root, c) == Some(root);
    UpRepeats(p, root, c, n + 1);
    var far := c * (n + 1);
    assert far >= n + 1;
    UpCompose(p, root, far - (n + 1), n + 1);
    LevelMembers(p, scan, root, n);
    assert Up(p, root, far - (n + 1)).value in Level(p, scan, root, n);
  }

  lemma {:induction false} DistinctFits(xs: seq<Id>, s: set<Id>)
    requires Distinct(xs) && forall x :: x in xs ==> x in s
    ensures |xs| <= |s|
  {
    if xs != [] {
      assert xs == [xs[0]] + xs[1..];
      DistinctFits(xs[1..], s - {xs[0]});
    }
  }

  /** The recursive query. It ends, with every strict descendant exactly once and children
      before their parents, iff the root is not on a cycle; otherwise it would emit rows for
      ever, which shows as more rows than the table has. */
  method GetAllDescendants(p: Parents, scan: IdList, root: Id) returns (ids: Option<seq<Id>>)
    requires p.Keys <= SetOf(scan)
    ensures ids.None? <==> OnCycle(p, root)
    ensures ids.Some? ==> Distinct(ids.value) && ChildrenFirst(p, ids.value)
    ensures ids.Some? ==> forall x :: x in ids.value <==> IsAncestor(p, root, x)
  {
    var acc, level, n := [], Kids(p, scan, root), 0;
    LevelMembers(p, scan, root, 0);
    while level != []
      invariant level == Level(p, scan, root, n)
      invariant acc == Levels(p, scan, root, n)
      invariant |acc| <= |scan|
      decreases |scan| - |acc|
    {
      acc := level + acc;
      level := Join(p, scan, level);
      n := n + 1;
      LevelsMembers(p, scan, root, n);
      if |acc| > |scan| {
        if !OnCycle(p, root) {
          forall x | x in acc
            ensures x in SetOf(scan)
          {
            assert Below(p, root, x, n);
          }
          DistinctFits(acc, SetOf(scan));
          SetOfSeq(scan);
        }
        return None;
      }
    }
    if OnCycle(p, root) {
      CycleFillsLevels(p, scan, root, n);
    }
    LevelsMembers(p, scan, root, n);
    LevelsChildrenFirst(p, scan, root, n);
    forall x
      ensures x in acc <==> IsAncestor(p, root, x)
    {
      if k :| k > 0 && Up(p, x, k) == Some(root) {
        EmptyLevelIsLast(p, scan, root, n, x, k);
        assert Below(p, root, x, n);
      }
    }
    ids := Some(acc);
  }

  lemma {:induction false} SetOfSeq(xs: seq<Id>)
    ensures |SetOf(xs)| <= |xs|
  {
    if xs != [] {
      SetOfSeq(xs[1..]);
      assert xs == [xs[0]] + xs[1..];
      assert SetOf(xs) == {xs[0]} + SetOf(xs[1..]);
    }
  }
}
