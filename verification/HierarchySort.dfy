/** sortBudgetsByHierarchy: teams, then orgs, then providers, each group in input order. */
module HierarchySort {
  import opened Model

  function Rank(k: EntityType): nat {
    match k
    case Team => 0
    case Org => 1
    case Provider => 2
    case Unknown => 3
  }

  function OfKind(bs: seq<Budget>, k: EntityType): seq<Budget> {
    if bs == [] then []
    else if bs[0].kind == k then [bs[0]] + OfKind(bs[1..], k)
    else OfKind(bs[1..], k)
  }

  function Sorted(bs: seq<Budget>): seq<Budget> {
    OfKind(bs, Team) + OfKind(bs, Org) + OfKind(bs, Provider)
  }

  ghost predicate Ordered(bs: seq<Budget>) {
    forall i, j :: 0 <= i < j < |bs| ==> Rank(bs[i].kind) <= Rank(bs[j].kind)
  }

  ghost predicate KnownKinds(bs: seq<Budget>) {
    forall i :: 0 <= i < |bs| ==> bs[i].kind != Unknown
  }

  lemma {:induction false} OfKindAppend(bs: seq<Budget>, cs: seq<Budget>, k: EntityType)
    ensures OfKind(bs + cs, k) == OfKind(bs, k) + OfKind(cs, k)
  {
    if bs == [] {
      assert bs + cs == cs;
    } else {
      assert (bs + cs)[1..] == bs[1..] + cs;
      OfKindAppend(bs[1..], cs, k);
    }
  }

  lemma {:induction false} OfKindMembers(bs: seq<Budget>, k: EntityType)
    ensures forall b :: b in OfKind(bs, k) <==> b in bs && b.kind == k
  {
    if bs != [] {
      OfKindMembers(bs[1..], k);
      assert bs == [bs[0]] + bs[1..];
    }
  }

  lemma {:induction false} OfKindDistinct(bs: seq<Budget>, k: EntityType)
    requires DistinctIds(bs)
    ensures DistinctIds(OfKind(bs, k))
  {
    if bs != [] {
      OfKindDistinct(bs[1..], k);
      OfKindMembers(bs[1..], k);
    }
  }

  /** Keeping one kind of a list that holds only one kind. */
  lemma {:induction false} OfKindUniform(bs: seq<Budget>, k: EntityType, k': EntityType)
    requires forall i :: 0 <= i < |bs| ==> bs[i].kind == k
    ensures OfKind(bs, k') == if k == k' then bs else []
  {
    if bs != [] {
      OfKindUniform(bs[1..], k, k');
    }
  }

  /** What sortBudgetsByHierarchy returns: ordered by specificity, holding exactly the
      budgets of known type, each type in the order it came in. */
  lemma SortedIsStable(bs: seq<Budget>)
    ensures Ordered(Sorted(bs)) && KnownKinds(Sorted(bs))
    ensures forall k :: k != Unknown ==> OfKind(Sorted(bs), k) == OfKind(bs, k)
    ensures forall b :: b in Sorted(bs) <==> b in bs && b.kind != Unknown
    ensures forall i, j :: 0 <= i < j < |Sorted(bs)| ==>
      var a, b := Sorted(bs)[i].kind, Sorted(bs)[j].kind;
      a == b || a == Team || (a == Org && b == Provider)
  {
    OfKindMembers(bs, Team);
    OfKindMembers(bs, Org);
    OfKindMembers(bs, Provider);
    hide OfKind;
    forall k | k != Unknown
      ensures OfKind(Sorted(bs), k) == OfKind(bs, k)
    {
      SortedKeepsKind(bs, k);
    }
    assert forall i :: 0 <= i < |Sorted(bs)| ==> Sorted(bs)[i] in Sorted(bs);
  }

  lemma SortedKeepsKind(bs: seq<Budget>, k: EntityType)
    requires k != Unknown
    ensures OfKind(Sorted(bs), k) == OfKind(bs, k)
  {
    OfKindMembers(bs, Team);
    OfKindMembers(bs, Org);
    OfKindMembers(bs, Provider);
    hide OfKind;
    OfKindAppend(OfKind(bs, Team) + OfKind(bs, Org), OfKind(bs, Provider), k);
    OfKindAppend(OfKind(bs, Team), OfKind(bs, Org), k);
    OfKindUniform(OfKind(bs, Team), Team, k);
    OfKindUniform(OfKind(bs, Org), Org, k);
    OfKindUniform(OfKind(bs, Provider), Provider, k);
  }

  /** The three facts above leave no freedom: they are a complete specification of the sort. */
  lemma {:induction false} StableOrderIsUnique(xs: seq<Budget>, ys: seq<Budget>)
    requires Ordered(xs) && KnownKinds(xs) && Ordered(ys) && KnownKinds(ys)
    requires forall k :: k != Unknown ==> OfKind(xs, k) == OfKind(ys, k)
    ensures xs == ys
  {
    if xs == [] || ys == [] {
      if ys != [] {
        OfKindMembers(ys, ys[0].kind);
      }
      if xs != [] {
        OfKindMembers(xs, xs[0].kind);
      }
    } else {
      var k, l := xs[0].kind, ys[0].kind;
      OfKindMembers(xs, l);
      OfKindMembers(ys, k);
      assert OfKind(xs, k)[0] == xs[0];
      assert xs[0] in OfKind(xs, k);
      assert OfKind(ys, l)[0] == ys[0];
      assert ys[0] in OfKind(ys, l);
      assert xs[0] in ys && ys[0] in xs;
      assert Rank(k) == Rank(l);
      assert k == l;
      forall m | m != Unknown
        ensures OfKind(xs[1..], m) == OfKind(ys[1..], m)
      {
        assert OfKind(xs, m) == OfKind(ys, m);
        if m == k {
          assert OfKind(xs, m) == [xs[0]] + OfKind(xs[1..], m);
          assert OfKind(ys, m) == [ys[0]] + OfKind(ys[1..], m);
          assert OfKind(xs[1..], m) == OfKind(xs, m)[1..];
          assert OfKind(ys[1..], m) == OfKind(ys, m)[1..];
        }
      }
      StableOrderIsUnique(xs[1..], ys[1..]);
    }
  }

  lemma SortedDistinct(bs: seq<Budget>)
    requires DistinctIds(bs)
    ensures DistinctIds(Sorted(bs))
  {
    OfKindDistinct(bs, Team);
    OfKindDistinct(bs, Org);
    OfKindDistinct(bs, Provider);
    OfKindMembers(bs, Team);
    OfKindMembers(bs, Org);
    OfKindMembers(bs, Provider);
    forall i, j | 0 <= i < j < |Sorted(bs)|
      ensures Sorted(bs)[i].id != Sorted(bs)[j].id
    {
      var x, y := Sorted(bs)[i], Sorted(bs)[j];
      if x.kind == y.kind {
        var k := x.kind;
        var t, o := |OfKind(bs, Team)|, |OfKind(bs, Org)|;
        var at := if k == Team then 0 else if k == Org then t else t + o;
        assert x == OfKind(bs, k)[i - at] && y == OfKind(bs, k)[j - at];
      } else {
        assert x in bs && y in bs;
      }
    }
  }

  /** Each child strictly more specific than its parent, as teams under orgs under providers. */
  ghost predicate ParentsLessSpecific(bs: seq<Budget>) {
    forall i, j :: 0 <= i < |bs| && 0 <= j < |bs| && bs[i].parent == Some(bs[j].id)
      ==> Rank(bs[i].kind) < Rank(bs[j].kind)
  }

  /** A path of parent links inside the list. */
  ghost predicate ParentPath(bs: seq<Budget>, path: seq<Budget>) {
    && (forall i :: 0 <= i < |path| ==> path[i] in bs)
    && (forall i :: 0 <= i < |path| - 1 ==> path[i].parent == Some(path[i + 1].id))
  }

  /** Bucket filling relies on this: a budget comes before all of its ancestors. */
  lemma {:induction false} ChildBeforeAncestors(bs: seq<Budget>, path: seq<Budget>, i: nat, j: nat)
    requires ParentsLessSpecific(bs) && ParentPath(bs, path) && |path| >= 2
    requires i < |Sorted(bs)| && j < |Sorted(bs)|
    requires Sorted(bs)[i] == path[0] && Sorted(bs)[j] == path[|path| - 1]
    ensures i < j
  {
    RankGrowsAlong(bs, path);
    SortedIsStable(bs);
    assert Rank(Sorted(bs)[i].kind) < Rank(Sorted(bs)[j].kind);
  }

  lemma {:induction false} RankGrowsAlong(bs: seq<Budget>, path: seq<Budget>)
    requires ParentsLessSpecific(bs) && ParentPath(bs, path) && |path| >= 2
    ensures Rank(path[0].kind) < Rank(path[|path| - 1].kind)
  {
    var a, b := path[0], path[1];
    assert a in bs && b in bs;
    assert Rank(a.kind) < Rank(b.kind);
    if |path| > 2 {
      assert ParentPath(bs, path[1..]);
      RankGrowsAlong(bs, path[1..]);
    }
  }

  /** The ancestor query already answers in depth order, so the sort leaves it alone. */
  lemma SortFixesChains(chain: seq<Budget>)
    requires KnownKinds(chain)
    requires forall i :: 0 <= i < |chain| - 1 ==> chain[i].parent == Some(chain[i + 1].id)
    requires ParentsLessSpecific(chain)
    ensures Sorted(chain) == chain
  {
    forall i, j | 0 <= i < j < |chain|
      ensures Rank(chain[i].kind) <= Rank(chain[j].kind)
    {
      assert ParentPath(chain, chain[i..j + 1]);
      RankGrowsAlong(chain, chain[i..j + 1]);
    }
    SortedIsStable(chain);
    StableOrderIsUnique(Sorted(chain), chain);
  }

  /** Three passes over the input, one per type. */
  method SortBudgetsByHierarchy(budgets: seq<Budget>) returns (sorted: seq<Budget>)
    ensures sorted == Sorted(budgets)
  {
    sorted := [];
    for i := 0 to |budgets|
      invariant sorted == OfKind(budgets[..i], Team)
    {
      ExtendPrefix(budgets, i, Team);
      if budgets[i].kind == Team {
        sorted := sorted + [budgets[i]];
      }
    }
    assert budgets[..|budgets|] == budgets;
    for i := 0 to |budgets|
      invariant sorted == OfKind(budgets, Team) + OfKind(budgets[..i], Org)
    {
      ExtendPrefix(budgets, i, Org);
      if budgets[i].kind == Org {
        sorted := sorted + [budgets[i]];
      }
    }
    for i := 0 to |budgets|
      invariant sorted == OfKind(budgets, Team) + OfKind(budgets, Org) + OfKind(budgets[..i], Provider)
    {
      ExtendPrefix(budgets, i, Provider);
      if budgets[i].kind == Provider {
        sorted := sorted + [budgets[i]];
      }
    }
  }

  lemma ExtendPrefix(bs: seq<Budget>, i: nat, k: EntityType)
    requires i < |bs|
    ensures OfKind(bs[..i + 1], k) == OfKind(bs[..i], k) + if bs[i].kind == k then [bs[i]] else []
  {
    assert bs[..i + 1] == bs[..i] + [bs[i]];
    OfKindAppend(bs[..i], [bs[i]], k);
  }
}
