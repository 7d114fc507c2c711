/** In which order the page shows roots and siblings. */
module PageOrder {
  import opened Model
  import opened Forest
  import opened Filters
  import opened BudgetTree
  import opened BudgetTreeLaws

  // ---------- sorted lists ----------

  lemma {:induction false} PrecedesInFilter(cs: seq<Card>, keep: Card -> bool, a: Card, b: Card)
    requires Precedes(Filter(cs, keep), a, b)
    ensures Precedes(cs, a, b)
  {
    var k, l :| 0 <= k < l < |Filter(cs, keep)| && Filter(cs, keep)[k] == a && Filter(cs, keep)[l] == b;
    FilterKeepsOrder(cs, keep, k, l);
  }

  /** Of two cards in a sorted list the first may stay first; if they tie it came first. */
  lemma {:induction false} SortedPair(cs: seq<Card>, before: (Card, Card) -> bool, k: nat, l: nat)
    requires WeakOrder(before) && k < l < |Sort(cs, before)|
    ensures var a, b := Sort(cs, before)[k], Sort(cs, before)[l];
      !before(b, a) && (!before(a, b) ==> Precedes(cs, a, b))
  {
    var a, b := Sort(cs, before)[k], Sort(cs, before)[l];
    SortOrders(cs, before);
    if !before(a, b) {
      var tied := (x: Card) => x == a || x == b;
      assert !before(a, a) && !before(b, b);
      SortIsStable(cs, before, tied);
      PairInFilter(Sort(cs, before), tied, k, l);
      PrecedesInFilter(cs, tied, a, b);
    }
  }

  /** Newest first, and as listed if they are equally old. */
  ghost predicate NewerOrListed(cs: seq<Card>, a: Card, b: Card) {
    a.createdAt > b.createdAt || (a.createdAt == b.createdAt && Precedes(cs, a, b))
  }

  lemma {:induction false} ChildrenInOrder(cs: seq<Card>, id: Id, a: Card, b: Card)
    requires Precedes(ChildrenOf(cs, id), a, b)
    ensures NewerOrListed(cs, a, b)
  {
    var keep := (c: Card) => c.parent == Some(id);
    OrdersAreWeak();
    var k, l :| 0 <= k < l < |ChildrenOf(cs, id)| && ChildrenOf(cs, id)[k] == a && ChildrenOf(cs, id)[l] == b;
    assert ChildrenOf(cs, id) == Sort(Filter(cs, keep), NewerFirst);
    SortedPair(Filter(cs, keep), NewerFirst, k, l);
    if a.createdAt == b.createdAt {
      PrecedesInFilter(cs, keep, a, b);
    }
  }

  /** Orgs, then teams, then providers, then the rest. */
  ghost predicate KindGoesFirst(a: EntityType, b: EntityType) {
    (a == Org && b != Org) || (a == Team && (b == Provider || b == Unknown)) || (a == Provider && b == Unknown)
  }

  lemma {:induction false} RootsInOrder(cs: seq<Card>, a: Card, b: Card)
    requires Precedes(Roots(cs), a, b)
    ensures KindGoesFirst(a.kind, b.kind) || (a.kind == b.kind && NewerOrListed(cs, a, b))
  {
    var keep := (c: Card) => IsRoot(cs, c);
    OrdersAreWeak();
    var k, l :| 0 <= k < l < |Roots(cs)| && Roots(cs)[k] == a && Roots(cs)[l] == b;
    assert Roots(cs) == Sort(Filter(cs, keep), RootBefore);
    SortedPair(Filter(cs, keep), RootBefore, k, l);
    if a.kind == b.kind && a.createdAt == b.createdAt {
      PrecedesInFilter(cs, keep, a, b);
    }
  }

  // ---------- the tops of a block ----------

  /** The cards of `tops` come in their order among the entries. */
  ghost predicate TopsInOrder(tops: seq<Card>, es: seq<Entry>) {
    forall i, k :: 0 <= i < k < |es| && es[i].card in tops && es[k].card in tops ==>
      Precedes(tops, es[i].card, es[k].card)
  }

  /** Below the head of a block there is no other top. */
  lemma {:induction false} OnlyHead(cs: Cards, head: Card, tail: seq<Card>, depth: nat, e: Entry)
    requires Unrelated(ParentsIn(cs), [head] + tail) && e.card in [head] + tail
    requires Placed(ParentsIn(cs), [head], depth, e)
    ensures e.card == head
  {
    var tops := [head] + tail;
    assert head in tops;
    assert !IsAncestor(ParentsIn(cs), head.id, e.card.id);
    assert e.depth == depth;
    assert e.card.id == head.id;
    var i :| 0 <= i < |tops| && tops[i] == e.card;
    assert tops[0] == head;
  }

  lemma {:induction false} AllItemsInOrder(cs: Cards, tops: seq<Card>, depth: nat, parentId: Option<Id>, path: set<Id>)
    requires forall c :: c in tops ==> Ready(cs, c, path)
    requires Unrelated(ParentsIn(cs), tops)
    ensures TopsInOrder(tops, AllItems(cs, tops, depth, parentId, path))
    decreases |tops|
  {
    if tops != [] {
      var head, tail := tops[0], tops[1..];
      assert tops == [head] + tail;
      var xs, ys := Items(cs, head, depth, parentId, path), AllItems(cs, tail, depth, parentId, path);
      ItemsLaid(cs, head, depth, parentId, path);
      AllItemsLaid(cs, tail, depth, parentId, path);
      AllItemsInOrder(cs, tail, depth, parentId, path);
      hide Items, AllItems, Ready;
      BlocksInOrder(cs, head, tail, depth, xs, ys);
    }
  }

  lemma {:induction false} BlocksInOrder(cs: Cards, head: Card, tail: seq<Card>, depth: nat, xs: seq<Entry>, ys: seq<Entry>)
    requires Unrelated(ParentsIn(cs), [head] + tail)
    requires Laid(cs, [head], depth, xs) && Laid(cs, tail, depth, ys) && TopsInOrder(tail, ys)
    ensures TopsInOrder([head] + tail, xs + ys)
  {
    var tops, es := [head] + tail, xs + ys;
    hide Placed, Preorder, Covers, Unrelated;
    forall i, k | 0 <= i < k < |es| && es[i].card in tops && es[k].card in tops
      ensures Precedes(tops, es[i].card, es[k].card)
    {
      if i < |xs| {
        OnlyHead(cs, head, tail, depth, xs[i]);
      }
      if k < |xs| {
        OnlyHead(cs, head, tail, depth, xs[k]);
        assert false;
      } else {
        Apart2(cs, head, tail, depth, ys[k - |xs|]);
        var y := es[k].card;
        assert y in tail;
        if i < |xs| {
          var j :| 0 <= j < |tail| && tail[j] == y;
          assert tops[0] == head && tops[j + 1] == y;
        } else {
          Apart2(cs, head, tail, depth, ys[i - |xs|]);
          var m, n :| 0 <= m < n < |tail| && tail[m] == es[i].card && tail[n] == y;
          assert tops[m + 1] == es[i].card && tops[n + 1] == y;
        }
      }
    }
  }

  /** The head of the other block is not in this one. */
  lemma {:induction false} Apart2(cs: Cards, head: Card, tail: seq<Card>, depth: nat, e: Entry)
    requires Unrelated(ParentsIn(cs), [head] + tail) && e.card in [head] + tail
    requires Placed(ParentsIn(cs), tail, depth, e)
    ensures e.card in tail
  {
    var tops := [head] + tail;
    var c :| c in tail && Up(ParentsIn(cs), e.card.id, e.depth - depth) == Some(c.id);
    assert head in tops && c in tops;
    assert !IsAncestor(ParentsIn(cs), c.id, head.id);
    var j :| 0 <= j < |tail| && tail[j] == c;
    assert tops[0] == head && tops[j + 1] == c;
    assert e.card != head;
  }

  // ---------- the block below every entry ----------

  /** The entries right behind entry `m` are those of its children. */
  ghost predicate BlockAt(cs: Cards, es: seq<Entry>, m: nat, path: set<Id>) {
    && m < |es|
    && (forall x :: x in ChildrenOf(cs, es[m].card.id) ==> Ready(cs, x, path))
    && (var rest := AllItems(cs, ChildrenOf(cs, es[m].card.id), es[m].depth + 1, Some(es[m].card.id), path);
        m + 1 + |rest| <= |es| && es[m + 1..m + 1 + |rest|] == rest)
  }

  ghost predicate HasBlock(cs: Cards, es: seq<Entry>, m: nat) {
    exists path :: BlockAt(cs, es, m, path)
  }

  lemma {:induction false} BlockInside(cs: Cards, xs: seq<Entry>, es: seq<Entry>, ys: seq<Entry>, m: nat)
    requires HasBlock(cs, es, m)
    ensures HasBlock(cs, xs + es + ys, |xs| + m)
  {
    var path :| BlockAt(cs, es, m, path);
    var all, n := xs + es + ys, |xs|;
    assert all[n + m] == es[m];
    var rest := AllItems(cs, ChildrenOf(cs, es[m].card.id), es[m].depth + 1, Some(es[m].card.id), path);
    hide AllItems, ChildrenOf, Ready;
    assert all[n + m + 1..n + m + 1 + |rest|] == es[m + 1..m + 1 + |rest|];
    assert BlockAt(cs, all, n + m, path);
  }

  lemma {:induction false} ItemsHaveBlocks(cs: Cards, c: Card, depth: nat, parentId: Option<Id>, path: set<Id>)
    requires Ready(cs, c, path)
    ensures forall m :: 0 <= m < |Items(cs, c, depth, parentId, path)| ==> HasBlock(cs, Items(cs, c, depth, parentId, path), m)
    decreases CardIds(cs) - path, 1, 0
  {
    ChildrenAreReady(cs, c, path);
    var children := ChildrenOf(cs, c.id);
    var head := Entry(c, depth, parentId, children != []);
    var rest := AllItems(cs, children, depth + 1, Some(c.id), path + {c.id});
    var es := Items(cs, c, depth, parentId, path);
    AllItemsHaveBlocks(cs, children, depth + 1, Some(c.id), path + {c.id});
    assert es == [head] + rest + [];
    hide Items, AllItems, Ready, ChildrenOf;
    assert es[1..1 + |rest|] == rest;
    assert BlockAt(cs, es, 0, path + {c.id});
    forall m | 0 <= m < |es|
      ensures HasBlock(cs, es, m)
    {
      if m > 0 {
        BlockInside(cs, [head], rest, [], m - 1);
      }
    }
  }

  lemma {:induction false} AllItemsHaveBlocks(cs: Cards, tops: seq<Card>, depth: nat, parentId: Option<Id>, path: set<Id>)
    requires forall c :: c in tops ==> Ready(cs, c, path)
    ensures forall m :: 0 <= m < |AllItems(cs, tops, depth, parentId, path)| ==>
      HasBlock(cs, AllItems(cs, tops, depth, parentId, path), m)
    decreases CardIds(cs) - path, 2, |tops|
  {
    if tops != [] {
      var xs, ys := Items(cs, tops[0], depth, parentId, path), AllItems(cs, tops[1..], depth, parentId, path);
      ItemsHaveBlocks(cs, tops[0], depth, parentId, path);
      AllItemsHaveBlocks(cs, tops[1..], depth, parentId, path);
      var es := AllItems(cs, tops, depth, parentId, path);
      assert es == [] + xs + ys == xs + ys + [];
      hide Items, AllItems, Ready, HasBlock;
      forall m | 0 <= m < |es|
        ensures HasBlock(cs, es, m)
      {
        if m < |xs| {
          BlockInside(cs, [], xs, ys, m);
        } else {
          BlockInside(cs, xs, ys, [], m - |xs|);
        }
      }
    }
  }

  // ---------- the whole page ----------

  /** Roots come as orgs, teams, providers and the rest, and within a type newest first. */
  lemma {:induction false} PageShowsRootsInOrder(cs: Cards, i: nat, k: nat)
    requires i < k < |Flatten(cs)| && IsRoot(cs, Flatten(cs)[i].card) && IsRoot(cs, Flatten(cs)[k].card)
    ensures var a, b := Flatten(cs)[i].card, Flatten(cs)[k].card;
      KindGoesFirst(a.kind, b.kind) || (a.kind == b.kind && NewerOrListed(cs, a, b))
  {
    var es := Flatten(cs);
    PageIsPreorder(cs);
    assert Indented(cs, es[i]) && Indented(cs, es[k]);
    RootsAreReady(cs);
    RootsUnrelated(cs);
    AllItemsInOrder(cs, Roots(cs), 0, None, {});
    ParentLinks(cs, es[i].card);
    ParentLinks(cs, es[k].card);
    hide Roots, AllItems, Items;
    RootsInOrder(cs, es[i].card, es[k].card);
  }

  /** Siblings come newest first, and as listed if they are equally old. */
  lemma {:induction false} PageShowsSiblingsInOrder(cs: Cards, p: Card, i: nat, k: nat)
    requires p in cs && i < k < |Flatten(cs)|
    requires Flatten(cs)[i].card.parent == Flatten(cs)[k].card.parent == Some(p.id)
    ensures NewerOrListed(cs, Flatten(cs)[i].card, Flatten(cs)[k].card)
  {
    var m := ParentIsShown(cs, p, i);
    BlocksOfPage(cs, m);
    PageIsPreorder(cs);
    var es := Flatten(cs);
    assert Indented(cs, es[i]) && Indented(cs, es[k]);
    var path :| BlockAt(cs, es, m, path);
    hide Flatten, Preorder, BlockAt, AllItems, Ready, Unrelated;
    ShownIsReady(cs, m);
    SiblingsUnrelated(cs, p, {});
    SiblingsInBlock(cs, es, m, path, i, k);
    ChildrenInOrder(cs, p.id, es[i].card, es[k].card);
  }

  lemma {:induction false} BlocksOfPage(cs: Cards, m: nat)
    requires m < |Flatten(cs)|
    ensures HasBlock(cs, Flatten(cs), m)
  {
    RootsAreReady(cs);
    AllItemsHaveBlocks(cs, Roots(cs), 0, None, {});
  }

  lemma {:induction false} ShownIsReady(cs: Cards, m: nat)
    requires m < |Flatten(cs)|
    ensures Flatten(cs)[m].card in cs && Ready(cs, Flatten(cs)[m].card, {})
  {
    PageIsPreorder(cs);
    hide Flatten, Preorder;
    assert Indented(cs, Flatten(cs)[m]);
    assert Shows(Flatten(cs), Flatten(cs)[m].card);
  }

  /** A parent in the list is shown if its child is. */
  lemma {:induction false} ParentIsShown(cs: Cards, p: Card, i: nat) returns (m: nat)
    requires p in cs && i < |Flatten(cs)| && Flatten(cs)[i].card.parent == Some(p.id)
    ensures m < |Flatten(cs)| && Flatten(cs)[m].card == p
  {
    var x := Flatten(cs)[i].card;
    PageIsPreorder(cs);
    hide Flatten, Preorder;
    assert Indented(cs, Flatten(cs)[i]);
    assert Shows(Flatten(cs), x);
    var j :| 0 <= j < |cs| && cs[j] == p;
    assert p.id in CardIds(cs);
    ParentLinks(cs, x);
    if Endless(ParentsIn(cs), p.id) {
      assert Up(ParentsIn(cs), x.id, 1) == Some(p.id);
      EndlessAbove(ParentsIn(cs), x.id, 1);
    }
    m :| 0 <= m < |Flatten(cs)| && Flatten(cs)[m].card == p;
  }

  /** All children of an entry are in the block behind it. */
  lemma {:induction false} ChildInBlock(cs: Cards, es: seq<Entry>, m: nat, path: set<Id>, i: nat)
    requires BlockAt(cs, es, m, path) && OnceEach(es) && i < |es| && es[m].card in cs && es[i].card in cs
    requires es[i].card.parent == Some(es[m].card.id)
    requires Unrelated(ParentsIn(cs), ChildrenOf(cs, es[m].card.id))
    ensures es[i].card in ChildrenOf(cs, es[m].card.id)
    ensures var rest := AllItems(cs, ChildrenOf(cs, es[m].card.id), es[m].depth + 1, Some(es[m].card.id), path);
      m + 1 <= i < m + 1 + |rest| && rest[i - m - 1] == es[i]
  {
    var c, x := es[m].card, es[i].card;
    var rest := AllItems(cs, ChildrenOf(cs, c.id), es[m].depth + 1, Some(c.id), path);
    IsChild(cs, c, x);
    var r := ChildIsShown(cs, c, x, es[m].depth + 1, path);
    hide AllItems, ChildrenOf, Ready, Unrelated, OnceEach;
    assert es[m + 1..m + 1 + |rest|][r] == es[m + 1 + r];
    SameEntry(es, i, m + 1 + r);
  }

  lemma {:induction false} ChildIsShown(cs: Cards, c: Card, x: Card, depth: nat, path: set<Id>) returns (r: nat)
    requires x in cs && x in ChildrenOf(cs, c.id) && Unrelated(ParentsIn(cs), ChildrenOf(cs, c.id))
    requires forall y :: y in ChildrenOf(cs, c.id) ==> Ready(cs, y, path)
    ensures var rest := AllItems(cs, ChildrenOf(cs, c.id), depth, Some(c.id), path);
      r < |rest| && rest[r].card == x
  {
    var children := ChildrenOf(cs, c.id);
    AllItemsLaid(cs, children, depth, Some(c.id), path);
    var rest := AllItems(cs, children, depth, Some(c.id), path);
    hide AllItems, ChildrenOf, Ready, Preorder, Unrelated, AllPlaced, OnceEach;
    assert Up(ParentsIn(cs), x.id, 0) == Some(x.id);
    hide ParentsIn, Up;
    assert Subtrees(ParentsIn(cs), children, x.id);
    assert Shows(rest, x);
    r :| 0 <= r < |rest| && rest[r].card == x;
  }

  lemma SameEntry(es: seq<Entry>, i: nat, j: nat)
    requires OnceEach(es) && i < |es| && j < |es| && es[i].card == es[j].card
    ensures i == j
  {}

  lemma {:induction false} IsChild(cs: Cards, c: Card, x: Card)
    requires c in cs && x in cs && x.parent == Some(c.id)
    ensures x in ChildrenOf(cs, c.id)
  {
    ChildrenAre(cs, c);
    ParentLinks(cs, x);
    var j :| 0 <= j < |cs| && cs[j] == c;
    assert c.id in CardIds(cs);
  }

  lemma {:induction false} SiblingsInBlock(cs: Cards, es: seq<Entry>, m: nat, path: set<Id>, i: nat, k: nat)
    requires BlockAt(cs, es, m, path) && OnceEach(es) && i < k < |es|
    requires es[m].card in cs && es[i].card in cs && es[k].card in cs
    requires es[i].card.parent == es[k].card.parent == Some(es[m].card.id)
    requires Unrelated(ParentsIn(cs), ChildrenOf(cs, es[m].card.id))
    ensures Precedes(ChildrenOf(cs, es[m].card.id), es[i].card, es[k].card)
  {
    var c := es[m].card;
    var rest := AllItems(cs, ChildrenOf(cs, c.id), es[m].depth + 1, Some(c.id), path);
    ChildInBlock(cs, es, m, path, i);
    ChildInBlock(cs, es, m, path, k);
    AllItemsInOrder(cs, ChildrenOf(cs, c.id), es[m].depth + 1, Some(c.id), path);
    hide AllItems, ChildrenOf, Unrelated;
    assert rest[i - m - 1].card == es[i].card && rest[k - m - 1].card == es[k].card;
  }
}
