/** What the indented list looks like, for every list of budgets with unique ids. */
module BudgetTreeLaws {
  import opened Model
  import opened Forest
  import opened Filters
  import opened BudgetTree

  /** The entry's card is `n` links below one of the given cards and indented accordingly. */
  ghost predicate Placed(p: Parents, tops: seq<Card>, depth: nat, e: Entry) {
    e.depth >= depth && exists c :: c in tops && Up(p, e.card.id, e.depth - depth) == Some(c.id)
  }

  ghost predicate OnceEach(es: seq<Entry>) {
    forall i, j :: 0 <= i < j < |es| ==> es[i].card.id != es[j].card.id
  }

  /** Preorder: the entries after `i` that are indented deeper, without a break, are exactly
      the strict descendants of entry `i`. */
  ghost predicate Preorder(p: Parents, es: seq<Entry>) {
    forall i, k :: 0 <= i < |es| && 0 <= k < |es| ==>
      (IsAncestor(p, es[i].card.id, es[k].card.id) <==> i < k && DeeperThrough(es, i, k))
  }

  ghost predicate DeeperThrough(es: seq<Entry>, i: nat, k: nat)
    requires i < |es| && k < |es|
  {
    forall j :: i < j <= k ==> es[j].depth > es[i].depth
  }

  /** No card is its own or another's ancestor. */
  ghost predicate Unrelated(p: Parents, cs: seq<Card>) {
    && UniqueCards(cs)
    && forall a, b :: a in cs && b in cs ==> !IsAncestor(p, a.id, b.id)
  }

  ghost predicate Subtrees(p: Parents, tops: seq<Card>, x: Id) {
    exists c, n :: c in tops && Up(p, x, n) == Some(c.id)
  }

  /** Everything the recursion promises about the block it emits for `tops`. */
  ghost predicate Laid(cs: Cards, tops: seq<Card>, depth: nat, es: seq<Entry>) {
    && AllPlaced(cs, tops, depth, es)
    && Covers(cs, tops, es)
    && OnceEach(es)
    && Preorder(ParentsIn(cs), es)
    && (es != [] ==> es[0].depth == depth)
  }

  ghost predicate AllPlaced(cs: Cards, tops: seq<Card>, depth: nat, es: seq<Entry>) {
    forall i :: 0 <= i < |es| ==> es[i].card in cs && Placed(ParentsIn(cs), tops, depth, es[i])
  }

  ghost predicate Shows(es: seq<Entry>, x: Card) {
    exists i :: 0 <= i < |es| && es[i].card == x
  }

  ghost predicate Covers(cs: Cards, tops: seq<Card>, es: seq<Entry>) {
    forall x :: x in cs && Subtrees(ParentsIn(cs), tops, x.id) ==> Shows(es, x)
  }

  lemma SiblingsUnrelated(cs: Cards, c: Card, path: set<Id>)
    requires Ready(cs, c, path)
    ensures Unrelated(ParentsIn(cs), ChildrenOf(cs, c.id))
  {
    var p := ParentsIn(cs);
    ChildrenAre(cs, c);
    forall a, b | a in ChildrenOf(cs, c.id) && b in ChildrenOf(cs, c.id)
      ensures !IsAncestor(p, a.id, b.id)
    {
      if IsAncestor(p, a.id, b.id) {
        var n :| n > 0 && Up(p, b.id, n) == Some(a.id);
        // a lies n - 1 links above c, and c one above a.
        assert Up(p, c.id, n - 1) == Some(a.id);
        UpCompose(p, c.id, n - 1, 1);
        assert Up(p, a.id, 1) == Some(c.id);
        assert Up(p, c.id, n) == Some(c.id);
        CycleIsEndless(p, c.id);
      }
    }
  }

  lemma {:induction false} SubtreesApart(p: Parents, a: Id, b: Id, x: Id, m: nat, n: nat)
    requires Up(p, x, m) == Some(a) && Up(p, x, n) == Some(b)
    requires !IsAncestor(p, a, b) && !IsAncestor(p, b, a)
    ensures a == b
  {
    if m < n {
      UpCompose(p, x, m, n - m);
    } else if n < m {
      UpCompose(p, x, n, m - n);
    }
  }

  lemma {:induction false} ItemsLaid(cs: Cards, c: Card, depth: nat, parentId: Option<Id>, path: set<Id>)
    requires Ready(cs, c, path)
    ensures Laid(cs, [c], depth, Items(cs, c, depth, parentId, path))
    decreases CardIds(cs) - path, 1, 0
  {
    var p := ParentsIn(cs);
    var children := ChildrenOf(cs, c.id);
    ChildrenAreReady(cs, c, path);
    ChildrenAre(cs, c);
    SiblingsUnrelated(cs, c, path);
    AllItemsLaid(cs, children, depth + 1, Some(c.id), path + {c.id});
    HeadLaid(cs, c, depth, Items(cs, c, depth, parentId, path),
      AllItems(cs, children, depth + 1, Some(c.id), path + {c.id}));
  }

  lemma {:induction false} UnderChild(p: Parents, c: Id, x: Id, y: Id, n: nat)
    requires x in p && p[x] == c && Up(p, y, n) == Some(x) && !Endless(p, c)
    ensures Up(p, y, n + 1) == Some(c)
    ensures IsAncestor(p, c, y) && !IsAncestor(p, y, c) && y != c
  {
    UpCompose(p, y, n, 1);
    assert Up(p, x, 1) == Some(c);
    hide Endless;
    if IsAncestor(p, y, c) {
      AncestorsChain(p, c, y, c);
      CycleIsEndless(p, c);
    }
    if y == c {
      CycleIsEndless(p, c);
    }
  }

  lemma {:induction false} BelowHead(cs: Cards, c: Card, depth: nat, e: Entry)
    requires c in cs && !Endless(ParentsIn(cs), c.id)
    requires Placed(ParentsIn(cs), ChildrenOf(cs, c.id), depth + 1, e)
    ensures e.depth > depth && Up(ParentsIn(cs), e.card.id, e.depth - depth) == Some(c.id)
    ensures IsAncestor(ParentsIn(cs), c.id, e.card.id)
    ensures !IsAncestor(ParentsIn(cs), e.card.id, c.id)
    ensures e.card.id != c.id
  {
    ChildrenAre(cs, c);
    hide ParentsIn, ChildrenOf, Up, Endless, IsAncestor;
    var x :| x in ChildrenOf(cs, c.id) && Up(ParentsIn(cs), e.card.id, e.depth - (depth + 1)) == Some(x.id);
    UnderChild(ParentsIn(cs), c.id, x.id, e.card.id, e.depth - (depth + 1));
  }

  lemma {:induction false} HeadLaid(cs: Cards, c: Card, depth: nat, es: seq<Entry>, rest: seq<Entry>)
    requires c in cs && !Endless(ParentsIn(cs), c.id)
    requires Laid(cs, ChildrenOf(cs, c.id), depth + 1, rest)
    requires |es| == |rest| + 1 && es[0].card == c && es[0].depth == depth && es[1..] == rest
    ensures Laid(cs, [c], depth, es)
  {
    hide Preorder, Placed, Covers;
    var p := ParentsIn(cs);
    assert forall k :: 1 <= k < |es| ==> es[k] == rest[k - 1];
    forall k | 0 <= k < |rest|
      ensures rest[k].card.id != c.id && rest[k].depth > depth
      ensures Up(p, rest[k].card.id, rest[k].depth - depth) == Some(c.id)
      ensures IsAncestor(p, c.id, rest[k].card.id) && !IsAncestor(p, rest[k].card.id, c.id)
    {
      BelowHead(cs, c, depth, rest[k]);
    }
    forall i | 0 <= i < |es|
      ensures es[i].card in cs && Placed(p, [c], depth, es[i])
    {
      PlacedUnder(p, c, depth, es[i]);
    }
    HeadCovers(cs, c, es, rest);
    if IsAncestor(p, c.id, c.id) {
      CycleIsEndless(p, c.id);
    }
    HeadPreorder(p, c, depth, es, rest);
  }

  lemma PlacedUnder(p: Parents, c: Card, depth: nat, e: Entry)
    requires e.depth >= depth && Up(p, e.card.id, e.depth - depth) == Some(c.id)
    ensures Placed(p, [c], depth, e)
  {
    assert c in [c];
  }

  lemma {:induction false} HeadCovers(cs: Cards, c: Card, es: seq<Entry>, rest: seq<Entry>)
    requires c in cs && Covers(cs, ChildrenOf(cs, c.id), rest)
    requires |es| == |rest| + 1 && es[0].card == c && es[1..] == rest
    ensures Covers(cs, [c], es)
  {
    var p := ParentsIn(cs);
    forall x | x in cs && Subtrees(p, [c], x.id)
      ensures Shows(es, x)
    {
      var d, n :| d in [c] && Up(p, x.id, n) == Some(d.id);
      HeadOrBelow(cs, c, x, n);
      if x == c {
        assert es[0].card == x;
      } else {
        var k :| 0 <= k < |rest| && rest[k].card == x;
        assert es[k + 1].card == x;
      }
    }
  }

  lemma {:induction false} HeadOrBelow(cs: Cards, c: Card, x: Card, n: nat)
    requires c in cs && x in cs && Up(ParentsIn(cs), x.id, n) == Some(c.id)
    ensures x == c || Subtrees(ParentsIn(cs), ChildrenOf(cs, c.id), x.id)
  {
    var p := ParentsIn(cs);
    if n == 0 {
      var i, j :| 0 <= i < |cs| && 0 <= j < |cs| && cs[i] == c && cs[j] == x;
    } else {
      UpStops(p, x.id, n - 1, n);
      UpCompose(p, x.id, n - 1, 1);
      var y := Up(p, x.id, n - 1).value;
      assert y in p && p[y] == c.id;
      var i :| 0 <= i < |cs| && cs[i].id == y;
      assert cs[i] in cs;
      ChildrenAre(cs, c);
      assert cs[i] in ChildrenOf(cs, c.id);
    }
  }

  lemma {:induction false} HeadPreorder(p: Parents, c: Card, depth: nat, es: seq<Entry>, rest: seq<Entry>)
    requires |es| == |rest| + 1 && es[0].card == c && es[0].depth == depth
    requires forall k :: 1 <= k < |es| ==> es[k] == rest[k - 1]
    requires forall k :: 0 <= k < |rest| ==> rest[k].depth > depth
    requires forall k :: 0 <= k < |rest| ==> IsAncestor(p, c.id, rest[k].card.id)
    requires forall k :: 0 <= k < |rest| ==> !IsAncestor(p, rest[k].card.id, c.id)
    requires !IsAncestor(p, c.id, c.id)
    requires Preorder(p, rest)
    ensures Preorder(p, es)
  {
    forall i, k | 0 <= i < |es| && 0 <= k < |es|
      ensures IsAncestor(p, es[i].card.id, es[k].card.id) <==> i < k && DeeperThrough(es, i, k)
    {
      if i > 0 && k > 0 {
        assert i < k ==> (DeeperThrough(es, i, k) <==> DeeperThrough(rest, i - 1, k - 1)) by {
          if i < k && DeeperThrough(es, i, k) {
            forall j | i - 1 < j <= k - 1 ensures rest[j].depth > rest[i - 1].depth {
              assert es[j + 1].depth > es[i].depth;
            }
          }
          if i < k && DeeperThrough(rest, i - 1, k - 1) {
            forall j | i < j <= k ensures es[j].depth > es[i].depth {
              assert rest[j - 1].depth > rest[i - 1].depth;
            }
          }
        }
      }
    }
  }

  lemma {:induction false} AllItemsLaid(cs: Cards, tops: seq<Card>, depth: nat, parentId: Option<Id>, path: set<Id>)
    requires forall c :: c in tops ==> Ready(cs, c, path)
    requires Unrelated(ParentsIn(cs), tops)
    ensures Laid(cs, tops, depth, AllItems(cs, tops, depth, parentId, path))
    decreases CardIds(cs) - path, 2, |tops|
  {
    if tops != [] {
      var head, tail := tops[0], tops[1..];
      assert tops == [head] + tail;
      ItemsLaid(cs, head, depth, parentId, path);
      AllItemsLaid(cs, tail, depth, parentId, path);
      Beside(cs, head, tail, depth, Items(cs, head, depth, parentId, path), AllItems(cs, tail, depth, parentId, path));
    }
  }

  /** Blocks of unrelated cards stay apart when put side by side. */
  lemma {:induction false} Beside(cs: Cards, head: Card, tail: seq<Card>, depth: nat, xs: seq<Entry>, ys: seq<Entry>)
    requires Unrelated(ParentsIn(cs), [head] + tail)
    requires Laid(cs, [head], depth, xs) && Laid(cs, tail, depth, ys)
    ensures Laid(cs, [head] + tail, depth, xs + ys)
  {
    hide Preorder, Placed, Covers, IsAncestor, Unrelated;
    var p, es, tops := ParentsIn(cs), xs + ys, [head] + tail;
    forall i, k | 0 <= i < |xs| && 0 <= k < |ys|
      ensures xs[i].card.id != ys[k].card.id
      ensures !IsAncestor(p, xs[i].card.id, ys[k].card.id) && !IsAncestor(p, ys[k].card.id, xs[i].card.id)
    {
      Apart(p, head, tail, depth, xs[i], ys[k]);
    }
    forall i | 0 <= i < |es|
      ensures es[i].card in cs && Placed(p, tops, depth, es[i])
    {
      PlacedBeside(p, head, tail, depth, es[i]);
    }
    BesideCovers(cs, head, tail, xs, ys);
    forall i | 0 <= i < |xs| ensures xs[i].depth >= depth {
      PlacedDepth(p, [head], depth, xs[i]);
    }
    BesidePreorder(p, depth, xs, ys);
  }

  lemma PlacedBeside(p: Parents, head: Card, tail: seq<Card>, depth: nat, e: Entry)
    requires Placed(p, [head], depth, e) || Placed(p, tail, depth, e)
    ensures Placed(p, [head] + tail, depth, e)
  {
    var c :| (c in [head] || c in tail) && Up(p, e.card.id, e.depth - depth) == Some(c.id);
    assert c in [head] + tail;
  }

  lemma PlacedDepth(p: Parents, tops: seq<Card>, depth: nat, e: Entry)
    requires Placed(p, tops, depth, e)
    ensures e.depth >= depth
  {}

  lemma {:induction false} BesideCovers(cs: Cards, head: Card, tail: seq<Card>, xs: seq<Entry>, ys: seq<Entry>)
    requires Covers(cs, [head], xs) && Covers(cs, tail, ys)
    ensures Covers(cs, [head] + tail, xs + ys)
  {
    var p, es, tops := ParentsIn(cs), xs + ys, [head] + tail;
    forall x | x in cs && Subtrees(p, tops, x.id)
      ensures Shows(es, x)
    {
      var c, n :| c in tops && Up(p, x.id, n) == Some(c.id);
      if c == head {
        assert c in [head];
        assert Subtrees(p, [head], x.id);
        var i :| 0 <= i < |xs| && xs[i].card == x;
        assert es[i].card == x;
      } else {
        assert c in tail;
        assert Subtrees(p, tail, x.id);
        var i :| 0 <= i < |ys| && ys[i].card == x;
        assert es[|xs| + i].card == x;
      }
    }
  }

  lemma {:induction false} Apart(p: Parents, head: Card, tail: seq<Card>, depth: nat, x: Entry, y: Entry)
    requires Unrelated(p, [head] + tail)
    requires Placed(p, [head], depth, x) && Placed(p, tail, depth, y)
    ensures x.card.id != y.card.id
    ensures !IsAncestor(p, x.card.id, y.card.id) && !IsAncestor(p, y.card.id, x.card.id)
  {
    var tops := [head] + tail;
    var c :| c in tail && Up(p, y.card.id, y.depth - depth) == Some(c.id);
    assert c in tops && head in tops;
    assert head.id != c.id by {
      var k :| 0 <= k < |tail| && tail[k] == c;
      assert tops[k + 1] == c && tops[0] == head;
    }
    if x.card.id == y.card.id {
      SubtreesApart(p, head.id, c.id, x.card.id, x.depth - depth, y.depth - depth);
    }
    if IsAncestor(p, x.card.id, y.card.id) {
      var n :| n > 0 && Up(p, y.card.id, n) == Some(x.card.id);
      UpCompose(p, y.card.id, n, x.depth - depth);
      SubtreesApart(p, head.id, c.id, y.card.id, n + (x.depth - depth), y.depth - depth);
    }
    if IsAncestor(p, y.card.id, x.card.id) {
      var n :| n > 0 && Up(p, x.card.id, n) == Some(y.card.id);
      UpCompose(p, x.card.id, n, y.depth - depth);
      SubtreesApart(p, head.id, c.id, x.card.id, x.depth - depth, n + (y.depth - depth));
    }
  }

  lemma {:induction false} BesidePreorder(p: Parents, depth: nat, xs: seq<Entry>, ys: seq<Entry>)
    requires Preorder(p, xs) && Preorder(p, ys)
    requires forall i :: 0 <= i < |xs| ==> xs[i].depth >= depth
    requires ys != [] ==> ys[0].depth == depth
    requires forall i, k :: 0 <= i < |xs| && 0 <= k < |ys| ==>
      !IsAncestor(p, xs[i].card.id, ys[k].card.id) && !IsAncestor(p, ys[k].card.id, xs[i].card.id)
    ensures Preorder(p, xs + ys)
  {
    var es, n := xs + ys, |xs|;
    forall i, k | 0 <= i < |es| && 0 <= k < |es|
      ensures IsAncestor(p, es[i].card.id, es[k].card.id) <==> i < k && DeeperThrough(es, i, k)
    {
      if i < k {
        if k < n {
          assert forall j :: i <= j <= k ==> es[j] == xs[j];
          assert DeeperThrough(es, i, k) <==> DeeperThrough(xs, i, k);
        } else if i >= n {
          ShiftDeeper(xs, ys, i - n, k - n);
        } else {
          // The head of ys is not deeper than anything in xs.
          assert es[n].depth == depth;
        }
      }
    }
  }

  lemma {:induction false} ShiftDeeper(xs: seq<Entry>, ys: seq<Entry>, i: nat, k: nat)
    requires i < |ys| && k < |ys|
    ensures DeeperThrough(xs + ys, |xs| + i, |xs| + k) <==> DeeperThrough(ys, i, k)
  {
    var es, n := xs + ys, |xs|;
    if DeeperThrough(es, n + i, n + k) {
      forall j | i < j <= k ensures ys[j].depth > ys[i].depth {
        assert es[n + j].depth > es[n + i].depth;
      }
    }
    if DeeperThrough(ys, i, k) {
      forall j | n + i < j <= n + k ensures es[j].depth > es[n + i].depth {
        assert ys[j - n].depth > ys[i].depth;
      }
    }
  }

  // ---------- the whole page ----------

  lemma RootsUnrelated(cs: Cards)
    ensures Unrelated(ParentsIn(cs), Roots(cs))
  {
    RootsAreReady(cs);
    var p := ParentsIn(cs);
    forall a, b | a in Roots(cs) && b in Roots(cs)
      ensures !IsAncestor(p, a.id, b.id)
    {
      forall n | n > 0
        ensures Up(p, b.id, n) == None
      {
        assert b.id !in p;
      }
    }
  }

  /** The page shows each budget at most once, exactly those that are not on or below a parent
      cycle, each indented by its number of visible ancestors, with every subtree contiguous
      and right behind its top. */
  lemma {:induction false} PageIsPreorder(cs: Cards)
    ensures OnceEach(Flatten(cs))
    ensures forall x :: x in cs ==> (Shows(Flatten(cs), x) <==> !Endless(ParentsIn(cs), x.id))
    ensures forall i :: 0 <= i < |Flatten(cs)| ==> Indented(cs, Flatten(cs)[i])
    ensures Preorder(ParentsIn(cs), Flatten(cs))
  {
    hide Preorder, Placed, Unrelated;
    var p, es := ParentsIn(cs), Flatten(cs);
    RootsAreReady(cs);
    RootsUnrelated(cs);
    AllItemsLaid(cs, Roots(cs), 0, None, {});
    forall i | 0 <= i < |es|
      ensures Indented(cs, es[i])
    {
      UnderRoot(cs, es[i]);
    }
    forall x | x in cs
      ensures Shows(es, x) <==> !Endless(p, x.id)
    {
      if i :| 0 <= i < |es| && es[i].card == x {
        assert Up(p, x.id, es[i].depth + 1).None?;
      }
      if !Endless(p, x.id) {
        var c := RootOf(cs, x);
        assert Subtrees(p, Roots(cs), x.id);
      }
    }
  }

  /** Indented by the number of visible ancestors. */
  ghost predicate Indented(cs: Cards, e: Entry) {
    && e.card in cs
    && Up(ParentsIn(cs), e.card.id, e.depth).Some?
    && Up(ParentsIn(cs), e.card.id, e.depth + 1).None?
  }

  lemma {:induction false} UnderRoot(cs: Cards, e: Entry)
    requires e.card in cs && Placed(ParentsIn(cs), Roots(cs), 0, e)
    ensures Indented(cs, e)
  {
    hide Roots, ParentsIn, Ready;
    RootsAreReady(cs);
    var c :| c in Roots(cs) && Up(ParentsIn(cs), e.card.id, e.depth - 0) == Some(c.id);
    UpCompose(ParentsIn(cs), e.card.id, e.depth, 1);
  }

  /** A budget whose parent links end has a root above it in the list. */
  lemma {:induction false} RootOf(cs: Cards, x: Card) returns (c: Card)
    requires x in cs && !Endless(ParentsIn(cs), x.id)
    ensures c in Roots(cs) && exists n :: Up(ParentsIn(cs), x.id, n) == Some(c.id)
  {
    var p := ParentsIn(cs);
    WalkIsAncestorPath(p, x.id);
    var path := Walk(p, x.id, {}).value;
    var n := |path| - 1;
    var y := path[n];
    UpCompose(p, x.id, n, 1);
    assert Up(p, y, 1).None?;
    InList(cs, x, n);
    var i :| 0 <= i < |cs| && cs[i].id == y;
    c := cs[i];
    RootsAreReady(cs);
    assert c in cs;
  }

  lemma {:induction false} InList(cs: Cards, x: Card, n: nat)
    requires x in cs && Up(ParentsIn(cs), x.id, n).Some?
    ensures Up(ParentsIn(cs), x.id, n).value in CardIds(cs)
  {
    var p := ParentsIn(cs);
    if n == 0 {
      var i :| 0 <= i < |cs| && cs[i] == x;
      assert cs[i].id in CardIds(cs);
    } else {
      UpStops(p, x.id, n - 1, n);
      UpCompose(p, x.id, n - 1, 1);
      assert Up(p, x.id, n - 1).value in p;
    }
  }

  // ---------- what an entry tells the page ----------

  function VisibleParent(p: Parents, x: Id): Option<Id> {
    if x in p then Some(p[x]) else None
  }

  /** parentId drives the collapsing of subtrees, hasChildren the toggle. */
  ghost predicate Labelled(cs: Cards, e: Entry) {
    && e.parentId == VisibleParent(ParentsIn(cs), e.card.id)
    && (e.hasChildren <==> exists x :: x in cs && x.parent == Some(e.card.id))
  }

  ghost predicate AllLabelled(cs: Cards, es: seq<Entry>) {
    forall i :: 0 <= i < |es| ==> Labelled(cs, es[i])
  }

  lemma {:induction false} ItemsLabelled(cs: Cards, c: Card, depth: nat, parentId: Option<Id>, path: set<Id>)
    requires Ready(cs, c, path) && parentId == VisibleParent(ParentsIn(cs), c.id)
    ensures AllLabelled(cs, Items(cs, c, depth, parentId, path))
    decreases CardIds(cs) - path, 1, 0
  {
    var children := ChildrenOf(cs, c.id);
    ChildrenAreReady(cs, c, path);
    ChildrenAre(cs, c);
    AllItemsLabelled(cs, children, depth + 1, Some(c.id), path + {c.id});
    forall x | x in cs
      ensures x in children <==> x.parent == Some(c.id)
    {
      ParentLinks(cs, x);
    }
    if children != [] {
      assert children[0] in children;
    }
  }

  lemma {:induction false} AllItemsLabelled(cs: Cards, tops: seq<Card>, depth: nat, parentId: Option<Id>, path: set<Id>)
    requires forall c :: c in tops ==> Ready(cs, c, path) && parentId == VisibleParent(ParentsIn(cs), c.id)
    ensures AllLabelled(cs, AllItems(cs, tops, depth, parentId, path))
    decreases CardIds(cs) - path, 2, |tops|
  {
    if tops != [] {
      ItemsLabelled(cs, tops[0], depth, parentId, path);
      AllItemsLabelled(cs, tops[1..], depth, parentId, path);
    }
  }

  lemma {:induction false} PageIsLabelled(cs: Cards)
    ensures AllLabelled(cs, Flatten(cs))
  {
    RootsAreReady(cs);
    AllItemsLabelled(cs, Roots(cs), 0, None, {});
  }

  // ---------- the page's own loops ----------

  ghost predicate Indexes(cs: Cards, childrenOf: map<Id, seq<Card>>) {
    forall c :: c in cs ==> ChildrenOf(cs, c.id) == Sort(ListAt(childrenOf, c.id), NewerFirst)
  }

  function ListAt(childrenOf: map<Id, seq<Card>>, id: Id): seq<Card> {
    if id in childrenOf then childrenOf[id] else []
  }

  lemma NextChild(cs: seq<Card>, k: nat, i: Id)
    requires k < |cs|
    ensures Filter(cs[..k + 1], (c: Card) => c.parent == Some(i))
      == Filter(cs[..k], (c: Card) => c.parent == Some(i)) + if cs[k].parent == Some(i) then [cs[k]] else []
  {
    assert cs[..k + 1] == cs[..k] + [cs[k]];
    FilterAppend(cs[..k], [cs[k]], (c: Card) => c.parent == Some(i));
  }

  /** The parent to children index, filled in list order. */
  method IndexChildren(cs: Cards) returns (childrenOf: map<Id, seq<Card>>)
    ensures Indexes(cs, childrenOf)
  {
    childrenOf := map[];
    for k := 0 to |cs|
      invariant forall i :: i in CardIds(cs) ==>
        ListAt(childrenOf, i) == Filter(cs[..k], (c: Card) => c.parent == Some(i))
    {
      var b := cs[k];
      forall i | i in CardIds(cs)
        ensures Filter(cs[..k + 1], (c: Card) => c.parent == Some(i))
          == Filter(cs[..k], (c: Card) => c.parent == Some(i)) + if b.parent == Some(i) then [b] else []
      {
        NextChild(cs, k, i);
      }
      if b.parent.Some? && b.parent.value in CardIds(cs) {
        childrenOf := childrenOf[b.parent.value := ListAt(childrenOf, b.parent.value) + [b]];
      }
    }
    assert cs[..|cs|] == cs;
    forall c | c in cs
      ensures c.id in CardIds(cs)
    {
      var i :| 0 <= i < |cs| && cs[i] == c;
    }
  }

  lemma NextSibling(cs: Cards, siblings: seq<Card>, k: nat, depth: nat, parentId: Option<Id>, path: set<Id>)
    requires k < |siblings| && forall c :: c in siblings ==> Ready(cs, c, path)
    ensures AllItems(cs, siblings[k..], depth, parentId, path)
      == Items(cs, siblings[k], depth, parentId, path) + AllItems(cs, siblings[k + 1..], depth, parentId, path)
  {
    assert siblings[k..][1..] == siblings[k + 1..];
  }

  /** buildItems with its loop over the sorted children. */
  method BuildItems(cs: Cards, childrenOf: map<Id, seq<Card>>, b: Card, depth: nat, parentId: Option<Id>, ghost path: set<Id>)
    returns (items: seq<Entry>)
    requires Indexes(cs, childrenOf) && Ready(cs, b, path)
    ensures items == Items(cs, b, depth, parentId, path)
    decreases CardIds(cs) - path
  {
    hide Sort, Filter, IsAncestor, Endless;
    ChildrenAreReady(cs, b, path);
    var children := Sort(ListAt(childrenOf, b.id), NewerFirst);
    items := [Entry(b, depth, parentId, |children| > 0)];
    var k := 0;
    while k < |children|
      invariant k <= |children|
      invariant Items(cs, b, depth, parentId, path)
        == items + AllItems(cs, children[k..], depth + 1, Some(b.id), path + {b.id})
    {
      NextSibling(cs, children, k, depth + 1, Some(b.id), path + {b.id});
      var block := BuildItems(cs, childrenOf, children[k], depth + 1, Some(b.id), path + {b.id});
      items := items + block;
      k := k + 1;
    }
  }

  /** buildHierarchicalList: the roots' blocks one after the other. */
  method BuildHierarchicalList(cs: Cards) returns (result: seq<Entry>)
    ensures result == Flatten(cs)
  {
    hide Sort, Filter, IsAncestor, Endless, Items;
    RootsAreReady(cs);
    var childrenOf := IndexChildren(cs);
    var roots := Roots(cs);
    result := [];
    var k := 0;
    while k < |roots|
      invariant k <= |roots|
      invariant Flatten(cs) == result + AllItems(cs, roots[k..], 0, None, {})
    {
      NextSibling(cs, roots, k, 0, None, {});
      var block := BuildItems(cs, childrenOf, roots[k], 0, None, {});
      result := result + block;
      k := k + 1;
    }
  }
}
