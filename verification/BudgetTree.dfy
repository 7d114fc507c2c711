/** buildHierarchicalList of the budgets page: a flat list of budgets becomes an indented one.
The input is whatever the API returned, so parents may be missing and links may form cycles. */
module BudgetTree {
  import opened Model
  import opened Forest
  import opened Filters

  datatype Card = Card(id: Id, kind: EntityType, parent: Option<Id>, createdAt: Instant)

  datatype Entry = Entry(card: Card, depth: nat, parentId: Option<Id>, hasChildren: bool)

  predicate UniqueCards(cs: seq<Card>) {
    forall i, j :: 0 <= i < j < |cs| ==> cs[i].id != cs[j].id
  }

  type Cards = cs: seq<Card> | UniqueCards(cs) witness []

  function CardIds(cs: seq<Card>): set<Id> {
    set i | 0 <= i < |cs| :: cs[i].id
  }

  /** Parent links inside the list. */
  function ParentsIn(cs: Cards): Parents {
    map i | i in CardIds(cs) && LinkOf(cs, i).Some? && LinkOf(cs, i).value in CardIds(cs) :: LinkOf(cs, i).value
  }

  function LinkOf(cs: seq<Card>, id: Id): Option<Id> {
    if cs == [] then None
    else if cs[0].id == id then cs[0].parent
    else LinkOf(cs[1..], id)
  }

  lemma {:induction false} LinkOfCard(cs: Cards, i: nat)
    requires i < |cs|
    ensures LinkOf(cs, cs[i].id) == cs[i].parent
  {
    if i > 0 {
      LinkOfCard(cs[1..], i - 1);
    }
  }

  predicate IsRoot(cs: seq<Card>, c: Card) {
    c.parent.None? || c.parent.value !in CardIds(cs)
  }

  /** A card has a parent link in the map iff it is not a root. */
  lemma {:induction false} ParentLinks(cs: Cards, c: Card)
    requires c in cs
    ensures c.id in ParentsIn(cs) <==> !IsRoot(cs, c)
    ensures !IsRoot(cs, c) ==> ParentsIn(cs)[c.id] == c.parent.value
  {
    var i :| 0 <= i < |cs| && cs[i] == c;
    LinkOfCard(cs, i);
    assert c.id in CardIds(cs);
  }

  lemma {:induction false} FilterUnique(cs: seq<Card>, keep: Card -> bool)
    requires UniqueCards(cs)
    ensures UniqueCards(Filter(cs, keep))
  {
    if cs != [] {
      FilterUnique(cs[1..], keep);
      FilterMembers(cs[1..], keep);
      assert forall c :: c in cs[1..] ==> c.id != cs[0].id;
    }
  }

  /** Stable sort: a card goes behind all those that may stay before it. */
  function Insert(c: Card, cs: seq<Card>, before: (Card, Card) -> bool): seq<Card> {
    if cs == [] || !before(c, cs[|cs| - 1]) then cs + [c]
    else Insert(c, cs[..|cs| - 1], before) + [cs[|cs| - 1]]
  }

  function Sort(cs: seq<Card>, before: (Card, Card) -> bool): seq<Card> {
    if cs == [] then [] else Insert(cs[|cs| - 1], Sort(cs[..|cs| - 1], before), before)
  }

  predicate Fresh(c: Card, cs: seq<Card>) {
    forall i :: 0 <= i < |cs| ==> cs[i].id != c.id
  }

  lemma {:induction false} InsertMembers(c: Card, cs: seq<Card>, before: (Card, Card) -> bool)
    ensures forall x :: x in Insert(c, cs, before) <==> x == c || x in cs
    ensures UniqueCards(cs) && Fresh(c, cs) ==> UniqueCards(Insert(c, cs, before))
  {
    if cs != [] && before(c, cs[|cs| - 1]) {
      var front, last := cs[..|cs| - 1], cs[|cs| - 1];
      assert cs == front + [last];
      InsertMembers(c, front, before);
      FreshByMembers(last, front, Insert(c, front, before), c);
    }
  }

  lemma FreshByMembers(x: Card, cs: seq<Card>, ds: seq<Card>, c: Card)
    requires forall d :: d in ds ==> d == c || d in cs
    ensures Fresh(x, cs) && x.id != c.id ==> Fresh(x, ds)
  {
    forall i | 0 <= i < |ds| && Fresh(x, cs) && x.id != c.id
      ensures ds[i].id != x.id
    {
      assert ds[i] in ds;
    }
  }

  lemma {:induction false} SortMembers(cs: seq<Card>, before: (Card, Card) -> bool)
    ensures forall x :: x in Sort(cs, before) <==> x in cs
    ensures UniqueCards(cs) ==> UniqueCards(Sort(cs, before))
  {
    if cs != [] {
      var front, last := cs[..|cs| - 1], cs[|cs| - 1];
      assert cs == front + [last];
      SortMembers(front, before);
      InsertMembers(last, Sort(front, before), before);
      if front != [] {
        FreshByMembers(last, front, Sort(front, before), front[0]);
      }
    }
  }

  /** Neither order of the page ranks cyclically: what is not before stays not before. */
  ghost predicate WeakOrder(before: (Card, Card) -> bool) {
    && (forall a, b :: before(a, b) ==> !before(b, a))
    && (forall a, b, c :: !before(b, a) && !before(c, b) ==> !before(c, a))
  }

  ghost predicate OrderedBy(cs: seq<Card>, before: (Card, Card) -> bool) {
    forall i, j :: 0 <= i < j < |cs| ==> !before(cs[j], cs[i])
  }

  lemma {:induction false} SortOrders(cs: seq<Card>, before: (Card, Card) -> bool)
    requires WeakOrder(before)
    ensures OrderedBy(Sort(cs, before), before)
  {
    if cs != [] {
      SortOrders(cs[..|cs| - 1], before);
      InsertOrders(cs[|cs| - 1], Sort(cs[..|cs| - 1], before), before);
    }
  }

  lemma {:induction false} InsertOrders(c: Card, cs: seq<Card>, before: (Card, Card) -> bool)
    requires WeakOrder(before) && OrderedBy(cs, before)
    ensures OrderedBy(Insert(c, cs, before), before)
  {
    if cs != [] {
      var front, last := cs[..|cs| - 1], cs[|cs| - 1];
      if before(c, last) {
        InsertOrders(c, front, before);
        InsertMembers(c, front, before);
        assert forall x :: x in front ==> !before(last, x);
        forall i | 0 <= i < |Insert(c, front, before)|
          ensures !before(last, Insert(c, front, before)[i])
        {
          assert Insert(c, front, before)[i] in Insert(c, front, before);
        }
      } else {
        forall i | 0 <= i < |cs|
          ensures !before(c, cs[i])
        {
          assert i < |cs| - 1 ==> !before(last, cs[i]);
        }
      }
    }
  }

  /** Cards that tie keep the order of the input. */
  lemma {:induction false} SortIsStable(cs: seq<Card>, before: (Card, Card) -> bool, tied: Card -> bool)
    requires forall a, b :: tied(a) && tied(b) ==> !before(a, b)
    ensures Filter(Sort(cs, before), tied) == Filter(cs, tied)
  {
    if cs != [] {
      var front, last := cs[..|cs| - 1], cs[|cs| - 1];
      assert cs == front + [last];
      SortIsStable(front, before, tied);
      InsertIsStable(last, Sort(front, before), before, tied);
      FilterAppend(front, [last], tied);
    }
  }

  lemma {:induction false} InsertIsStable(c: Card, cs: seq<Card>, before: (Card, Card) -> bool, tied: Card -> bool)
    requires forall a, b :: tied(a) && tied(b) ==> !before(a, b)
    ensures Filter(Insert(c, cs, before), tied) == Filter(cs, tied) + Filter([c], tied)
  {
    if cs == [] || !before(c, cs[|cs| - 1]) {
      FilterAppend(cs, [c], tied);
    } else {
      var front, last := cs[..|cs| - 1], cs[|cs| - 1];
      assert cs == front + [last];
      InsertIsStable(c, front, before, tied);
      FilterAppend(front, [last], tied);
      FilterAppend(Insert(c, front, before), [last], tied);
    }
  }

  predicate NewerFirst(a: Card, b: Card) {
    a.createdAt > b.createdAt
  }

  function TypeOrder(k: EntityType): nat {
    match k
    case Org => 0
    case Team => 1
    case Provider => 2
    case Unknown => 3
  }

  predicate RootBefore(a: Card, b: Card) {
    if TypeOrder(a.kind) != TypeOrder(b.kind) then TypeOrder(a.kind) < TypeOrder(b.kind)
    else NewerFirst(a, b)
  }

  lemma OrdersAreWeak()
    ensures WeakOrder(NewerFirst) && WeakOrder(RootBefore)
  {}

  function ChildrenOf(cs: seq<Card>, id: Id): seq<Card> {
    Sort(Filter(cs, (c: Card) => c.parent == Some(id)), NewerFirst)
  }

  function Roots(cs: seq<Card>): seq<Card> {
    Sort(Filter(cs, (c: Card) => IsRoot(cs, c)), RootBefore)
  }

  /** What makes the recursion end: the card is not on or below a cycle, and `path` holds
      only its ancestors. */
  ghost predicate Ready(cs: Cards, c: Card, path: set<Id>) {
    && c in cs
    && c.id !in path
    && path <= CardIds(cs)
    && !Endless(ParentsIn(cs), c.id)
    && forall a :: a in path ==> IsAncestor(ParentsIn(cs), a, c.id)
  }

  lemma {:induction false} ChildrenAre(cs: Cards, c: Card)
    requires c in cs
    ensures forall x :: x in ChildrenOf(cs, c.id) <==> x in cs && x.id in ParentsIn(cs) && ParentsIn(cs)[x.id] == c.id
    ensures UniqueCards(ChildrenOf(cs, c.id))
  {
    var keep := (x: Card) => x.parent == Some(c.id);
    FilterMembers(cs, keep);
    FilterUnique(cs, keep);
    SortMembers(Filter(cs, keep), NewerFirst);
    assert ChildrenOf(cs, c.id) == Sort(Filter(cs, keep), NewerFirst);
    assert c.id in CardIds(cs);
    forall x
      ensures x in cs && x.parent == Some(c.id) <==> x in cs && x.id in ParentsIn(cs) && ParentsIn(cs)[x.id] == c.id
    {
      if x in cs {
        ParentLinks(cs, x);
      }
    }
  }

  lemma {:induction false} ChildrenAreReady(cs: Cards, c: Card, path: set<Id>)
    requires Ready(cs, c, path)
    ensures forall x :: x in ChildrenOf(cs, c.id) ==> Ready(cs, x, path + {c.id})
    ensures c.id in CardIds(cs)
  {
    var p := ParentsIn(cs);
    ChildrenAre(cs, c);
    assert c.id in CardIds(cs);
    forall x | x in ChildrenOf(cs, c.id)
      ensures Ready(cs, x, path + {c.id})
    {
      ParentIsAncestor(p, x.id);
      forall a | a in path + {c.id}
        ensures IsAncestor(p, a, x.id)
      {
        if a != c.id {
          AncestorsChain(p, a, c.id, x.id);
        }
      }
      if x.id in path + {c.id} {
        CycleIsEndless(p, x.id);
        EndlessParent(p, x.id);
      }
      if Endless(p, x.id) {
        EndlessParent(p, x.id);
      }
    }
  }

  lemma EndlessParent(p: Parents, x: Id)
    requires x in p && Endless(p, x)
    ensures Endless(p, p[x])
  {
    forall k: nat
      ensures Up(p, p[x], k).Some?
    {
      assert Up(p, x, k + 1).Some?;
    }
  }

  /** buildItems: the card, then each child with its own subtree. */
  function Items(cs: Cards, c: Card, depth: nat, parentId: Option<Id>, ghost path: set<Id>): seq<Entry>
    requires Ready(cs, c, path)
    decreases CardIds(cs) - path, 1, 0
  {
    ChildrenAreReady(cs, c, path);
    var children := ChildrenOf(cs, c.id);
    [Entry(c, depth, parentId, children != [])] + AllItems(cs, children, depth + 1, Some(c.id), path + {c.id})
  }

  function AllItems(cs: Cards, siblings: seq<Card>, depth: nat, parentId: Option<Id>, ghost path: set<Id>): seq<Entry>
    requires forall c :: c in siblings ==> Ready(cs, c, path)
    decreases CardIds(cs) - path, 2, |siblings|
  {
    if siblings == [] then []
    else Items(cs, siblings[0], depth, parentId, path) + AllItems(cs, siblings[1..], depth, parentId, path)
  }

  lemma {:induction false} RootsAreReady(cs: Cards)
    ensures forall c :: c in Roots(cs) <==> c in cs && c.id !in ParentsIn(cs)
    ensures forall c :: c in Roots(cs) ==> Ready(cs, c, {})
    ensures UniqueCards(Roots(cs))
  {
    var keep := (c: Card) => IsRoot(cs, c);
    FilterMembers(cs, keep);
    FilterUnique(cs, keep);
    SortMembers(Filter(cs, keep), RootBefore);
    assert Roots(cs) == Sort(Filter(cs, keep), RootBefore);
    forall c | c in cs
      ensures IsRoot(cs, c) <==> c.id !in ParentsIn(cs)
    {
      ParentLinks(cs, c);
    }
    forall c | c in Roots(cs)
      ensures Ready(cs, c, {})
    {
      assert Up(ParentsIn(cs), c.id, 1) == None;
    }
  }

  function Flatten(cs: Cards): seq<Entry> {
    RootsAreReady(cs);
    AllItems(cs, Roots(cs), 0, None, {})
  }
}
