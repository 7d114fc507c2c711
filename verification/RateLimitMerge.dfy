/** The rate limits of a team's request: every matching allocation is read in order of
specificity, and each kind of limit comes from the first enforced allocation that has one. */
module RateLimitMerge {
  import opened Model

  datatype Allocation = Allocation(
    id: Id,
    org: string,
    team: string,
    pattern: string,
    tokenLimit: Option<int>,
    tokenUnit: string,
    requestLimit: Option<int>,
    requestUnit: string,
    monitoring: bool,
    enabled: bool,
    status: ApprovalStatus)

  datatype Limit = Limit(perUnit: int, unit: string)

  datatype Kind = TokenLimit | RequestLimit

  datatype Metadata = Metadata(token: Option<Limit>, request: Option<Limit>)

  /** The limit of one kind, if it is set and positive. */
  function LimitOf(a: Allocation, kind: Kind): Option<Limit> {
    match kind
    case TokenLimit =>
      if a.tokenLimit.Some? && a.tokenLimit.value > 0 then Some(Limit(a.tokenLimit.value, a.tokenUnit)) else None
    case RequestLimit =>
      if a.requestLimit.Some? && a.requestLimit.value > 0 then Some(Limit(a.requestLimit.value, a.requestUnit)) else None
  }

  predicate Provides(a: Allocation, kind: Kind) {
    !a.monitoring && LimitOf(a, kind).Some?
  }

  /** The limit of the first allocation that provides one. */
  function FirstLimit(rows: seq<Allocation>, kind: Kind): Option<Limit> {
    if rows == [] then None
    else if Provides(rows[0], kind) then LimitOf(rows[0], kind)
    else FirstLimit(rows[1..], kind)
  }

  lemma {:induction false} FirstLimitAt(rows: seq<Allocation>, kind: Kind, i: nat)
    requires i < |rows| && Provides(rows[i], kind)
    requires forall j :: 0 <= j < i ==> !Provides(rows[j], kind)
    ensures FirstLimit(rows, kind) == LimitOf(rows[i], kind)
  {
    if i > 0 {
      FirstLimitAt(rows[1..], kind, i - 1);
    }
  }

  lemma {:induction false} NoLimitIff(rows: seq<Allocation>, kind: Kind)
    ensures FirstLimit(rows, kind).None? <==> forall i :: 0 <= i < |rows| ==> !Provides(rows[i], kind)
  {
    if rows != [] {
      NoLimitIff(rows[1..], kind);
      assert forall i :: 0 <= i < |rows[1..]| ==> rows[1..][i] == rows[i + 1];
    }
  }

  lemma {:induction false} FirstLimitAppend(rows: seq<Allocation>, more: seq<Allocation>, kind: Kind)
    ensures FirstLimit(rows + more, kind)
      == if FirstLimit(rows, kind).Some? then FirstLimit(rows, kind) else FirstLimit(more, kind)
  {
    if rows == [] {
      assert rows + more == more;
    } else {
      assert (rows + more)[1..] == rows[1..] + more;
      FirstLimitAppend(rows[1..], more, kind);
    }
  }

  /** What the request is limited to: nothing if no limit is enforced. */
  function Merged(rows: seq<Allocation>): Option<Metadata> {
    var m := Metadata(FirstLimit(rows, TokenLimit), FirstLimit(rows, RequestLimit));
    if m.token.None? && m.request.None? then None else Some(m)
  }

  // ---------- the merge over the columns ----------

  /** The row enforces a token limit. */
  ghost predicate LimitsTokens(a: Allocation) {
    !a.monitoring && a.tokenLimit.Some? && a.tokenLimit.value > 0
  }

  ghost predicate LimitsRequests(a: Allocation) {
    !a.monitoring && a.requestLimit.Some? && a.requestLimit.value > 0
  }

  /** `i` is the first row that enforces a token limit. */
  ghost predicate FirstForTokens(rows: seq<Allocation>, i: nat) {
    i < |rows| && LimitsTokens(rows[i]) && forall j :: 0 <= j < i ==> !LimitsTokens(rows[j])
  }

  ghost predicate FirstForRequests(rows: seq<Allocation>, i: nat) {
    i < |rows| && LimitsRequests(rows[i]) && forall j :: 0 <= j < i ==> !LimitsRequests(rows[j])
  }

  /** Each limit is the amount and the unit of the first row that enforces one of its kind, and
      there is no answer iff no row enforces either. */
  ghost predicate MergeMeans(rows: seq<Allocation>, meta: Option<Metadata>) {
    && (meta.None? <==> forall i :: 0 <= i < |rows| ==> !LimitsTokens(rows[i]) && !LimitsRequests(rows[i]))
    && (meta.Some? ==>
          && (forall n, u :: meta.value.token == Some(Limit(n, u)) <==>
                exists i: nat :: FirstForTokens(rows, i) && rows[i].tokenLimit == Some(n) && rows[i].tokenUnit == u)
          && (forall n, u :: meta.value.request == Some(Limit(n, u)) <==>
                exists i: nat :: FirstForRequests(rows, i) && rows[i].requestLimit == Some(n) && rows[i].requestUnit == u))
  }

  lemma {:induction false} FirstTokenLimit(rows: seq<Allocation>)
    ensures forall i: nat :: FirstForTokens(rows, i) ==>
      FirstLimit(rows, TokenLimit) == Some(Limit(rows[i].tokenLimit.value, rows[i].tokenUnit))
    ensures FirstLimit(rows, TokenLimit).Some? <==> exists i: nat :: FirstForTokens(rows, i)
    ensures FirstLimit(rows, TokenLimit).None? <==> forall i :: 0 <= i < |rows| ==> !LimitsTokens(rows[i])
  {
    forall i: nat | FirstForTokens(rows, i)
      ensures FirstLimit(rows, TokenLimit) == Some(Limit(rows[i].tokenLimit.value, rows[i].tokenUnit))
    {
      FirstLimitAt(rows, TokenLimit, i);
    }
    NoLimitIff(rows, TokenLimit);
    if FirstLimit(rows, TokenLimit).Some? {
      var i := FirstProvider(rows, TokenLimit);
      assert FirstForTokens(rows, i);
    }
  }

  lemma {:induction false} FirstRequestLimit(rows: seq<Allocation>)
    ensures forall i: nat :: FirstForRequests(rows, i) ==>
      FirstLimit(rows, RequestLimit) == Some(Limit(rows[i].requestLimit.value, rows[i].requestUnit))
    ensures FirstLimit(rows, RequestLimit).Some? <==> exists i: nat :: FirstForRequests(rows, i)
    ensures FirstLimit(rows, RequestLimit).None? <==> forall i :: 0 <= i < |rows| ==> !LimitsRequests(rows[i])
  {
    forall i: nat | FirstForRequests(rows, i)
      ensures FirstLimit(rows, RequestLimit) == Some(Limit(rows[i].requestLimit.value, rows[i].requestUnit))
    {
      FirstLimitAt(rows, RequestLimit, i);
    }
    NoLimitIff(rows, RequestLimit);
    if FirstLimit(rows, RequestLimit).Some? {
      var i := FirstProvider(rows, RequestLimit);
      assert FirstForRequests(rows, i);
    }
  }

  lemma {:induction false} FirstProvider(rows: seq<Allocation>, kind: Kind) returns (i: nat)
    requires FirstLimit(rows, kind).Some?
    ensures i < |rows| && Provides(rows[i], kind) && forall j :: 0 <= j < i ==> !Provides(rows[j], kind)
  {
    NoLimitIff(rows, kind);
    i := 0;
    while !Provides(rows[i], kind)
      invariant i < |rows|
      invariant forall j :: 0 <= j < i ==> !Provides(rows[j], kind)
      invariant exists j :: i <= j < |rows| && Provides(rows[j], kind)
      decreases |rows| - i
    {
      i := i + 1;
    }
  }

  lemma {:induction false} MergedMeans(rows: seq<Allocation>)
    ensures MergeMeans(rows, Merged(rows))
  {
    FirstTokenLimit(rows);
    FirstRequestLimit(rows);
    hide FirstLimit;
    forall i, j: nat | FirstForTokens(rows, i) && FirstForTokens(rows, j)
      ensures i == j
    {}
    forall i, j: nat | FirstForRequests(rows, i) && FirstForRequests(rows, j)
      ensures i == j
    {}
  }

  /** lookupRateLimitAllocation once the rows are known; a failed query is None. The loop stops
      as soon as it has both limits. */
  method LookupRateLimitAllocation(teamId: string, rows: Option<seq<Allocation>>) returns (meta: Option<Metadata>)
    ensures meta == if teamId == "" || rows.None? then None else Merged(rows.value)
    ensures teamId != "" && rows.Some? ==> MergeMeans(rows.value, meta)
  {
    if rows.Some? {
      MergedMeans(rows.value);
    }
    hide MergeMeans;
    if teamId == "" || rows.None? || rows.value == [] {
      return None;
    }
    var allocations := rows.value;
    var token, request := None, None;
    for i := 0 to |allocations|
      invariant token == FirstLimit(allocations[..i], TokenLimit)
      invariant request == FirstLimit(allocations[..i], RequestLimit)
      invariant token.None? || request.None?
    {
      var a := allocations[i];
      assert allocations[..i + 1] == allocations[..i] + [a];
      assert allocations == allocations[..i + 1] + allocations[i + 1..];
      assert [a][1..] == [];
      FirstLimitAppend(allocations[..i], [a], TokenLimit);
      FirstLimitAppend(allocations[..i], [a], RequestLimit);
      FirstLimitAppend(allocations[..i + 1], allocations[i + 1..], TokenLimit);
      FirstLimitAppend(allocations[..i + 1], allocations[i + 1..], RequestLimit);
      if a.monitoring {
        continue;
      }
      if token.None? && LimitOf(a, TokenLimit).Some? {
        token := LimitOf(a, TokenLimit);
      }
      if request.None? && LimitOf(a, RequestLimit).Some? {
        request := LimitOf(a, RequestLimit);
      }
      if token.Some? && request.Some? {
        return Some(Metadata(token, request));
      }
    }
    assert allocations[..|allocations|] == allocations;
    if token.None? && request.None? {
      return None;
    }
    meta := Some(Metadata(token, request));
  }

  // ---------- the order of the rows ----------

  /** ORDER BY CASE: an exact pattern first, the wildcard last. */
  function Class(a: Allocation, model: string): nat {
    if a.pattern == model then 0 else if a.pattern == "*" then 2 else 1
  }

  ghost predicate InOrder(rows: seq<Allocation>, model: string) {
    forall i, j :: 0 <= i < j < |rows| ==> Class(rows[i], model) <= Class(rows[j], model)
  }

  /** Another answer the database may give to the same query: it fixes no order within a class. */
  ghost predicate SameQuery(rows: seq<Allocation>, others: seq<Allocation>, model: string) {
    multiset(rows) == multiset(others) && InOrder(others, model)
  }

  /** `a` is in the most specific class that provides the limit. */
  ghost predicate Leads(rows: seq<Allocation>, a: Allocation, model: string, kind: Kind) {
    && a in rows && Provides(a, kind)
    && forall x :: x in rows && Provides(x, kind) ==> Class(a, model) <= Class(x, model)
  }

  /** The leading providers all have the same limit. */
  ghost predicate LeadersAgree(rows: seq<Allocation>, model: string, kind: Kind) {
    forall a, b :: Leads(rows, a, model, kind) && Leads(rows, b, model, kind) ==> LimitOf(a, kind) == LimitOf(b, kind)
  }

  /** The first provider leads. */
  lemma {:induction false} FirstLeads(rows: seq<Allocation>, model: string, kind: Kind) returns (i: nat)
    requires InOrder(rows, model) && FirstLimit(rows, kind).Some?
    ensures i < |rows| && Leads(rows, rows[i], model, kind)
    ensures forall j :: 0 <= j < i ==> !Provides(rows[j], kind)
    ensures FirstLimit(rows, kind) == LimitOf(rows[i], kind)
  {
    NoLimitIff(rows, kind);
    i := FirstProvider(rows, kind);
    FirstLimitAt(rows, kind, i);
  }

  /** Swapping two allocations of one class is another answer to the query. */
  lemma SwapIsSameQuery(rows: seq<Allocation>, model: string, i: nat, j: nat)
    requires InOrder(rows, model) && i < |rows| && j < |rows| && Class(rows[i], model) == Class(rows[j], model)
    ensures SameQuery(rows, rows[i := rows[j]][j := rows[i]], model)
  {
    var swapped := rows[i := rows[j]][j := rows[i]];
    assert forall k :: 0 <= k < |rows| ==> Class(swapped[k], model) == Class(rows[k], model);
  }

  lemma SameMembers(rows: seq<Allocation>, others: seq<Allocation>)
    requires multiset(rows) == multiset(others)
    ensures forall a :: a in rows <==> a in others
  {
    forall a
      ensures a in rows <==> a in others
    {
      assert a in rows <==> a in multiset(rows);
      assert a in others <==> a in multiset(others);
    }
  }

  /** The limit does not depend on how the database breaks ties iff the leading providers
      agree on it. */
  lemma {:induction false} OrderIsIrrelevantIff(rows: seq<Allocation>, model: string, kind: Kind)
    requires InOrder(rows, model)
    ensures (forall others :: SameQuery(rows, others, model) ==> FirstLimit(others, kind) == FirstLimit(rows, kind))
      <==> LeadersAgree(rows, model, kind)
  {
    if LeadersAgree(rows, model, kind) {
      forall others | SameQuery(rows, others, model)
        ensures FirstLimit(others, kind) == FirstLimit(rows, kind)
      {
        AgreementFixesLimit(rows, others, model, kind);
      }
    } else {
      var a, b :| Leads(rows, a, model, kind) && Leads(rows, b, model, kind) && LimitOf(a, kind) != LimitOf(b, kind);
      var other := if FirstLimit(rows, kind) == LimitOf(a, kind) then b else a;
      var others := LeaderFirst(rows, model, kind, other);
      assert FirstLimit(others, kind) != FirstLimit(rows, kind);
    }
  }

  lemma {:induction false} AgreementFixesLimit(rows: seq<Allocation>, others: seq<Allocation>, model: string, kind: Kind)
    requires InOrder(rows, model) && SameQuery(rows, others, model) && LeadersAgree(rows, model, kind)
    ensures FirstLimit(others, kind) == FirstLimit(rows, kind)
  {
    SameMembers(rows, others);
    NoLimitIff(rows, kind);
    NoLimitIff(others, kind);
    if FirstLimit(rows, kind).Some? {
      var i := FirstLeads(rows, model, kind);
      assert rows[i] in others;
      var j := FirstLeads(others, model, kind);
      assert Leads(rows, others[j], model, kind);
    }
  }

  /** Any leading provider comes first in some answer. */
  lemma {:induction false} LeaderFirst(rows: seq<Allocation>, model: string, kind: Kind, a: Allocation)
    returns (others: seq<Allocation>)
    requires InOrder(rows, model) && Leads(rows, a, model, kind)
    ensures SameQuery(rows, others, model) && FirstLimit(others, kind) == LimitOf(a, kind)
  {
    NoLimitIff(rows, kind);
    var i := FirstLeads(rows, model, kind);
    var j :| 0 <= j < |rows| && rows[j] == a;
    SwapIsSameQuery(rows, model, i, j);
    others := rows[i := rows[j]][j := rows[i]];
    FirstLimitAt(others, kind, i);
  }

  ghost predicate RivalProviders(a: Allocation, b: Allocation, model: string, kind: Kind) {
    a != b && Provides(a, kind) && Provides(b, kind) && Class(a, model) == Class(b, model)
  }

  /** One enforced provider per class and kind is enough. */
  lemma OneProviderPerClass(rows: seq<Allocation>, others: seq<Allocation>, model: string)
    requires InOrder(rows, model) && SameQuery(rows, others, model)
    requires forall a, b, kind :: a in rows && b in rows ==> !RivalProviders(a, b, model, kind)
    ensures Merged(others) == Merged(rows)
  {
    forall kind, a, b | Leads(rows, a, model, kind) && Leads(rows, b, model, kind)
      ensures LimitOf(a, kind) == LimitOf(b, kind)
    {
      assert !RivalProviders(a, b, model, kind);
    }
    AgreementFixesLimit(rows, others, model, TokenLimit);
    AgreementFixesLimit(rows, others, model, RequestLimit);
  }

  /** Two overlapping patterns with different limits: the limit depends on the row order. */
  lemma TieIsArbitrary(a: Allocation, b: Allocation, model: string)
    requires Class(a, model) == Class(b, model) && Provides(a, TokenLimit) && Provides(b, TokenLimit)
    requires LimitOf(a, TokenLimit) != LimitOf(b, TokenLimit)
    ensures SameQuery([a, b], [b, a], model) && Merged([a, b]) != Merged([b, a])
  {
    assert multiset([a, b]) == multiset([b, a]);
  }

  // ---------- the query ----------

  /** WHERE: enabled and approved, of the team, with a matching pattern. `like` is the LIKE of
      the pattern with its stars replaced. */
  predicate Selects(a: Allocation, team: string, model: string, like: (string, string) -> bool) {
    && a.team == team && a.enabled && a.status == Approved
    && (a.pattern == model || a.pattern == "*" || like(model, a.pattern))
  }

  ghost predicate IsAnswer(table: set<Allocation>, team: string, model: string, like: (string, string) -> bool, rows: seq<Allocation>) {
    && (forall a :: a in rows <==> a in table && Selects(a, team, model, like))
    && InOrder(rows, model)
  }

  /** A limit is returned iff some active allocation of the team enforces one for the model, and
      it is then the limit of one that no more specific allocation competes with. */
  lemma {:induction false} LimitIsMostSpecific(table: set<Allocation>, team: string, model: string,
                                               like: (string, string) -> bool, rows: seq<Allocation>, kind: Kind)
    requires IsAnswer(table, team, model, like, rows)
    ensures FirstLimit(rows, kind).Some? <==> exists a :: a in table && Selects(a, team, model, like) && Provides(a, kind)
    ensures FirstLimit(rows, kind).Some? ==> exists a ::
      && a in table && Selects(a, team, model, like) && Provides(a, kind) && FirstLimit(rows, kind) == LimitOf(a, kind)
      && forall x :: x in table && Selects(x, team, model, like) && Provides(x, kind) ==> Class(a, model) <= Class(x, model)
  {
    NoLimitIff(rows, kind);
    if FirstLimit(rows, kind).Some? {
      var i := FirstLeads(rows, model, kind);
      assert rows[i] in rows;
    }
    if a :| a in table && Selects(a, team, model, like) && Provides(a, kind) {
      assert a in rows;
    }
  }

  // ---------- the query over the columns ----------

  /** The answer to the query: the active rows of the team whose pattern matches, exact patterns
      first and the wildcard last. */
  ghost predicate Answers(table: set<Allocation>, team: string, model: string, like: (string, string) -> bool, rows: seq<Allocation>) {
    && (forall a :: a in rows <==>
          a in table && a.team == team && a.enabled && a.status == Approved
          && (a.pattern == model || a.pattern == "*" || like(model, a.pattern)))
    && (forall i, j :: 0 <= i < j < |rows| ==> !LessSpecific(rows[i], rows[j], model))
  }

  /** `b` matches the model exactly and `a` does not, or only `a` is the wildcard. */
  ghost predicate LessSpecific(a: Allocation, b: Allocation, model: string) {
    a.pattern != model && (b.pattern == model || (a.pattern == "*" && b.pattern != "*"))
  }

  lemma AnswersIff(table: set<Allocation>, team: string, model: string, like: (string, string) -> bool, rows: seq<Allocation>)
    ensures Answers(table, team, model, like, rows) <==> IsAnswer(table, team, model, like, rows)
  {
    forall a, b: Allocation
      ensures LessSpecific(a, b, model) <==> Class(a, model) > Class(b, model)
    {}
  }

  /** The token limit of a request is the amount and unit of an active, enforced row of the team
      with a matching pattern, and no more specific such row has one; without it there is none. */
  lemma {:induction false} TokenLimitIsMostSpecific(table: set<Allocation>, team: string, model: string,
                                                    like: (string, string) -> bool, rows: seq<Allocation>, limit: Option<Limit>)
    requires Answers(table, team, model, like, rows)
    requires limit == if Merged(rows).Some? then Merged(rows).value.token else None
    ensures limit.None? <==> forall a :: a in rows ==> !LimitsTokens(a)
    ensures limit.Some? ==> exists a ::
      && a in rows && LimitsTokens(a)
      && a.tokenLimit == Some(limit.value.perUnit) && a.tokenUnit == limit.value.unit
      && forall x :: x in rows && LimitsTokens(x) ==> !LessSpecific(a, x, model)
  {
    MergedMeans(rows);
    FirstTokenLimit(rows);
    FirstRequestLimit(rows);
    assert limit == FirstLimit(rows, TokenLimit);
    hide FirstLimit, LessSpecific, Merged, LimitsTokens;
    if limit.None? {
      forall a | a in rows
        ensures !LimitsTokens(a)
      {
        var i :| 0 <= i < |rows| && rows[i] == a;
      }
    } else {
      assert limit == Some(Limit(limit.value.perUnit, limit.value.unit));
      var i: nat :| FirstForTokens(rows, i) && rows[i].tokenLimit == Some(limit.value.perUnit) && rows[i].tokenUnit == limit.value.unit;
      forall x | x in rows && LimitsTokens(x)
        ensures x == rows[i] || !LessSpecific(rows[i], x, model)
      {
        var j :| 0 <= j < |rows| && rows[j] == x;
      }
    }
  }
}
