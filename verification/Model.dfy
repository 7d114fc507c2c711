/** The rows the budget service reads and writes, as values.

Money is an exact real: the tables store DECIMAL(20, 10) and rounding is not modelled.
A UUID is a natural number and a point in time an integer. */
module Model {

  type Id = nat
  type RequestId = string
  type Instant = int
  type Money = real

  datatype Option<+T> = None | Some(value: T)

  /** `Unknown` stands for any type string that the Go code has no constant for. */
  datatype EntityType = Team | Org | Provider | Unknown

  datatype ApprovalStatus = Pending | Approved | Rejected | Closed

  datatype Budget = Budget(
    id: Id,
    kind: EntityType,
    amount: Money,
    usage: Money,
    pending: Money,
    parent: Option<Id>,
    isolated: bool,
    allowFallback: bool,
    enabled: bool,
    status: ApprovalStatus)
  {
    function Remaining(): Money {
      amount - usage - pending
    }

    /** The filter of every enforcement query: enabled = true AND approval_status = 'approved'. */
    predicate Enforced() {
      enabled && status == Approved
    }
  }

  datatype Reservation = Reservation(
    budgetId: Id,
    requestId: RequestId,
    estimate: Money,
    expiresAt: Instant)

  datatype UsageRecord = UsageRecord(
    budgetId: Id,
    requestId: RequestId,
    cost: Money,
    parentCharged: bool)

  function Max(x: Money, y: Money): Money {
    if x < y then y else x
  }

  predicate DistinctIds(bs: seq<Budget>) {
    forall i, j :: 0 <= i < j < |bs| ==> bs[i].id != bs[j].id
  }

  predicate Distinct<T(==)>(xs: seq<T>) {
    forall i, j :: 0 <= i < j < |xs| ==> xs[i] != xs[j]
  }

  function SetOf<T(==)>(xs: seq<T>): set<T> {
    set x | x in xs
  }

  /** The answer of a SELECT over a primary key: no row twice. */
  type Rows = bs: seq<Budget> | DistinctIds(bs) witness []
  type IdList = xs: seq<Id> | Distinct(xs) witness []

  function IdsOf(bs: seq<Budget>): set<Id> {
    set i | 0 <= i < |bs| :: bs[i].id
  }
}
