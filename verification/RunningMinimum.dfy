/** The running minimum that the budget loops report as the remaining budget. It starts at -1 and
is replaced when it is negative or when a smaller value comes by. */
module RunningMinimum {
  import opened Model

  /** What the running minimum holds after `n` values. A negative value means "unset", so the
      scan restarts after each negative value. */
  ghost predicate Tracks(xs: seq<Money>, n: nat, m: Money)
    requires n <= |xs|
  {
    if n == 0 then m == -1.0
    else if xs[n - 1] < 0.0 then m == xs[n - 1]
    else exists k :: LeastSince(xs, k, n, m)
  }

  /** `m` is the least of `xs[k..n]`, none of which is negative, and `k` is the start of the
      list or follows a negative value. */
  ghost predicate LeastSince(xs: seq<Money>, k: nat, n: nat, m: Money)
    requires n <= |xs|
  {
    && k < n
    && (k == 0 || xs[k - 1] < 0.0)
    && (forall j :: k <= j < n ==> 0.0 <= xs[j] && m <= xs[j])
    && (exists j :: k <= j < n && m == xs[j])
  }

  ghost predicate IsLeast(xs: seq<Money>, n: nat, m: Money)
    requires n <= |xs|
  {
    (forall j :: 0 <= j < n ==> m <= xs[j]) && exists j :: 0 <= j < n && m == xs[j]
  }

  lemma NothingTracked(xs: seq<Money>)
    ensures Tracks(xs, 0, -1.0)
  {}

  lemma TracksStep(xs: seq<Money>, n: nat, m: Money)
    requires n < |xs| && Tracks(xs, n, m)
    ensures Tracks(xs, n + 1, if m < 0.0 || xs[n] < m then xs[n] else m)
  {
    var x := xs[n];
    if x >= 0.0 {
      if n == 0 || xs[n - 1] < 0.0 {
        assert LeastSince(xs, n, n + 1, x);
      } else {
        var k :| LeastSince(xs, k, n, m);
        assert LeastSince(xs, k, n + 1, if x < m then x else m);
      }
    }
  }

  /** The report is the true minimum exactly when no value seen is both negative and smaller
      than the last one. */
  lemma IsLeastIff(xs: seq<Money>, n: nat, m: Money)
    requires 0 < n <= |xs| && Tracks(xs, n, m)
    ensures IsLeast(xs, n, m) <==> forall j :: 0 <= j < n ==> xs[j] >= 0.0 || xs[n - 1] <= xs[j]
  {}
}
