/** One connection and its three counters. */
module Database {
  import opened Params

  const MAX_CON_FAILURES := 250

  /** What the client library made of a query. */
  datatype Outcome = Succeeded | Refused | Threw

  /** The consecutive counter is 16 bits wide; the other two are 64 bits wide. */
  datatype Counters = Counters(performed: nat, failed: nat, consecutive: nat)

  const ZERO := Counters(0, 0, 0)

  function Perform(c: Counters, success: bool): Counters {
    if success then Counters(c.performed + 1, c.failed, 0)
    else Counters(c.performed + 1, c.failed + 1, (c.consecutive + 1) % UINT16)
  }

  class Database {
    var performedQueries: nat
    var failedQueries: nat
    var consecutiveFailures: nat

    ghost function Snapshot(): Counters
      reads this
    {
      Counters(performedQueries, failedQueries, consecutiveFailures)
    }

    constructor ()
      ensures Snapshot() == ZERO
    {
      performedQueries, failedQueries, consecutiveFailures := 0, 0, 0;
    }

    /** `outcome` is the client library's answer to `query`; if it throws, so does this. */
    method PerformQuery(query: string, outcome: Outcome) returns (success: bool, threw: bool)
      modifies this
      ensures threw == outcome.Threw? && success == outcome.Succeeded?
      ensures Snapshot() == if threw then old(Snapshot()) else Perform(old(Snapshot()), success)
    {
      success, threw := outcome.Succeeded?, outcome.Threw?;
      if threw {
        return;
      }
      if success {
        consecutiveFailures := 0;
      } else {
        failedQueries := failedQueries + 1;
        consecutiveFailures := (consecutiveFailures + 1) % UINT16;
      }
      performedQueries := performedQueries + 1;
    }
  }

  // ---- the counters against the outcomes ---------------------------------------------------

  function PerformAll(outcomes: seq<bool>): Counters {
    if outcomes == [] then ZERO
    else Perform(PerformAll(outcomes[..|outcomes| - 1]), outcomes[|outcomes| - 1])
  }

  /** Length of the run of failures at the end. */
  function TrailingFailures(outcomes: seq<bool>): nat {
    if outcomes == [] || outcomes[|outcomes| - 1] then 0
    else 1 + TrailingFailures(outcomes[..|outcomes| - 1])
  }

  function Failures(outcomes: seq<bool>): nat {
    if outcomes == [] then 0
    else Failures(outcomes[..|outcomes| - 1]) + if outcomes[|outcomes| - 1] then 0 else 1
  }

  /** The last 250 of the first `k` outcomes are failures. */
  predicate LastAllFailed(outcomes: seq<bool>, k: nat) {
    MAX_CON_FAILURES <= k <= |outcomes| && forall j | k - MAX_CON_FAILURES <= j < k :: !outcomes[j]
  }

  /** `k` is the first such point. */
  predicate AbortsAt(outcomes: seq<bool>, k: nat) {
    LastAllFailed(outcomes, k) && forall j: nat | j < k :: !LastAllFailed(outcomes, j)
  }

  lemma {:induction false} TrailingRun(outcomes: seq<bool>)
    ensures var r := TrailingFailures(outcomes);
            && r <= |outcomes|
            && (forall j | |outcomes| - r <= j < |outcomes| :: !outcomes[j])
            && (r < |outcomes| ==> outcomes[|outcomes| - r - 1])
  {
    if outcomes != [] && !outcomes[|outcomes| - 1] {
      var front := outcomes[..|outcomes| - 1];
      TrailingRun(front);
      assert forall j | 0 <= j < |front| :: front[j] == outcomes[j];
    }
  }

  lemma LastAllFailedIsTrailing(outcomes: seq<bool>)
    ensures LastAllFailed(outcomes, |outcomes|) <==> TrailingFailures(outcomes) >= MAX_CON_FAILURES
  {
    TrailingRun(outcomes);
  }

  lemma LastAllFailedPrefix(outcomes: seq<bool>, o: bool, k: nat)
    requires k <= |outcomes|
    ensures LastAllFailed(outcomes + [o], k) <==> LastAllFailed(outcomes, k)
  {
    assert forall j | 0 <= j < |outcomes| :: (outcomes + [o])[j] == outcomes[j];
  }

  /** After one more outcome. */
  lemma OneMore(outcomes: seq<bool>, o: bool)
    ensures PerformAll(outcomes + [o]) == Perform(PerformAll(outcomes), o)
    ensures TrailingFailures(outcomes + [o]) == if o then 0 else TrailingFailures(outcomes) + 1
    ensures Failures(outcomes + [o]) == Failures(outcomes) + if o then 0 else 1
  {
    assert (outcomes + [o])[..|outcomes|] == outcomes;
  }

  /**
   As long as the thread stops at 250, the counters are exact: all outcomes, all
   failures, and the run of failures at the end, which never exceeds 250 and so
   never wraps its 16 bits.
   */
  lemma {:induction false} CountersExact(outcomes: seq<bool>)
    requires forall k: nat | k < |outcomes| :: !LastAllFailed(outcomes, k)
    ensures PerformAll(outcomes) == Counters(|outcomes|, Failures(outcomes), TrailingFailures(outcomes))
    ensures TrailingFailures(outcomes) <= MAX_CON_FAILURES
    ensures TrailingFailures(outcomes) <= Failures(outcomes) <= |outcomes|
  {
    if outcomes != [] {
      var front, o := outcomes[..|outcomes| - 1], outcomes[|outcomes| - 1];
      assert outcomes == front + [o];
      forall k: nat | k <= |front|
        ensures !LastAllFailed(front, k)
      {
        LastAllFailedPrefix(front, o, k);
      }
      CountersExact(front);
      OneMore(front, o);
      LastAllFailedIsTrailing(front);
    }
  }
}
